/** Runs of the container watcher that end in the states its exact conditions single out. */
module ContainerWitnesses {
  import opened Text
  import opened Paths
  import opened Store
  import opened Watcher
  import opened Replica
  import opened Container
  import opened ContainerIndex

  /** A pod group of one container on node "n". */
  function Sample(id: string): P.PodGroup
  {
    P.PodGroup("", "", "", [], [P.Pod(1, [P.Container(id, "n", "i", "", 0)])])
  }

  lemma SampleKeys(id: string, k: string)
    ensures k in Placed(Sample(id)) <==> k == "n/" + id || k == "i/" + id
  {
    var pg := Sample(id);
    var c := pg.pods[0].containers[0];
    assert KeyedBy(c, k) <==> k == "n/" + id || k == "i/" + id by {
      assert "n" + "/" + id == "n/" + id && "i" + "/" + id == "i/" + id;
    }
    PlacedAreTheContainers(pg, k);
    if KeyedBy(c, k) {
      assert KeyedIn(pg.pods[0], k);
    }
  }

  /** Two values read as pod groups of the containers "1" and "10". */
  ghost predicate Reads(parse: Parse)
  {
    parse("1") == Some(Sample("1")) && parse("10") == Some(Sample("10"))
  }

  lemma RootedNames()
    ensures Canonical("/r/a") && Canonical("/r/b") && Under("/r", "/r/a") && Under("/r", "/r/b")
  {
    PlainName("r");
    PlainName("a");
    PlainName("b");
    assert "/" + "r" == "/r" && "/r" + "/" + "a" == "/r/a" && "/r" + "/" + "b" == "/r/b";
  }

  /** Connected, and the whole history handled. */
  predicate AtHead(w: World<Table, Info>)
  {
    w.phase.Up? && w.phase.cursor == |w.history|
  }

  lemma ConnectToNothing(root: string, parse: Parse) returns (moves: seq<Move>)
    ensures var w := PlayAll(ContainerKind(root, parse), map[], moves);
      AtHead(w) && w.history == [] && w.core.data == map[] && w.core.table == map[]
  {
    var kind := ContainerKind(root, parse);
    moves := [ReadTree(KeyNotFound)];
    PlayOneMore(kind, map[], [], ReadTree(KeyNotFound));
    assert [] + moves == moves;
    assert Below(root, StoreAt([], 0)) == map[];
    PlayOneMore(kind, map[], moves, OpenWatch);
    moves := moves + [OpenWatch];
  }

  lemma StoreAndDeliver<T, V>(kind: Kind<T, V>, table: T, moves: seq<Move>, c: Change) returns (more: seq<Move>)
    requires var w := PlayAll(kind, table, moves);
      w.phase.Up? && w.phase.cursor == |w.history|
    requires Legal(kind.root, c) && Visible(kind.root, c)
    ensures var w, w' := PlayAll(kind, table, moves), PlayAll(kind, table, more);
      && w'.phase.Up? && w'.phase.cursor == |w'.history| && w'.history == w.history + [c]
      && w'.core == Handle(kind, w.core, WatchEvent(c, |w.history| + 1)).core
  {
    PlayOneMore(kind, table, moves, StoreChanges(c));
    more := moves + [StoreChanges(c)];
    PlayOneMore(kind, table, more, Deliver);
    more := more + [Deliver];
  }

  /** A container is cached at k for the pod group s. */
  predicate CachedFor(core: Core<Table, Info>, s: string, k: string)
  {
    k in core.data && core.data[k].Some? && k in core.table && core.table[k] == s
  }

  lemma HandleSample(parse: Parse, core: Core<Table, Info>, c: Change, n: nat, id: string, k: string)
    requires Visible("/r", c) && c.Writes() && parse(c.value) == Some(Sample(id))
    ensures var core' := Handle(ContainerKind("/r", parse), core, WatchEvent(c, n)).core;
      && (k == "n/" + id ==> CachedFor(core', c.key, k))
      && (forall s :: CachedFor(core, s, k) && s != c.key && k != "n/" + id && k != "i/" + id ==>
        CachedFor(core', s, k))
  {
    SampleKeys(id, k);
    HandleAt("/r", parse, core, c, n, k);
  }

  /** The first state's entries for other pod groups are in the second, which has a container
      cached under its name key. */
  ghost predicate Adds(core: Core<Table, Info>, core': Core<Table, Info>, key: string, id: string)
  {
    && CachedFor(core', key, "n/" + id)
    && forall s, k :: CachedFor(core, s, k) && s != key && k != "n/" + id && k != "i/" + id ==> CachedFor(core', s, k)
  }

  lemma HandleAdds(parse: Parse, core: Core<Table, Info>, c: Change, n: nat, id: string)
    requires Visible("/r", c) && c.Writes() && parse(c.value) == Some(Sample(id))
    ensures Adds(core, Handle(ContainerKind("/r", parse), core, WatchEvent(c, n)).core, c.key, id)
  {
    var core' := Handle(ContainerKind("/r", parse), core, WatchEvent(c, n)).core;
    HandleSample(parse, core, c, n, id, "n/" + id);
    forall s, k | CachedFor(core, s, k) && s != c.key && k != "n/" + id && k != "i/" + id
      ensures CachedFor(core', s, k)
    {
      HandleSample(parse, core, c, n, id, k);
    }
  }

  lemma StoreSample(parse: Parse, moves: seq<Move>, c: Change, id: string) returns (more: seq<Move>)
    requires AtHead(PlayAll(ContainerKind("/r", parse), map[], moves))
    requires Legal("/r", c) && Visible("/r", c) && c.Writes() && parse(c.value) == Some(Sample(id))
    ensures var kind := ContainerKind("/r", parse);
      var v, w := PlayAll(kind, map[], moves), PlayAll(kind, map[], more);
      AtHead(w) && w.history == v.history + [c] && Adds(v.core, w.core, c.key, id)
  {
    var kind := ContainerKind("/r", parse);
    var v := PlayAll(kind, map[], moves);
    HandleAdds(parse, v.core, c, |v.history| + 1, id);
    more := StoreAndDeliver(kind, map[], moves, c);
  }

  lemma OneStored(parse: Parse) returns (moves: seq<Move>)
    requires Reads(parse)
    ensures var w := PlayAll(ContainerKind("/r", parse), map[], moves);
      AtHead(w) && w.history == [Change(OpSet, "/r/a", "1")] && CachedFor(w.core, "/r/a", "n/1")
  {
    RootedNames();
    moves := ConnectToNothing("/r", parse);
    var c := Change(OpSet, "/r/a", "1");
    moves := StoreSample(parse, moves, c, "1");
    assert "n/" + "1" == "n/1" && [] + [c] == [c];
  }

  lemma BothStored(parse: Parse) returns (moves: seq<Move>)
    requires Reads(parse)
    ensures var w := PlayAll(ContainerKind("/r", parse), map[], moves);
      && AtHead(w) && w.history == [Change(OpSet, "/r/a", "1"), Change(OpSet, "/r/b", "10")]
      && CachedFor(w.core, "/r/a", "n/1") && CachedFor(w.core, "/r/b", "n/10")
  {
    RootedNames();
    moves := OneStored(parse);
    moves := StoreSample(parse, moves, Change(OpSet, "/r/b", "10"), "10");
    assert "n/" + "10" == "n/10" && |"i/" + "10"| > |"n/1"| && "/r/a"[3] != "/r/b"[3];
  }

  /** Why keys must be prefix-free: a run that removes the pod group "/r/a", which owns the
      container key "n/1", and thereby evicts "n/10" of "/r/b", which stays in the store, without
      announcing it. */
  lemma CollateralEviction(parse: Parse) returns (moves: seq<Move>)
    requires Reads(parse)
    ensures var kind := ContainerKind("/r", parse);
      var w := PlayAll(kind, map[], moves);
      && w.phase.Up? && w.phase.cursor < |w.history| && w.history[w.phase.cursor] == Change(OpDelete, "/r/a", "")
      && "n/10" in w.core.data && "n/10" in PlacedAt("/r", parse, w.history, |w.history|, "/r/b")
      && "n/10" !in PlayAll(kind, map[], moves + [Deliver]).core.data
      && "n/10" !in Handle(kind, w.core, WatchEvent(w.history[w.phase.cursor], w.phase.cursor + 1)).keys
  {
    var kind := ContainerKind("/r", parse);
    RootedNames();
    var stored := BothStored(parse);
    var c := Change(OpDelete, "/r/a", "");
    PlayOneMore(kind, map[], stored, StoreChanges(c));
    moves := stored + [StoreChanges(c)];
    PlayOneMore(kind, map[], moves, Deliver);
    EvictsTheOther(kind, PlayAll(kind, map[], moves));
    StillStored(parse, PlayAll(kind, map[], moves).history);
  }

  lemma EvictsTheOther(kind: Kind<Table, Info>, w: World<Table, Info>)
    requires Bounded(w) && w.phase.Up? && w.phase.cursor < |w.history|
             && Visible(kind.root, w.history[w.phase.cursor])
    requires w.history[w.phase.cursor] == Change(OpDelete, "/r/a", "") && kind.invertKey == Invert
    requires CachedFor(w.core, "/r/a", "n/1") && CachedFor(w.core, "/r/b", "n/10")
    ensures "n/10" !in Play(kind, w, Deliver).core.data
    ensures "n/10" !in Handle(kind, w.core, WatchEvent(w.history[w.phase.cursor], w.phase.cursor + 1)).keys
  {
    assert "n/1" <= "n/10" && "n/1" in Hit(kind, w.core, "/r/a");
    assert "/r/a"[3] != "/r/b"[3];
  }

  lemma StillStored(parse: Parse, history: seq<Change>)
    requires Reads(parse)
    requires history == [Change(OpSet, "/r/a", "1"), Change(OpSet, "/r/b", "10"), Change(OpDelete, "/r/a", "")]
    ensures "n/10" in PlacedAt("/r", parse, history, 3, "/r/b")
  {
    RootedNames();
    SampleKeys("10", "n/10");
    assert "/r/a"[3] != "/r/b"[3];
    assert StoreAt(history, 2) == Commit(StoreAt(history, 1), history[1]);
    assert StoreAt(history, 3) == Commit(StoreAt(history, 2), history[2]);
  }

  /** A nil can be cached: the pod group "/r/a" gets another container while the connection is
      lost, and the refresh leaves a nil under the key of the one it had. */
  lemma NilIsReached(parse: Parse) returns (moves: seq<Move>)
    requires Reads(parse)
    ensures NilAt(PlayAll(ContainerKind("/r", parse), map[], moves).core, "n/1")
  {
    var kind := ContainerKind("/r", parse);
    RootedNames();
    moves := OneStored(parse);
    PlayOneMore(kind, map[], moves, Lose);
    moves := moves + [Lose];
    var c := Change(OpSet, "/r/a", "10");
    PlayOneMore(kind, map[], moves, StoreChanges(c));
    moves := moves + [StoreChanges(c)];
    var w := PlayAll(kind, map[], moves);
    var tree := Pairs([KVPair("/r/a", "10", 2)]);
    TheTree(w.history);
    PlayOneMore(kind, map[], moves, ReadTree(tree));
    moves := moves + [ReadTree(tree)];
    EveryRunIsTracked(kind, map[], moves);
    OkMeansParsed(parse, w.core.table, [KVPair("/r/a", "10", 2)]);
    NothingPlaces(parse, w.history);
    RefreshNil("/r", parse, w.history, 2, w.core, tree, "n/1");
  }

  lemma {:induction false} TheTree(history: seq<Change>)
    requires history == [Change(OpSet, "/r/a", "1"), Change(OpSet, "/r/a", "10")]
    ensures StoreAt(history, 2) == map["/r/a" := "10"]
    ensures Answers(Pairs([KVPair("/r/a", "10", 2)]), StoreAt(history, 2), "/r")
  {
    RootedNames();
    assert StoreAt(history, 1) == Commit(map[], history[0]);
    assert StoreAt(history, 2) == Commit(StoreAt(history, 1), history[1]) == map["/r/a" := "10"];
    var pairs := [KVPair("/r/a", "10", 2)];
    assert pairs[0].key == "/r/a";
  }

  lemma NothingPlaces(parse: Parse, history: seq<Change>)
    requires Reads(parse) && history == [Change(OpSet, "/r/a", "1"), Change(OpSet, "/r/a", "10")]
    ensures forall s :: "n/1" !in PlacedAt("/r", parse, history, 2, s)
  {
    TheTree(history);
    SampleKeys("10", "n/1");
  }

  /** A first watch can cache a container without a live owner: the pod group "/r/a" is read, and
      removed before the watch opens "from now". */
  lemma StaleOwnerIsReached(parse: Parse) returns (moves: seq<Move>)
    requires Reads(parse)
    ensures var w := PlayAll(ContainerKind("/r", parse), map[], moves);
      AtHead(w) && CachedFor(w.core, "/r/a", "n/1") && "/r/a" !in StoreAt(w.history, |w.history|)
  {
    var kind := ContainerKind("/r", parse);
    var d := Change(OpDelete, "/r/a", "");
    RootedNames();
    moves := OneRead(parse);
    var w := PlayAll(kind, map[], moves);
    PlayOneMore(kind, map[], moves, StoreChanges(d));
    moves := moves + [StoreChanges(d)];
    PlayOneMore(kind, map[], moves, OpenWatch);
    moves := moves + [OpenWatch];
    assert StoreAt(w.history + [d], 2) == Commit(StoreAt(w.history + [d], 1), d);
  }

  lemma OneRead(parse: Parse) returns (moves: seq<Move>)
    requires Reads(parse)
    ensures var w := PlayAll(ContainerKind("/r", parse), map[], moves);
      && w.phase.Ready? && w.history == [Change(OpSet, "/r/a", "1")] && w.core.lastIndex == 0
      && CachedFor(w.core, "/r/a", "n/1")
  {
    var kind := ContainerKind("/r", parse);
    var c := Change(OpSet, "/r/a", "1");
    var pairs := [KVPair("/r/a", "1", 1)];
    RootedNames();
    PlayOneMore(kind, map[], [], StoreChanges(c));
    moves := [] + [StoreChanges(c)];
    var w := PlayAll(kind, map[], moves);
    assert w.history == [c];
    OneStoredTree(w.history);
    OkMeansParsed(parse, w.core.table, pairs);
    PlayOneMore(kind, map[], moves, ReadTree(Pairs(pairs)));
    moves := moves + [ReadTree(Pairs(pairs))];
    ReadIsCached(parse, w.history, w.core, Pairs(pairs));
  }

  lemma {:induction false} OneStoredTree(history: seq<Change>)
    requires history == [Change(OpSet, "/r/a", "1")]
    ensures StoreAt(history, 1) == map["/r/a" := "1"]
    ensures Answers(Pairs([KVPair("/r/a", "1", 1)]), StoreAt(history, 1), "/r")
  {
    RootedNames();
    assert StoreAt(history, 1) == Commit(map[], history[0]);
    var pairs := [KVPair("/r/a", "1", 1)];
    assert pairs[0].key == "/r/a";
  }

  lemma ReadIsCached(parse: Parse, history: seq<Change>, before: Core<Table, Info>, tree: Tree)
    requires Reads(parse) && history == [Change(OpSet, "/r/a", "1")]
    requires Read(ContainerKind("/r", parse), history, 1, before, tree)
    ensures CachedFor(Base(ContainerKind("/r", parse), before, tree), "/r/a", "n/1")
  {
    RootedNames();
    OneStoredTree(history);
    SampleKeys("1", "n/1");
    assert "n/" + "1" == "n/1";
    RefreshHolds("/r", parse, history, 1, before, tree, "/r/a", "n/1");
  }
}
