/** What queries and watches of a path watcher can see, in every state of every run. */
module Requests {
  import opened Text
  import opened Paths
  import opened Store
  import opened Cacher
  import opened Broadcast
  import opened Watcher
  import opened Replica
  import opened Joint
  import opened PathWatcher
  import C = Container
  import CI = ContainerIndex
  import HW = HandleWatch
  import P = PodGroups
  import EventStream

  /** Every cached key continues the root to a canonical path. */
  ghost predicate KeysCanonical<V>(root: string, data: Data<V>)
  {
    forall c :: c in data ==> Canonical(root + "/" + c)
  }

  lemma HandleKeepsKeys<V>(root: Root, parse: string -> Option<V>, core: Core<(), V>, c: Change, n: nat)
    requires Visible(root, c) && Canonical(c.key) && KeysCanonical(root, core.data)
    ensures KeysCanonical(root, Handle(PathKind(root, parse), core, WatchEvent(c, n)).core.data)
  {
    if c.Writes() {
      ConvertedOne(root, parse, KVPair(c.key, c.value, n));
      CutAndJoin(root, c.key, CacheKey(root, c.key));
    }
  }

  lemma {:induction false} RefreshGivesKeys<V>(
      root: Root, parse: string -> Option<V>, history: seq<Change>, core: Core<(), V>, tree: Tree)
    requires Answers(tree, StoreAt(history, |history|), root) && KeysCanonical(root, core.data)
    requires forall i :: 0 <= i < |history| ==> Legal(root, history[i])
    ensures KeysCanonical(root, Refreshed(PathKind(root, parse), core, tree).0.data)
  {
    if tree.Pairs? {
      ConvertedShowsStore(root, parse, tree.pairs, StoreAt(history, |history|));
      StoreKeysGood(Canonical, history, |history|);
    }
  }

  /** No run brings any other key into the cache, connected or not. */
  lemma {:induction false} EveryRunIsCanonical<V>(root: Root, parse: string -> Option<V>, moves: seq<Move>)
    ensures KeysCanonical(root, PlayAll(PathKind(root, parse), (), moves).core.data)
    decreases |moves|
  {
    if moves != [] {
      var kind := PathKind(root, parse);
      var init, move := moves[..|moves| - 1], moves[|moves| - 1];
      var w := PlayAll(kind, (), init);
      EveryRunIsCanonical(root, parse, init);
      EveryRunIsTracked(kind, (), init);
      if move.ReadTree? && w.phase.Down? && Answers(move.tree, StoreAt(w.history, |w.history|), root) {
        RefreshGivesKeys(root, parse, w.history, w.core, move.tree);
      }
      if move.Deliver? && w.phase.Up? && w.phase.cursor < |w.history| && Visible(root, w.history[w.phase.cursor]) {
        HandleKeepsKeys(root, parse, w.core, w.history[w.phase.cursor], w.phase.cursor + 1);
      }
    }
  }

  // ----- everything -----

  /** In every state of every run no cached key is empty, so a query of "*" and a watch of
      "*" show the same full map. */
  lemma {:induction false} WildcardAgrees<V>(root: Root, parse: string -> Option<V>, moves: seq<Move>)
    requires Canonical(root)
    ensures var w := PlayAll(PathKind(root, parse), (), moves);
      "" !in w.core.data && Query(w.core.data, "*") == Some(Pushed(w.core.data, "*"))
  {
    var w := PlayAll(PathKind(root, parse), (), moves);
    EveryRunIsCanonical(root, parse, moves);
    assert !Plain(Split("", '/')[0]);
    CanonicalBelowRoot(root, "");
    QueryAgreesWithPush(w.core.data, "*");
  }

  // ----- one application -----

  /** The key lies below the application: its first component is the name, and it goes on. */
  predicate BelongsTo(app: string, key: string)
  {
    |Split(key, '/')| > 1 && Split(key, '/')[0] == app
  }

  function EntriesOf<V>(data: Data<V>, app: string): Data<V>
  {
    map k | k in data && BelongsTo(app, k) :: data[k]
  }

  /** The query an application's view makes answers with the application's entries exactly when
      no key ends right after the name's slash, or that is the application's only key. */
  lemma QueryOfApplication<V>(data: Data<V>, app: string)
    requires app != "" && '/' !in app
    ensures Lookup(data, FixPrefix(app)) == EntriesOf(data, app) <==>
            FixPrefix(app) !in data || forall k :: k in data && BelongsTo(app, k) ==> k == FixPrefix(app)
  {
    forall k
      ensures FixPrefix(app) <= k <==> BelongsTo(app, k)
    {
      ApplicationIsolation(app, k);
    }
    assert Range(data, FixPrefix(app)) == EntriesOf(data, app);
    LookupIsRange(data, FixPrefix(app));
  }

  /** A broadcast concerns an application's watcher exactly when it changed one of its keys. */
  lemma WakesForApplication(keys: set<string>, app: string)
    requires app != "" && '/' !in app
    ensures Matches(keys, FixPrefix(app)) <==> exists k :: k in keys && BelongsTo(app, k)
  {
    forall k
      ensures FixPrefix(app) <= k <==> BelongsTo(app, k)
    {
      ApplicationIsolation(app, k);
    }
  }

  /** In every state of every run, query and watch of an application see exactly its entries:
      one whose name extends the application's never shows up. */
  lemma {:induction false} EveryRunIsolates<V>(root: Root, parse: string -> Option<V>, moves: seq<Move>, app: string)
    requires Canonical(root) && app != "" && '/' !in app
    ensures var data := PlayAll(PathKind(root, parse), (), moves).core.data;
      Query(data, FixPrefix(app)) == Some(EntriesOf(data, app))
        && Pushed(data, FixPrefix(app)) == EntriesOf(data, app)
  {
    var data := PlayAll(PathKind(root, parse), (), moves).core.data;
    EveryRunIsCanonical(root, parse, moves);
    assert FixPrefix(app) == app + ['/'] + "";
    SplitAtSeparator(app, '/', "");
    var parts := Split(FixPrefix(app), '/');
    assert !Plain(parts[|parts| - 1]);
    CanonicalBelowRoot(root, FixPrefix(app));
    assert FixPrefix(app) !in data;
    QueryOfApplication(data, app);
    assert FixPrefix(app) != "*";
  }

  // ----- the last frame of a request -----

  /** From end to end over every joint run of a path watcher: what the last data frame of a
      request shows that has read everything there is for it. Unless a refresh overlooked its
      receiver, that is the present view exactly when there was a note, or the view did not
      change between the first query and the registration. */
  lemma {:induction false} LastFrameShowsTheCache<V(!new), W(!new)>(
      root: Root, parse: string -> Option<V>, moves: seq<JointMove<V>>, r: nat, api: HW.Api<V, W>, data: Data<V>)
    requires Canonical(root) && HW.Reports(api.changed) && HW.Showable(api, data)
    ensures var j := JointAll(PathKind(root, parse), (), moves);
      HW.Settled(j.hub, r) && HW.AllShowable(api, j.hub.subs[r].taken) ==>
        ShowsExactly(api, j.world.core.data, j.hub.subs[r], r in j.overlooked, data)
  {
    var j := JointAll(PathKind(root, parse), (), moves);
    ReceiversStayCoherent(root, parse, moves);
    if HW.Settled(j.hub, r) && HW.AllShowable(api, j.hub.subs[r].taken) {
      TakenHasNoErrors(PathKind(root, parse), (), moves, r);
      HW.LastFrameIsCurrentExactly(api, j.hub, j.overlooked, r, data);
    }
  }

  /** The same for containers, whatever their keys. */
  lemma {:induction false} LastFrameShowsTheContainers<W(!new)>(
      root: string, parse: CI.Parse, moves: seq<JointMove<C.Info>>, r: nat, api: HW.Api<C.Info, W>,
      data: Data<C.Info>)
    requires HW.Reports(api.changed) && HW.Showable(api, data)
    ensures var j := JointAll(C.ContainerKind(root, parse), map[], moves);
      HW.Settled(j.hub, r) && HW.AllShowable(api, j.hub.subs[r].taken) ==>
        ShowsExactly(api, j.world.core.data, j.hub.subs[r], r in j.overlooked, data)
  {
    var j := JointAll(C.ContainerKind(root, parse), map[], moves);
    CI.ReceiversStayCoherent(root, parse, moves);
    if HW.Settled(j.hub, r) && HW.AllShowable(api, j.hub.subs[r].taken) {
      TakenHasNoErrors(C.ContainerKind(root, parse), map[], moves, r);
      HW.LastFrameIsCurrentExactly(api, j.hub, j.overlooked, r, data);
    }
  }

  /** What is claimed of the last data frame: of a request that was first answered with data,
      registered the receiver s and read its notes, while the cache now holds cached. */
  ghost predicate ShowsExactly<V, W(!new)>(
      api: HW.Api<V, W>, cached: Data<V>, s: Subscriber<V>, overlooked: bool, data: Data<V>)
  {
    var now := Lookup(cached, s.key);
    var frames := HW.DataFrames(HW.Stream(api, Some(data), s.taken));
    && frames != []
    && (!overlooked ==> (HW.FrameShows(api, now, frames[|frames| - 1]) <==>
      s.taken != [] || HW.Alike(api, data, s.start)))
    && (HW.FrameShows(api, now, frames[|frames| - 1]) <==>
      HW.Alike(api, if s.taken == [] then data else s.Held(), now))
  }

  /** And from the store: when the watch is at the head of the history and missed no change, values
      can be parsed and names are prefix-safe, the last frame shows the view of what the store
      holds. */
  lemma {:induction false} LastFrameShowsTheStore<V(!new), W(!new)>(
      root: Root, parse: string -> Option<V>, moves: seq<JointMove<V>>, r: nat, api: HW.Api<V, W>, data: Data<V>)
    requires Canonical(root) && HW.Reports(api.changed) && HW.Showable(api, data)
    ensures var j := JointAll(PathKind(root, parse), (), moves);
      && HW.Settled(j.hub, r) && HW.AllShowable(api, j.hub.subs[r].taken) && r !in j.overlooked
      && (j.hub.subs[r].taken != [] || HW.Alike(api, data, j.hub.subs[r].start))
      && CaughtUpSafely(root, parse, j.world) ==>
        exists stored ::
          && Shows(stored, root, parse, Below(root, StoreAt(j.world.history, |j.world.history|)))
          && LastShows(api, Lookup(stored, j.hub.subs[r].key),
            HW.DataFrames(HW.Stream(api, Some(data), j.hub.subs[r].taken)))
  {
    var j := JointAll(PathKind(root, parse), (), moves);
    LastFrameShowsTheCache(root, parse, moves, r, api, data);
    var played := JointIsARun(PathKind(root, parse), (), moves);
    EveryRunConvergesSafely(root, parse, played);
  }

  ghost predicate LastShows<V, W>(api: HW.Api<V, W>, now: Data<V>, frames: seq<EventStream.Message>)
  {
    frames != [] && HW.FrameShows(api, now, frames[|frames| - 1])
  }

  ghost predicate CaughtUpSafely<V>(root: string, parse: string -> Option<V>, w: World<(), V>)
    requires Bounded(w)
  {
    && w.phase.Up? && w.phase.cursor == |w.history| && NoneMissed(root, parse, w)
    && ValuesOk(root, Parses(parse), w.history, w.phase.start, w.phase.cursor)
    && PrefixSafe(root, w.history, w.phase.start, w.phase.cursor)
  }

  // ----- everything, for containers -----

  /** In every state of every run no cached container key is empty either: a key has a slash. */
  lemma {:induction false} ContainerWildcardAgrees(root: string, parse: CI.Parse, moves: seq<Move>)
    ensures var w := PlayAll(C.ContainerKind(root, parse), map[], moves);
      "" !in w.core.data && Query(w.core.data, "*") == Some(Pushed(w.core.data, "*"))
  {
    var w := PlayAll(C.ContainerKind(root, parse), map[], moves);
    CI.EveryRunKnows(root, parse, moves);
    if "" in w.core.data {
      var i :| 0 <= i < |w.history| && CI.KeyOfChange(root, parse, w.history[i], "");
      C.PlacedAreTheContainers(parse(w.history[i].value).value, "");
      assert false;
    }
    QueryAgreesWithPush(w.core.data, "*");
  }

  // ----- one node -----

  /** In every state of every run of the container watcher, query and watch of a node see exactly
      the entries under its name or address, if and only if no container with an empty id is
      cached there, or it is the only one. */
  lemma {:induction false} EveryRunShowsNodes(root: string, parse: CI.Parse, moves: seq<Move>, node: string)
    requires node != "" && '/' !in node
    ensures var data := PlayAll(C.ContainerKind(root, parse), map[], moves).core.data;
      && Query(data, FixPrefix(node)) == Some(Pushed(data, FixPrefix(node)))
      && (Pushed(data, FixPrefix(node)) == EntriesOf(data, node) <==>
            FixPrefix(node) !in data || forall k :: k in data && BelongsTo(node, k) ==> k == FixPrefix(node))
  {
    assert FixPrefix(node) == node + "/" && FixPrefix(node) != "*";
    QueryOfApplication(PlayAll(C.ContainerKind(root, parse), map[], moves).core.data, node);
  }

  /** At every position of a watch those entries are the node's containers: what is cached under
      a node's name or address is a container on that node, when names and addresses have no
      slash. */
  lemma {:induction false} NodeEntriesAreItsContainers(
      root: string, parse: CI.Parse, moves: seq<Move>, node: string, k: string)
    ensures var w := PlayAll(C.ContainerKind(root, parse), map[], moves);
      w.phase.Up? && k in EntriesOf(w.core.data, node) && w.core.data[k].Some? ==>
        var info := w.core.data[k].value;
        '/' !in info.nodeName && '/' !in info.nodeIp ==> node == info.nodeName || node == info.nodeIp
  {
    var w := PlayAll(C.ContainerKind(root, parse), map[], moves);
    CI.EveryRunIndexesMirror(root, parse, moves);
    if w.phase.Up? && k in EntriesOf(w.core.data, node) && w.core.data[k].Some? {
      var mirror := Mirror(root, Parses(parse), w.history, w.phase.start, w.phase.snap, w.phase.cursor);
      assert CI.Owned(parse, w.core, mirror, k);
      DescribedOnNode(parse(mirror[w.core.table[k]]).value, k, w.core.data[k].value, node);
    }
  }

  lemma DescribedOnNode(pg: P.PodGroup, k: string, info: C.Info, node: string)
    requires k in C.Placed(pg) && C.Placed(pg)[k] == info && BelongsTo(node, k)
    ensures '/' !in info.nodeName && '/' !in info.nodeIp ==> node == info.nodeName || node == info.nodeIp
  {
    C.PlacedAreTheContainers(pg, k);
    assert C.Describes(pg, k, info);
    var i, j :| C.LastInPods(pg, |pg.pods|, i, j, k) &&
      C.ShownAs(pg, pg.pods[i], pg.pods[i].containers[j], info);
    var c := pg.pods[i].containers[j];
    if '/' !in info.nodeName && '/' !in info.nodeIp {
      FirstComponent(c.nodeName, c.id);
      FirstComponent(c.nodeIp, c.id);
    }
  }

  lemma {:induction false} FirstComponent(name: string, id: string)
    requires '/' !in name
    ensures Split(name + "/" + id, '/')[0] == name
  {
    assert name + "/" + id == name + ['/'] + id;
    SplitAtSeparator(name, '/', id);
    SplitOne(name, '/');
  }

  // ----- one application's receiver -----

  /** In every joint run of every kind of watcher, a receiver that registered for an application is
      only ever sent entries of that application, and its first answer has no others. */
  lemma {:induction false} ReceiversAreIsolated<T, V>(
      kind: Kind<T, V>, table: T, moves: seq<JointMove<V>>, r: nat, app: string)
    requires app != "" && '/' !in app
    ensures var subs, asked := JointAll(kind, table, moves).hub.subs, JointAsked(kind, table, moves);
      r < |asked| && asked[r] == FixPrefix(app) ==>
        && r < |subs| && subs[r].key == FixPrefix(app)
        && (forall n, k :: n in subs[r].Sent() && k in n.data ==> BelongsTo(app, k))
        && (forall k :: k in subs[r].start ==> BelongsTo(app, k))
  {
    var subs, asked := JointAll(kind, table, moves).hub.subs, JointAsked(kind, table, moves);
    JointReceiversAreTheAsked(kind, table, moves);
    EveryNoteIsOk(kind, table, moves);
    forall k
      ensures FixPrefix(app) <= k <==> BelongsTo(app, k)
    {
      ApplicationIsolation(app, k);
    }
    if r < |asked| && asked[r] == FixPrefix(app) {
      assert Keys(subs)[r] == subs[r].key;
      assert NotesOk(subs[r]);
    }
  }

  lemma {:induction false} TakenHasNoErrors<T, V>(kind: Kind<T, V>, table: T, moves: seq<JointMove<V>>, r: nat)
    requires r < |JointAll(kind, table, moves).hub.subs|
    ensures HW.NoErrors(JointAll(kind, table, moves).hub.subs[r].taken)
  {
    EveryNoteIsOk(kind, table, moves);
    var s := JointAll(kind, table, moves).hub.subs[r];
    assert NotesOk(s);
    assert forall i :: 0 <= i < |s.taken| ==> s.taken[i] in s.Sent();
  }
}
