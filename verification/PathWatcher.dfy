/** The watchers whose cache keys are store keys below a root: config, podgroup, depends and
    nodes. parse is how a kind reads a stored value; config takes every value as it is. */
module PathWatcher {
  import opened Text
  import opened Paths
  import opened Store
  import opened Cacher
  import opened Watcher
  import opened Replica
  import opened Joint

  const CONFIG_KEY := "/lain/config"
  const PODGROUP_KEY := "/lain/deployd/pod_groups"
  const DEPENDS_KEY := "/lain/deployd/depends/pods"
  const NODES_KEY := "/lain/nodes/nodes"

  /** The directories watched are canonical paths, so what is proved of canonical roots holds
      of every watcher. */
  lemma RootsAreCanonical()
    ensures Canonical(CONFIG_KEY) && Canonical(PODGROUP_KEY) && Canonical(DEPENDS_KEY) && Canonical(NODES_KEY)
  {
    LainIsCanonical();
    OneBelow("/lain", "config", CONFIG_KEY);
    OneBelow("/lain", "deployd", "/lain/deployd");
    OneBelow("/lain/deployd", "pod_groups", PODGROUP_KEY);
    OneBelow("/lain/deployd", "depends", "/lain/deployd/depends");
    OneBelow("/lain/deployd/depends", "pods", DEPENDS_KEY);
    OneBelow("/lain", "nodes", "/lain/nodes");
    OneBelow("/lain/nodes", "nodes", NODES_KEY);
  }

  lemma LainIsCanonical()
    ensures Canonical("/lain")
  {
    PlainName("lain");
    assert "/" + "lain" == "/lain";
  }

  lemma OneBelow(root: string, name: string, key: string)
    requires Canonical(root) && '/' !in name && Plain(name) && key == root + "/" + name
    ensures Canonical(key)
  {
    PlainName(name);
  }

  type Root = r: string | "/" <= r witness "/"

  /** The store key cut after the root and its slash. Keys too short to cut do not reach a
      conversion: no watch reports them and no tree below the root lists them. */
  function CacheKey(root: string, key: string): string
  {
    if |key| > |root| then key[|root| + 1..] else ""
  }

  /** The conversion on a list of pairs: it fails on the first value that cannot be parsed. */
  function Converted<V>(root: string, parse: string -> Option<V>, pairs: seq<KVPair>): Option<Data<V>>
    decreases |pairs|
  {
    if pairs == [] then Some(map[])
    else
      var rest, last := Converted(root, parse, pairs[..|pairs| - 1]), pairs[|pairs| - 1];
      if rest.None? || parse(last.value).None? then None
      else Some(rest.value[CacheKey(root, last.key) := parse(last.value)])
  }

  method Convert<V>(root: string, parse: string -> Option<V>, pairs: seq<KVPair>) returns (r: Option<Data<V>>)
    requires forall i :: 0 <= i < |pairs| ==> |pairs[i].key| > |root|
    ensures r == Converted(root, parse, pairs)
  {
    var ret: Data<V> := map[];
    for i := 0 to |pairs|
      invariant Converted(root, parse, pairs[..i]) == Some(ret)
    {
      assert pairs[..i + 1][..i] == pairs[..i];
      var kv := pairs[i];
      var value := parse(kv.value);
      if value.None? {
        ConvertedFails(root, parse, pairs, i + 1);
        return None;
      }
      ret := ret[kv.key[|root| + 1..] := value];
    }
    assert pairs[..|pairs|] == pairs;
    return Some(ret);
  }

  lemma {:induction false} ConvertedFails<V>(root: string, parse: string -> Option<V>, pairs: seq<KVPair>, n: nat)
    requires n <= |pairs| && Converted(root, parse, pairs[..n]).None?
    ensures Converted(root, parse, pairs).None?
    decreases |pairs|
  {
    if n == |pairs| {
      assert pairs[..n] == pairs;
    } else {
      assert pairs[..|pairs| - 1][..n] == pairs[..n];
      ConvertedFails(root, parse, pairs[..|pairs| - 1], n);
    }
  }

  function InvertKey(root: Root, key: string): string
  {
    PathJoin(root, key)
  }

  function PathKind<V>(root: Root, parse: string -> Option<V>): Kind<(), V>
  {
    Kind(root, (t: (), pairs) => (Converted(root, parse, pairs), t), (t: (), key) => InvertKey(root, key))
  }

  // ----- one conversion -----

  /** The cache that shows exactly the given store contents, which lie below root. */
  ghost predicate Shows<V>(data: Data<V>, root: string, parse: string -> Option<V>, store: Contents)
  {
    && (forall c :: c in data <==> root + "/" + c in store)
    && (forall c :: c in data ==> data[c] == parse(store[root + "/" + c]) && data[c].Some?)
  }

  lemma CutAndJoin(root: string, key: string, c: string)
    requires Under(root, key)
    ensures CacheKey(root, key) == c <==> key == root + "/" + c
    ensures key == root + "/" + CacheKey(root, key)
  {
    assert (root + "/" + c)[|root| + 1..] == c;
    assert key[..|root| + 1] == root + "/";
  }

  /** The first n pairs of an enumeration. */
  ghost predicate ShowsPairs<V>(data: Data<V>, root: string, parse: string -> Option<V>, pairs: seq<KVPair>)
  {
    && (forall i :: 0 <= i < |pairs| ==>
          CacheKey(root, pairs[i].key) in data && data[CacheKey(root, pairs[i].key)] == parse(pairs[i].value))
    && (forall c :: c in data ==> data[c].Some? && exists i :: 0 <= i < |pairs| && CacheKey(root, pairs[i].key) == c)
  }

  lemma ShowsOnePair<V>(data: Data<V>, root: string, parse: string -> Option<V>, pairs: seq<KVPair>, last: KVPair)
    requires ShowsPairs(data, root, parse, pairs) && parse(last.value).Some?
    requires forall i :: 0 <= i < |pairs| ==> CacheKey(root, pairs[i].key) != CacheKey(root, last.key)
    ensures ShowsPairs(data[CacheKey(root, last.key) := parse(last.value)], root, parse, pairs + [last])
  {
    var all := pairs + [last];
    forall c | c in data
      ensures exists i :: 0 <= i < |all| && CacheKey(root, all[i].key) == c
    {
      var i :| 0 <= i < |pairs| && CacheKey(root, pairs[i].key) == c;
      assert all[i] == pairs[i];
    }
    assert all[|pairs|] == last;
  }

  lemma CacheKeysDiffer(root: string, pairs: seq<KVPair>)
    requires DistinctKeys(pairs) && forall i :: 0 <= i < |pairs| ==> Under(root, pairs[i].key)
    ensures forall i, j :: 0 <= i < j < |pairs| ==> CacheKey(root, pairs[i].key) != CacheKey(root, pairs[j].key)
  {
    forall i, j | 0 <= i < j < |pairs|
      ensures CacheKey(root, pairs[i].key) != CacheKey(root, pairs[j].key)
    {
      CutAndJoin(root, pairs[i].key, CacheKey(root, pairs[j].key));
      CutAndJoin(root, pairs[j].key, CacheKey(root, pairs[j].key));
    }
  }

  /** A conversion shows its pairs, or some pair cannot be parsed. */
  ghost predicate ConvertsPairs<V>(r: Option<Data<V>>, root: string, parse: string -> Option<V>, pairs: seq<KVPair>)
  {
    match r
    case Some(data) => ShowsPairs(data, root, parse, pairs)
    case None => exists i :: 0 <= i < |pairs| && parse(pairs[i].value).None?
  }

  lemma ConvertsOneMore<V>(
      root: string, parse: string -> Option<V>, init: seq<KVPair>, last: KVPair, r: Option<Data<V>>)
    requires ConvertsPairs(r, root, parse, init)
    requires forall i :: 0 <= i < |init| ==> CacheKey(root, init[i].key) != CacheKey(root, last.key)
    ensures ConvertsPairs(
      if r.None? || parse(last.value).None? then None
        else Some(r.value[CacheKey(root, last.key) := parse(last.value)]),
      root, parse, init + [last])
  {
    if r.None? {
      var i :| 0 <= i < |init| && parse(init[i].value).None?;
      assert (init + [last])[i] == init[i];
    } else if parse(last.value).None? {
      assert (init + [last])[|init|] == last;
    } else {
      ShowsOnePair(r.value, root, parse, init, last);
    }
  }

  lemma {:induction false} ConvertedShowsPairs<V>(root: string, parse: string -> Option<V>, pairs: seq<KVPair>)
    requires DistinctKeys(pairs) && forall i :: 0 <= i < |pairs| ==> Under(root, pairs[i].key)
    ensures ConvertsPairs(Converted(root, parse, pairs), root, parse, pairs)
    decreases |pairs|
  {
    if pairs != [] {
      var init, last := pairs[..|pairs| - 1], pairs[|pairs| - 1];
      ConvertedShowsPairs(root, parse, init);
      CacheKeysDiffer(root, pairs);
      ConvertsLast(root, parse, init, last);
      assert pairs == init + [last];
    }
  }

  lemma {:induction false} ConvertsLast<V>(root: string, parse: string -> Option<V>, init: seq<KVPair>, last: KVPair)
    requires ConvertsPairs(Converted(root, parse, init), root, parse, init)
    requires forall i :: 0 <= i < |init| ==> CacheKey(root, init[i].key) != CacheKey(root, last.key)
    ensures ConvertsPairs(Converted(root, parse, init + [last]), root, parse, init + [last])
  {
    assert (init + [last])[..|init|] == init;
    ConvertsOneMore(root, parse, init, last, Converted(root, parse, init));
  }

  /** Converting an enumeration of the store below root gives a cache that shows it, and
      fails exactly when some value cannot be parsed. */
  lemma {:induction false} ConvertedShowsStore<V>(
      root: string, parse: string -> Option<V>, pairs: seq<KVPair>, store: Contents)
    requires Enumerates(pairs, store, root)
    ensures match Converted(root, parse, pairs)
            case Some(data) => Shows(data, root, parse, Below(root, store))
            case None => exists k :: k in Below(root, store) && parse(store[k]).None?
  {
    ConvertedShowsPairs(root, parse, pairs);
    var below := Below(root, store);
    match Converted(root, parse, pairs)
    case None =>
      var i :| 0 <= i < |pairs| && parse(pairs[i].value).None?;
      assert pairs[i].key in below;
    case Some(data) =>
      forall c
        ensures c in data <==> root + "/" + c in below
        ensures c in data ==> data[c] == parse(below[root + "/" + c]) && data[c].Some?
      {
        var k := root + "/" + c;
        if c in data {
          var i :| 0 <= i < |pairs| && CacheKey(root, pairs[i].key) == c;
          CutAndJoin(root, pairs[i].key, c);
        }
        if k in below {
          var i :| 0 <= i < |pairs| && pairs[i].key == k;
          CutAndJoin(root, k, c);
        }
      }
  }

  /** From the tree to the cache and back: after reading a well-formed tree the cache has one
      entry for each file below the root, under a key that leads back to the file's full key
      exactly when that key is canonical; and no entry has the empty key. */
  lemma {:induction false} TreeToCache<V>(root: Root, parse: string -> Option<V>, nodes: seq<Node>, store: Contents)
    requires WellFormed(root, nodes) && Represents(nodes, store, root) && Canonical(root)
    requires forall k :: k in Below(root, store) ==> parse(store[k]).Some?
    ensures var r := Converted(root, parse, Leaves(nodes));
      && r.Some? && Shows(r.value, root, parse, Below(root, store)) && "" !in r.value
      && (forall k :: k in Below(root, store) ==>
            CacheKey(root, k) in r.value && (InvertKey(root, CacheKey(root, k)) == k <==> Canonical(k)))
  {
    TreeEnumerates(nodes, store, root);
    ConvertedShowsStore(root, parse, Leaves(nodes), store);
    var r := Converted(root, parse, Leaves(nodes));
    forall k | k in Below(root, store)
      ensures CacheKey(root, k) in r.value
      ensures InvertKey(root, CacheKey(root, k)) == k <==> Canonical(k)
    {
      CutAndJoin(root, k, CacheKey(root, k));
      JoinBelowRoot(root, k);
    }
    assert root + "/" + "" == root + "/" && !Under(root, root + "/");
  }

  // ----- one event -----

  /** What is used of a path kind: its conversion, and that its keys lead back to the good
      store keys. Canonical keys are the good ones. */
  ghost predicate PathLike<V(!new)>(kind: Kind<(), V>, parse: string -> Option<V>, good: string -> bool)
  {
    && (forall t, pairs :: kind.convert(t, pairs) == (Converted(kind.root, parse, pairs), t))
    && (forall t, c :: good(kind.root + "/" + c) ==> kind.invertKey(t, c) == kind.root + "/" + c)
  }

  lemma PathKindIsPathLike<V(!new)>(root: Root, parse: string -> Option<V>)
    requires Canonical(root)
    ensures PathLike(PathKind(root, parse), parse, Canonical)
  {
    forall c | Canonical(root + "/" + c)
      ensures InvertKey(root, c) == root + "/" + c
    {
      JoinBelowRoot(root, root + "/" + c);
      assert (root + "/" + c)[|root| + 1..] == c;
    }
  }

  /** The cache shows the mirror, whose keys are good. */
  ghost predicate InStep<V(!new)>(
      kind: Kind<(), V>, parse: string -> Option<V>, good: string -> bool, core: Core<(), V>, mirror: Contents)
  {
    && PathLike(kind, parse, good)
    && Shows(core.data, kind.root, parse, mirror)
    && forall k :: k in mirror ==> good(k)
  }

  /** The keys a removal hits are those whose store key starts with the path; they are closed
      under extension, so exactly the hits disappear. */
  lemma HitsAreClosed<V(!new)>(
      kind: Kind<(), V>, parse: string -> Option<V>, good: string -> bool, core: Core<(), V>, mirror: Contents,
      path: string)
    requires InStep(kind, parse, good, core, mirror)
    ensures Hit(kind, core, path) == set c | c in core.data && path <= kind.root + "/" + c
    ensures Evict(core.data, Hit(kind, core, path)) == core.data - Hit(kind, core, path)
  {
    var hit := Hit(kind, core, path);
    forall x, c | x in hit && c in core.data && x <= c
      ensures c in hit
    {
      assert kind.root + "/" + x <= kind.root + "/" + c;
    }
  }

  lemma {:induction false} ConvertedOne<V>(root: string, parse: string -> Option<V>, pair: KVPair)
    ensures Converted(root, parse, [pair]) ==
            if parse(pair.value).None? then None else Some(map[CacheKey(root, pair.key) := parse(pair.value)])
  {
    assert [pair][..0] == [];
  }

  /** Events keep the cache in step with the mirror, for SET, UPDATE and DELETE alike. */
  lemma EventKeepsStep<V(!new)>(
      kind: Kind<(), V>, parse: string -> Option<V>, good: string -> bool, core: Core<(), V>, mirror: Contents,
      c: Change, n: nat)
    requires InStep(kind, parse, good, core, mirror) && Visible(kind.root, c) && good(c.key)
    ensures InStep(kind, parse, good, Handle(kind, core, WatchEvent(c, n)).core,
            MirrorStep(kind.root, Parses(parse), mirror, c))
  {
    if c.Removes() {
      HitsAreClosed(kind, parse, good, core, mirror, c.key);
      EvictedShows(core.data, kind.root, parse, mirror, c.key);
    } else {
      ConvertedOne(kind.root, parse, KVPair(c.key, c.value, n));
      if parse(c.value).Some? {
        WrittenShows(core.data, kind.root, parse, mirror, c.key, c.value);
      }
    }
  }

  lemma EvictedShows<V>(data: Data<V>, root: string, parse: string -> Option<V>, mirror: Contents, path: string)
    requires Shows(data, root, parse, mirror)
    ensures var kept := data - (set c | c in data && path <= root + "/" + c);
      Shows(kept, root, parse, map k | k in mirror && !(path <= k) :: mirror[k])
  {
  }

  lemma WrittenShows<V>(
      data: Data<V>, root: string, parse: string -> Option<V>, mirror: Contents, key: string, value: string)
    requires Shows(data, root, parse, mirror) && Under(root, key) && parse(value).Some?
    ensures Shows(Overlay(data, map[CacheKey(root, key) := parse(value)]), root, parse, mirror[key := value])
  {
    forall c
      ensures root + "/" + c == key <==> c == CacheKey(root, key)
    {
      CutAndJoin(root, key, c);
    }
  }

  /** Every event's broadcast names every key it changed. */
  lemma EventIsAnnounced<V(!new)>(
      kind: Kind<(), V>, parse: string -> Option<V>, good: string -> bool, core: Core<(), V>, mirror: Contents,
      e: Event)
    requires InStep(kind, parse, good, core, mirror)
    ensures AgreeOutside(core.data, Handle(kind, core, e).core.data, Handle(kind, core, e).keys)
  {
    HitsAreClosed(kind, parse, good, core, mirror, e.key);
    DeltaIsAnnounced(kind, core, e);
    var hit := Hit(kind, core, e.key);
    forall x, k | x in hit && k in core.data && x <= k
      ensures k in hit
    {
      assert k !in Evict(core.data, hit);
    }
  }

  // ----- whole runs -----

  /** The snapshot a watch began from, as the converted tree shows it. */
  lemma {:induction false} BaseShowsSnapshot<V>(
      root: Root, parse: string -> Option<V>, history: seq<Change>, snap: nat, before: Core<(), V>, tree: Tree)
    requires Read(PathKind(root, parse), history, snap, before, tree)
    ensures Shows(Base(PathKind(root, parse), before, tree).data, root, parse, Below(root, StoreAt(history, snap)))
    ensures SnapshotOk(root, Parses(parse), history, snap)
  {
    var store := StoreAt(history, snap);
    if tree.Pairs? {
      ConvertedShowsStore(root, parse, tree.pairs, store);
      var data := Base(PathKind(root, parse), before, tree).data;
      forall k | k in Below(root, store)
        ensures parse(store[k]).Some?
      {
        CutAndJoin(root, k, CacheKey(root, k));
        assert CacheKey(root, k) in data;
      }
    } else {
      assert Below(root, store) == map[];
    }
  }

  lemma {:induction false} StoreKeysGood(good: string -> bool, history: seq<Change>, n: nat)
    requires n <= |history| && forall i :: 0 <= i < |history| ==> good(history[i].key)
    ensures forall k :: k in StoreAt(history, n) ==> good(k)
  {
    if n > 0 {
      StoreKeysGood(good, history, n - 1);
    }
  }

  /** Following the changes over the shown snapshot shows the mirror. */
  lemma {:induction false} FollowShowsMirror<V(!new)>(
      kind: Kind<(), V>, parse: string -> Option<V>, good: string -> bool,
      history: seq<Change>, start: nat, snap: nat, n: nat, base: Core<(), V>)
    requires start <= n <= |history| && snap <= |history|
    requires forall i :: 0 <= i < |history| ==> good(history[i].key)
    requires InStep(kind, parse, good, base, Below(kind.root, StoreAt(history, snap)))
    ensures InStep(kind, parse, good, Follow(kind, base, history, start, n),
            Mirror(kind.root, Parses(parse), history, start, snap, n))
  {
    var related := (core, mirror) => InStep(kind, parse, good, core, mirror);
    forall core, mirror, i | start <= i < n && Visible(kind.root, history[i]) && related(core, mirror)
      ensures related(Handle(kind, core, WatchEvent(history[i], i + 1)).core,
              MirrorStep(kind.root, Parses(parse), mirror, history[i]))
    {
      EventKeepsStep(kind, parse, good, core, mirror, history[i], i + 1);
    }
    FollowSimulates(kind, Parses(parse), related, base, history, start, snap, n);
  }

  /** In every run, at every position of a watch, the cache shows the mirror. */
  lemma {:induction false} EveryRunShowsMirror<V(!new)>(root: Root, parse: string -> Option<V>, moves: seq<Move>)
    requires Canonical(root)
    ensures var kind := PathKind(root, parse);
      var w := PlayAll(kind, (), moves);
      w.phase.Up? ==>
        && InStep(kind, parse, Canonical, w.core,
                  Mirror(root, Parses(parse), w.history, w.phase.start, w.phase.snap, w.phase.cursor))
        && SnapshotOk(root, Parses(parse), w.history, w.phase.snap)
  {
    var kind := PathKind(root, parse);
    var w := PlayAll(kind, (), moves);
    EveryRunIsTracked(kind, (), moves);
    if w.phase.Up? {
      var Up(start, snap, cursor, before, tree) := w.phase;
      BaseShowsSnapshot(root, parse, w.history, snap, before, tree);
      StoreKeysGood(Canonical, w.history, snap);
      PathKindIsPathLike(root, parse);
      FollowShowsMirror(kind, parse, Canonical, w.history, start, snap, cursor, Base(kind, before, tree));
    }
  }

  /** In every run every event's broadcast names every key it changes. */
  lemma {:induction false} EveryRunAnnounces<V(!new)>(
      root: Root, parse: string -> Option<V>, played: seq<Move>, move: Move)
    requires Canonical(root)
    ensures Announces(PathKind(root, parse), PlayAll(PathKind(root, parse), (), played), move)
  {
    var kind := PathKind(root, parse);
    var w := PlayAll(kind, (), played);
    if Delivers(kind, w, move) {
      EveryRunShowsMirror(root, parse, played);
      var Up(start, snap, cursor, before, tree) := w.phase;
      var mirror := Mirror(root, Parses(parse), w.history, start, snap, cursor);
      EventIsAnnounced(kind, parse, Canonical, w.core, mirror, WatchEvent(w.history[cursor], cursor + 1));
    }
  }

  /** In every joint run, whatever is lost, refreshed, read, registered or cancelled in between:
      an open receiver whose latest note was not dropped, and that no broadcast has yet to
      reach, holds what a query of its key answers now exactly when it was not overlooked. */
  lemma {:induction false} ReceiversStayCoherent<V(!new)>(
      root: Root, parse: string -> Option<V>, moves: seq<JointMove<V>>)
    requires Canonical(root)
    ensures EventsAnnounced(PathKind(root, parse), (), moves) && InTune(JointAll(PathKind(root, parse), (), moves))
  {
    var kind := PathKind(root, parse);
    forall i | 0 <= i < |moves| && moves[i].ByWatcher?
      ensures Announces(kind, JointAll(kind, (), moves[..i]).world, moves[i].move)
    {
      var played := JointIsARun(kind, (), moves[..i]);
      EveryRunAnnounces(root, parse, played, moves[i].move);
    }
    EveryJointRunIsInTune(kind, (), moves);
  }

  /** The cache holds the store key k as the store does. */
  ghost predicate Caches<V>(data: Data<V>, root: string, parse: string -> Option<V>, store: Contents, k: string)
    requires Under(root, k)
  {
    && (CacheKey(root, k) in data <==> k in store)
    && (k in store ==> data[CacheKey(root, k)].Some? && data[CacheKey(root, k)] == parse(store[k]))
  }

  /** In every run of store changes, refreshes, lost connections and deliveries: once a watch
      that began no later than its snapshot has caught up with the snapshot, the cache agrees
      with the store at the watch's position about a key exactly when the last change since
      the watch began that concerned it was treated alike by both, or evicted a key that is
      not in the store. At the head of the history this is convergence after reconnection. */
  lemma {:induction false} EveryRunConverges<V(!new)>(
      root: Root, parse: string -> Option<V>, moves: seq<Move>, k: string)
    requires Canonical(root) && Under(root, k)
    ensures var w := PlayAll(PathKind(root, parse), (), moves);
      w.phase.Up? && w.phase.start <= w.phase.snap <= w.phase.cursor ==>
        (Caches(w.core.data, root, parse, StoreAt(w.history, w.phase.cursor), k) <==>
         match Judge(root, Parses(parse), w.history, w.phase.start, w.phase.cursor, k)
         case Untouched => true
         case Faithful => true
         case Garbled => false
         case Evicted => k !in StoreAt(w.history, w.phase.cursor))
  {
    var w := PlayAll(PathKind(root, parse), (), moves);
    EveryRunShowsMirror(root, parse, moves);
    if w.phase.Up? && w.phase.start <= w.phase.snap <= w.phase.cursor {
      var Up(start, snap, cursor, before, tree) := w.phase;
      assert k in StoreAt(w.history, snap) ==> k in Below(root, StoreAt(w.history, snap));
      ReplayIsExact(root, Parses(parse), w.history, start, snap, cursor, k);
      MirrorByVerdict(root, Parses(parse), w.history, start, snap, cursor, k);
      CutAndJoin(root, k, CacheKey(root, k));
    }
  }

  /** Both hold the key with values that read alike, or neither holds it. */
  ghost predicate ReadAlike<V>(parse: string -> Option<V>, a: Contents, b: Contents, k: string)
  {
    (k in a <==> k in b) && (k in a ==> parse(a[k]) == parse(b[k]))
  }

  /** What a cache that shows the mirror says of a key is what the mirror says. */
  lemma CachesAsMirror<V>(
      data: Data<V>, root: string, parse: string -> Option<V>, mirror: Contents, store: Contents, k: string)
    requires Shows(data, root, parse, mirror) && Under(root, k)
    ensures Caches(data, root, parse, store, k) <==> ReadAlike(parse, mirror, store, k)
  {
    CutAndJoin(root, k, CacheKey(root, k));
  }

  /** At every position of a watch, whenever it began: the cache holds a key as the store does
      exactly when the verdict on its last change is harmless; and if no change since the watch
      began concerns the key, exactly when it read at the snapshot as it did when the watch
      began. A first watch begins after its snapshot and misses the changes in between for
      good. */
  lemma {:induction false} EveryPositionConverges<V(!new)>(
      root: Root, parse: string -> Option<V>, moves: seq<Move>, k: string)
    requires Canonical(root) && Under(root, k)
    ensures var w := PlayAll(PathKind(root, parse), (), moves);
      w.phase.Up? ==>
        (Caches(w.core.data, root, parse, StoreAt(w.history, w.phase.cursor), k) <==>
         match Judge(root, Parses(parse), w.history, w.phase.start, w.phase.cursor, k)
         case Untouched => ReadAlike(parse, StoreAt(w.history, w.phase.snap), StoreAt(w.history, w.phase.start), k)
         case Faithful => true
         case Garbled => false
         case Evicted => k !in StoreAt(w.history, w.phase.cursor))
  {
    var w := PlayAll(PathKind(root, parse), (), moves);
    EveryRunShowsMirror(root, parse, moves);
    if w.phase.Up? {
      var Up(start, snap, cursor, before, tree) := w.phase;
      assert k in StoreAt(w.history, snap) ==> k in Below(root, StoreAt(w.history, snap));
      MirrorByVerdict(root, Parses(parse), w.history, start, snap, cursor, k);
      CachesAsMirror(w.core.data, root, parse, Mirror(root, Parses(parse), w.history, start, snap, cursor),
        StoreAt(w.history, cursor), k);
    }
  }

  /** A cache that shows some store below root shows another exactly when it holds each key as
      that one does. */
  lemma ShowsByKey<V>(
      data: Data<V>, root: string, parse: string -> Option<V>, mirror: Contents, store: Contents)
    requires Shows(data, root, parse, mirror) && forall k :: k in mirror ==> Under(root, k)
    ensures Shows(data, root, parse, Below(root, store)) <==>
            forall k :: Under(root, k) ==> Caches(data, root, parse, store, k)
  {
    forall k | Under(root, k)
      ensures k == root + "/" + CacheKey(root, k)
    {
      CutAndJoin(root, k, CacheKey(root, k));
    }
    if Shows(data, root, parse, Below(root, store)) {
      forall k | Under(root, k)
        ensures Caches(data, root, parse, store, k)
      {
        assert k in Below(root, store) <==> k in store;
      }
    }
    if forall k :: Under(root, k) ==> Caches(data, root, parse, store, k) {
      forall c
        ensures c in data <==> root + "/" + c in Below(root, store)
        ensures c in data ==> data[c] == parse(store[root + "/" + c]) && data[c].Some?
      {
        var k := root + "/" + c;
        if Under(root, k) {
          CutAndJoin(root, k, c);
          assert Caches(data, root, parse, store, k);
        }
      }
    }
  }

  /** No key that is unconcerned since the watch began read otherwise at the snapshot. */
  ghost predicate NoneMissed<V>(root: string, parse: string -> Option<V>, w: World<(), V>)
    requires Bounded(w) && w.phase.Up?
  {
    forall k ::
      Under(root, k) && Judge(root, Parses(parse), w.history, w.phase.start, w.phase.cursor, k).Untouched? ==>
        ReadAlike(parse, StoreAt(w.history, w.phase.snap), StoreAt(w.history, w.phase.start), k)
  }

  /** With parseable values and prefix-safe names the cache is the converted store exactly when
      the watch missed no change, at every position of every watch. */
  lemma {:induction false} EveryRunConvergesSafely<V(!new)>(root: Root, parse: string -> Option<V>, moves: seq<Move>)
    requires Canonical(root)
    ensures var w := PlayAll(PathKind(root, parse), (), moves);
      w.phase.Up?
      && ValuesOk(root, Parses(parse), w.history, w.phase.start, w.phase.cursor)
      && PrefixSafe(root, w.history, w.phase.start, w.phase.cursor) ==>
        (Shows(w.core.data, root, parse, Below(root, StoreAt(w.history, w.phase.cursor))) <==>
          NoneMissed(root, parse, w))
  {
    var w := PlayAll(PathKind(root, parse), (), moves);
    EveryRunShowsMirror(root, parse, moves);
    if w.phase.Up?
       && ValuesOk(root, Parses(parse), w.history, w.phase.start, w.phase.cursor)
       && PrefixSafe(root, w.history, w.phase.start, w.phase.cursor) {
      var Up(start, snap, cursor, before, tree) := w.phase;
      var store := StoreAt(w.history, cursor);
      MirrorKeysBelow(root, Parses(parse), w.history, start, snap, cursor);
      ShowsByKey(w.core.data, root, parse, Mirror(root, Parses(parse), w.history, start, snap, cursor), store);
      forall k | Under(root, k)
        ensures Caches(w.core.data, root, parse, store, k) <==>
                (Judge(root, Parses(parse), w.history, start, cursor, k).Untouched? ==>
                   ReadAlike(parse, StoreAt(w.history, snap), StoreAt(w.history, start), k))
      {
        EveryPositionConverges(root, parse, moves, k);
        NeverGarbled(root, Parses(parse), w.history, start, cursor, k);
        if k in store {
          assert k in Below(root, store);
          NeverEvicted(root, Parses(parse), w.history, start, cursor, cursor, k);
        }
      }
    }
  }

  /** A watch that began no later than its snapshot and is past it missed none; nor did one that
      began later, if no change in between was one it reports. */
  lemma {:induction false} CaughtUpMissesNone<V>(root: string, parse: string -> Option<V>, w: World<(), V>)
    requires Bounded(w) && w.phase.Up?
    requires MissedNothing(root, w.history, w.phase.start, w.phase.snap, w.phase.cursor)
    ensures NoneMissed(root, parse, w)
  {
    var Up(start, snap, cursor, before, tree) := w.phase;
    forall k | Under(root, k) && Judge(root, Parses(parse), w.history, start, cursor, k).Untouched?
      ensures ReadAlike(parse, StoreAt(w.history, snap), StoreAt(w.history, start), k)
    {
      if start <= snap <= cursor {
        UntouchedBefore(root, Parses(parse), w.history, start, snap, cursor, k);
        UntouchedAgrees(root, Parses(parse), w.history, start, snap, k);
      } else {
        NothingMissed(root, w.history, snap, start);
        assert Agree(Below(root, StoreAt(w.history, snap)), Below(root, StoreAt(w.history, start)), k);
      }
    }
  }

  /** A run in which the watcher reads the empty store, then "/c/a" is set, and only then the
      first watch opens, "from now": the change is never delivered. */
  lemma FirstWatchCanMiss()
    ensures var parse := (v: string) => Some(v);
      var w := PlayAll(PathKind("/c", parse), (), [
        ReadTree(KeyNotFound), StoreChanges(Change(OpSet, "/c/a", "1")), OpenWatch]);
      && w.phase.Up? && w.phase.cursor == |w.history| && w.phase.snap < w.phase.start
      && "/c/a" in StoreAt(w.history, |w.history|) && "a" !in w.core.data
  {
    var parse := (v: string) => Some(v);
    var c := Change(OpSet, "/c/a", "1");
    PlainChangeIsLegal("c", "a", "1");
    ChangeInBetween("/c", parse, c);
    assert StoreAt([c], 1) == Commit(StoreAt([c], 0), c);
  }

  /** The empty store is read, one change is made, and then the first watch opens. */
  lemma ChangeInBetween<V>(root: Root, parse: string -> Option<V>, c: Change)
    requires Legal(root, c)
    ensures var empty: Core<(), V> := Core(map[], (), 0, false);
      PlayAll(PathKind(root, parse), (), [ReadTree(KeyNotFound), StoreChanges(c), OpenWatch])
      == World([c], empty, Up(1, 0, 1, empty, KeyNotFound))
  {
    var kind := PathKind(root, parse);
    var empty: Core<(), V> := Core(map[], (), 0, false);
    PlayThree(kind, ReadTree(KeyNotFound), StoreChanges(c), OpenWatch);
    assert Below(root, StoreAt([], 0)) == map[];
    var read := Play(kind, World([], empty, Down), ReadTree(KeyNotFound));
    assert read == World([], empty, Ready(0, empty, KeyNotFound));
    assert Play(kind, read, StoreChanges(c)) == read.(history := [c]);
  }

  lemma PlainChangeIsLegal(dir: string, name: string, value: string)
    requires '/' !in dir && '/' !in name && Plain(dir) && Plain(name)
    ensures Legal("/" + dir, Change(OpSet, "/" + dir + "/" + name, value))
  {
    PlainName(dir);
    PlainName(name);
  }

  lemma {:induction false} PlayThree<V>(kind: Kind<(), V>, a: Move, b: Move, c: Move)
    ensures PlayAll(kind, (), [a, b, c]) ==
            Play(kind, Play(kind, Play(kind, World([], Core(map[], (), 0, false), Down), a), b), c)
  {
    PlayOneMore(kind, (), [], a);
    assert [] + [a] == [a];
    PlayOneMore(kind, (), [a], b);
    PlayOneMore(kind, (), [a, b], c);
    assert [a] + [b] == [a, b] && [a, b] + [c] == [a, b, c];
  }
}
