/** The container watcher over whole runs: its cache and inverted table against the pod groups
    in the store. */
module ContainerIndex {
  import opened Text
  import opened Paths
  import opened Store
  import opened Cacher
  import opened Watcher
  import opened Replica
  import opened Joint
  import opened Container

  type Parse = string -> Option<P.PodGroup>

  /** The entries of the pod group that contents holds at s, if it is one. */
  function PlacedIn(parse: Parse, contents: Contents, s: string): Placement
  {
    if s in contents && parse(contents[s]).Some? then Placed(parse(contents[s]).value) else map[]
  }

  // ----- soundness: nothing in the cache without a live owner -----

  /** The entry at k belongs to the pod group the table names, which places k and describes it
      exactly so; a nil entry has no owner. */
  ghost predicate Owned(parse: Parse, core: Core<Table, Info>, contents: Contents, k: string)
  {
    k in core.data ==>
      match core.data[k]
      case None => k !in core.table
      case Some(info) =>
        k in core.table && k in PlacedIn(parse, contents, core.table[k])
          && PlacedIn(parse, contents, core.table[k])[k] == info
  }

  ghost predicate Indexed(parse: Parse, core: Core<Table, Info>, contents: Contents)
  {
    forall k :: Owned(parse, core, contents, k)
  }

  lemma {:induction false} OkMeansParsed(parse: Parse, table: Table, pairs: seq<KVPair>)
    ensures ConvertAll(parse, table, pairs).ok <==> forall i :: 0 <= i < |pairs| ==> parse(pairs[i].value).Some?
    decreases |pairs|
  {
    if pairs != [] {
      OkMeansParsed(parse, table, pairs[..|pairs| - 1]);
    }
  }

  lemma {:induction false} ConvertSingle(parse: Parse, table: Table, pair: KVPair)
    ensures ConvertAll(parse, table, [pair]) ==
            if parse(pair.value).None? then Batch(false, map[], table)
            else ConvertOne(Batch(true, map[], table), pair.key, Placed(parse(pair.value).value))
  {
    assert [pair][..0] == [];
  }

  /** A refresh indexes the snapshot, whatever the table held before. */
  lemma {:induction false} RefreshIndexes(
      root: string, parse: Parse, history: seq<Change>, snap: nat, before: Core<Table, Info>, tree: Tree)
    requires Read(ContainerKind(root, parse), history, snap, before, tree)
    ensures Indexed(parse, Base(ContainerKind(root, parse), before, tree), Below(root, StoreAt(history, snap)))
    ensures SnapshotOk(root, Parses(parse), history, snap)
  {
    var store := StoreAt(history, snap);
    var pairs := if tree.Pairs? then tree.pairs else [];
    OkMeansParsed(parse, before.table, pairs);
    forall k
      ensures Owned(parse, Base(ContainerKind(root, parse), before, tree), Below(root, store), k)
    {
      BatchIsExact(parse, before.table, pairs, k);
      LastPlacerFound(parse, pairs, k);
    }
  }

  /** What a visible change does to the cache and the table at one key. */
  ghost predicate After(parse: Parse, core: Core<Table, Info>, core': Core<Table, Info>, c: Change, k: string)
  {
    if c.Writes() then
      if parse(c.value).None? then SameAt(core, core', k)
      else if k in Placed(parse(c.value).value) then Holds(core', c.key, k, Placed(parse(c.value).value)[k])
      else if k in core.table && core.table[k] == c.key then k !in core'.data && k !in core'.table
      else SameAt(core, core', k)
    else
      if Reaped(core, c.key, k) then k !in core'.data && SameOwner(core, core', k)
      else SameAt(core, core', k)
  }

  predicate SameOwner(core: Core<Table, Info>, core': Core<Table, Info>, k: string)
  {
    (k in core'.table <==> k in core.table) && (k in core.table ==> core'.table[k] == core.table[k])
  }

  predicate SameAt(core: Core<Table, Info>, core': Core<Table, Info>, k: string)
  {
    SameOwner(core, core', k) &&
    (k in core'.data <==> k in core.data) && (k in core.data ==> core'.data[k] == core.data[k])
  }

  /** The cache and the table hold k for the pod group s. */
  predicate Holds(core: Core<Table, Info>, s: string, k: string, info: Info)
  {
    k in core.data && core.data[k] == Some(info) && k in core.table && core.table[k] == s
  }

  /** A removal of path reaches k through a cached key that k extends. */
  ghost predicate Reaped(core: Core<Table, Info>, path: string, k: string)
  {
    exists x :: x in core.data && x <= k && path <= Invert(core.table, x)
  }

  lemma HandleAt(root: string, parse: Parse, core: Core<Table, Info>, c: Change, n: nat, k: string)
    requires Visible(root, c)
    ensures After(parse, core, Handle(ContainerKind(root, parse), core, WatchEvent(c, n)).core, c, k)
  {
    var kind := ContainerKind(root, parse);
    var core' := Handle(kind, core, WatchEvent(c, n)).core;
    if c.Writes() {
      ConvertSingle(parse, core.table, KVPair(c.key, c.value, n));
    } else {
      var hit := Hit(kind, core, c.key);
      assert Reaped(core, c.key, k) <==> exists x :: x in hit && x <= k by {
        if Reaped(core, c.key, k) {
          var x :| x in core.data && x <= k && c.key <= Invert(core.table, x);
          assert x in hit;
        }
      }
    }
  }

  lemma OwnedAfter(
      root: string, parse: Parse, core: Core<Table, Info>, core': Core<Table, Info>, mirror: Contents, c: Change,
      k: string)
    requires Visible(root, c) && Owned(parse, core, mirror, k) && After(parse, core, core', c, k)
    ensures Owned(parse, core', MirrorStep(root, Parses(parse), mirror, c), k)
  {
    if c.Removes() && k in core'.data && core.data[k].Some? {
      assert k <= k && !(c.key <= Invert(core.table, k));
    }
  }

  /** The same as a relation of watcher and mirror. */
  ghost function IndexedBy(parse: Parse): (Core<Table, Info>, Contents) -> bool
  {
    (core, mirror) => Indexed(parse, core, mirror)
  }

  lemma IndexedAfter(root: string, parse: Parse, core: Core<Table, Info>, mirror: Contents, c: Change, n: nat)
    requires Visible(root, c) && IndexedBy(parse)(core, mirror)
    ensures IndexedBy(parse)(Handle(ContainerKind(root, parse), core, WatchEvent(c, n)).core,
            MirrorStep(root, Parses(parse), mirror, c))
  {
    var core' := Handle(ContainerKind(root, parse), core, WatchEvent(c, n)).core;
    forall k
      ensures Owned(parse, core', MirrorStep(root, Parses(parse), mirror, c), k)
    {
      assert Owned(parse, core, mirror, k);
      HandleAt(root, parse, core, c, n, k);
      OwnedAfter(root, parse, core, core', mirror, c, k);
    }
  }

  /** In every run, at every position of a watch, the cache is indexed by the mirror: by what
      the same replay makes of the snapshot's pod groups. */
  lemma {:induction false} EveryRunIndexesMirror(root: string, parse: Parse, moves: seq<Move>)
    ensures var w := PlayAll(ContainerKind(root, parse), map[], moves);
      w.phase.Up? ==>
        && Indexed(parse, w.core, Mirror(root, Parses(parse), w.history, w.phase.start, w.phase.snap, w.phase.cursor))
        && SnapshotOk(root, Parses(parse), w.history, w.phase.snap)
  {
    var kind := ContainerKind(root, parse);
    var w := PlayAll(kind, map[], moves);
    EveryRunIsTracked(kind, map[], moves);
    if w.phase.Up? {
      var Up(start, snap, cursor, before, tree) := w.phase;
      RefreshIndexes(root, parse, w.history, snap, before, tree);
      var related := IndexedBy(parse);
      forall core, mirror, i | start <= i < cursor && Visible(root, w.history[i]) && related(core, mirror)
        ensures related(Handle(kind, core, WatchEvent(w.history[i], i + 1)).core,
                MirrorStep(root, Parses(parse), mirror, w.history[i]))
      {
        IndexedAfter(root, parse, core, mirror, w.history[i], i + 1);
      }
      FollowSimulates(kind, Parses(parse), related, Base(kind, before, tree), w.history, start, snap, cursor);
    }
  }

  /** The entries of the pod group below root that the store holds at s after m changes. */
  function PlacedAt(root: string, parse: Parse, history: seq<Change>, m: nat, s: string): Placement
    requires m <= |history|
  {
    if Under(root, s) then PlacedIn(parse, StoreAt(history, m), s) else map[]
  }

  /** In every run, at every position of a watch, with no assumption about names: a container in
      the cache has an owner below root. The store's pod group of that name has the container
      under that key with exactly those details if and only if the last change since the watch
      began that concerned the owner was applied alike to store and cache; or there was none,
      and the store had the entry so when the watch began. */
  lemma {:induction false} EveryRunIsSound(root: string, parse: Parse, moves: seq<Move>, k: string)
    ensures var w := PlayAll(ContainerKind(root, parse), map[], moves);
      w.phase.Up? && k in w.core.data && w.core.data[k].Some? ==>
        && k in w.core.table && Under(root, w.core.table[k])
        && SoundExactly(root, parse, w, w.core.table[k], k, w.core.data[k].value)
  {
    var w := PlayAll(ContainerKind(root, parse), map[], moves);
    EveryRunIndexesMirror(root, parse, moves);
    if w.phase.Up? && k in w.core.data && w.core.data[k].Some? {
      var Up(start, snap, cursor, before, tree) := w.phase;
      var mirror := Mirror(root, Parses(parse), w.history, start, snap, cursor);
      assert Owned(parse, w.core, mirror, k);
      var s := w.core.table[k];
      MirrorKeysBelow(root, Parses(parse), w.history, start, snap, cursor);
      assert s in StoreAt(w.history, snap) ==> s in Below(root, StoreAt(w.history, snap));
      MirrorByVerdict(root, Parses(parse), w.history, start, snap, cursor, s);
      PlacesAsPlaced(root, parse, w.history, start, s, k, w.core.data[k].value);
      PlacesAsPlaced(root, parse, w.history, cursor, s, k, w.core.data[k].value);
    }
  }

  /** After m changes the store holds a pod group at s, below root, whose container with the key k
      is shown by info, field by field. */
  ghost predicate PlacesAt(
      root: string, parse: Parse, history: seq<Change>, m: nat, s: string, k: string, info: Info)
    requires m <= |history|
  {
    var store := StoreAt(history, m);
    Under(root, s) && s in store && parse(store[s]).Some? && Describes(parse(store[s]).value, k, info)
  }

  lemma PlacesAsPlaced(root: string, parse: Parse, history: seq<Change>, m: nat, s: string, k: string, info: Info)
    requires m <= |history|
    ensures PlacesAt(root, parse, history, m, s, k, info) <==>
            k in PlacedAt(root, parse, history, m, s) && PlacedAt(root, parse, history, m, s)[k] == info
  {
    var store := StoreAt(history, m);
    if Under(root, s) && s in store && parse(store[s]).Some? {
      PlacedAreTheContainers(parse(store[s]).value, k);
    }
  }

  ghost predicate SoundExactly(root: string, parse: Parse, w: World<Table, Info>, s: string, k: string, info: Info)
    requires Bounded(w) && w.phase.Up?
  {
    PlacesAt(root, parse, w.history, w.phase.cursor, s, k, info) <==>
    match Judge(root, Parses(parse), w.history, w.phase.start, w.phase.cursor, s)
    case Untouched => PlacesAt(root, parse, w.history, w.phase.start, s, k, info)
    case Faithful => true
    case Garbled => false
    case Evicted => false
  }

  /** The watch resumed before its snapshot and has caught up with it, or it began after the
      snapshot and missed no change it would have been told of. */
  ghost predicate CaughtUp(root: string, w: World<Table, Info>)
    requires Bounded(w) && w.phase.Up?
  {
    MissedNothing(root, w.history, w.phase.start, w.phase.snap, w.phase.cursor)
  }

  /** So a watch that has caught up caches no container without a live owner, under one of the
      container's two keys and with exactly its details; the only exception is an owner that
      has since been overwritten with a value that cannot be parsed. */
  lemma {:induction false} EveryCaughtUpWatchIsSound(root: string, parse: Parse, moves: seq<Move>, k: string)
    ensures var w := PlayAll(ContainerKind(root, parse), map[], moves);
      w.phase.Up? && CaughtUp(root, w) && k in w.core.data && w.core.data[k].Some? ==>
        var store := StoreAt(w.history, w.phase.cursor);
        && k in w.core.table
        && var s := w.core.table[k];
           Under(root, s) && s in store &&
           match parse(store[s])
           case Some(pg) => Describes(pg, k, w.core.data[k].value)
           case None => Judge(root, Parses(parse), w.history, w.phase.start, w.phase.cursor, s).Garbled?
  {
    var w := PlayAll(ContainerKind(root, parse), map[], moves);
    EveryRunIndexesMirror(root, parse, moves);
    if w.phase.Up? && CaughtUp(root, w) && k in w.core.data && w.core.data[k].Some? {
      var Up(start, snap, cursor, before, tree) := w.phase;
      var mirror := Mirror(root, Parses(parse), w.history, start, snap, cursor);
      assert Owned(parse, w.core, mirror, k);
      var s := w.core.table[k];
      MirrorKeysBelow(root, Parses(parse), w.history, start, snap, cursor);
      CaughtUpByVerdict(root, Parses(parse), w.history, start, snap, cursor, s);
      PlacedAreTheContainers(parse(mirror[s]).value, k);
    }
  }

  // ----- completeness: every live container is in the cache -----

  /** No container key belongs to two pod groups of the store at once. */
  ghost predicate UniqueAt(root: string, parse: Parse, history: seq<Change>, m: nat)
    requires m <= |history|
  {
    forall s, s', k :: k in PlacedAt(root, parse, history, m, s) && k in PlacedAt(root, parse, history, m, s') ==>
      s == s'
  }

  /** k is a container key of some value ever stored below root. */
  ghost predicate KeyOf(root: string, parse: Parse, history: seq<Change>, k: string)
  {
    exists i :: 0 <= i < |history| && KeyOfChange(root, parse, history[i], k)
  }

  predicate KeyOfChange(root: string, parse: Parse, c: Change, k: string)
  {
    c.Writes() && Under(root, c.key) && parse(c.value).Some? && k in Placed(parse(c.value).value)
  }

  /** No container key is a proper string prefix of another. */
  ghost predicate PrefixFree(root: string, parse: Parse, history: seq<Change>)
  {
    forall k, k' :: KeyOf(root, parse, history, k) && KeyOf(root, parse, history, k') && k <= k' ==> k == k'
  }

  lemma {:induction false} PlacedAtIsKnown(
      root: string, parse: Parse, history: seq<Change>, m: nat, s: string, k: string)
    requires m <= |history| && k in PlacedAt(root, parse, history, m, s)
    ensures KeyOf(root, parse, history, k)
  {
    if m > 0 {
      if history[m - 1].Writes() && history[m - 1].key == s {
        assert KeyOfChange(root, parse, history[m - 1], k);
      } else {
        PlacedAtIsKnown(root, parse, history, m - 1, s, k);
      }
    }
  }

  /** The store's pod group s placed k alike at the snapshot and when the watch began. */
  ghost predicate Kept(
      root: string, parse: Parse, history: seq<Change>, start: nat, snap: nat, s: string, k: string)
    requires start <= |history| && snap <= |history|
  {
    var early, late := PlacedAt(root, parse, history, snap, s), PlacedAt(root, parse, history, start, s);
    k in early && k in late && early[k] == late[k]
  }

  /** At position m of a watch from start to n the entry of the pod group s at k is as it will
      count: s was changed since the watch began, faithfully, or no change up to n concerns s
      and the snapshot had the entry already. */
  ghost predicate Decided(
      root: string, parse: Parse, history: seq<Change>, start: nat, snap: nat, m: nat, n: nat, s: string, k: string)
    requires start <= m <= n <= |history| && snap <= |history|
  {
    || Judge(root, Parses(parse), history, start, m, s).Faithful?
    || (Judge(root, Parses(parse), history, start, n, s).Untouched? && Kept(root, parse, history, start, snap, s, k))
  }

  ghost predicate Complete(
      root: string, parse: Parse, history: seq<Change>, start: nat, snap: nat, m: nat, n: nat, core: Core<Table,
      Info>)
    requires start <= m <= n <= |history| && snap <= |history|
  {
    && (forall s, k ::
          Decided(root, parse, history, start, snap, m, n, s, k) && k in PlacedAt(root, parse, history, m, s) ==>
            Holds(core, s, k, PlacedAt(root, parse, history, m, s)[k]))
    && (forall k :: TableOk(root, parse, history, core, k))
  }

  /** A pod group that survives a change unconcerned had the same entries before. */
  lemma PlacedBefore(root: string, parse: Parse, history: seq<Change>, m: nat, s: string)
    requires m < |history| && PlacedAt(root, parse, history, m + 1, s) != map[]
    requires !(Visible(root, history[m]) && history[m].Writes() && history[m].key == s)
    ensures PlacedAt(root, parse, history, m, s) == PlacedAt(root, parse, history, m + 1, s)
    ensures history[m].Removes() ==> !Covers(history[m].key, s)
  {
    if !Visible(root, history[m]) {
      InvisibleIsHarmless(root, StoreAt(history, m), history[m], s);
    }
  }

  /** A decided pod group was decided before a change that leaves it alone, and a removal
      whose path is a string prefix of it concerns it. */
  lemma DecidedBefore(
      root: string, parse: Parse, history: seq<Change>, start: nat, snap: nat, m: nat, n: nat, s: string, k: string)
    requires start <= m < n <= |history| && snap <= |history|
             && Decided(root, parse, history, start, snap, m + 1, n, s, k)
    requires PlacedAt(root, parse, history, m + 1, s) != map[]
    requires !(Visible(root, history[m]) && history[m].Writes() && history[m].key == s)
    ensures Decided(root, parse, history, start, snap, m, n, s, k)
    ensures Visible(root, history[m]) && history[m].Removes() ==> !(history[m].key <= s)
  {
    PlacedBefore(root, parse, history, m, s);
    if Judge(root, Parses(parse), history, start, n, s).Untouched? {
      UntouchedBefore(root, Parses(parse), history, start, m + 1, n, s);
    }
    VerdictBefore(root, Parses(parse), history, start, m, s);
  }

  /** A verdict of no concern or of a faithful change, after a change that is no write of the key
      and does not remove it, was the verdict before; a removal by a mere prefix is excluded. */
  lemma VerdictBefore(root: string, ok: string -> bool, history: seq<Change>, start: nat, m: nat, s: string)
    requires start <= m < |history|
    requires !(Visible(root, history[m]) && history[m].Writes() && history[m].key == s)
    requires history[m].Removes() ==> !Covers(history[m].key, s)
    requires Judge(root, ok, history, start, m + 1, s) in {Untouched, Faithful}
    ensures Judge(root, ok, history, start, m, s) == Judge(root, ok, history, start, m + 1, s)
    ensures Visible(root, history[m]) && history[m].Removes() ==> !(history[m].key <= s)
  {
  }

  lemma WriteHolds(root: string, parse: Parse, history: seq<Change>, start: nat, snap: nat, m: nat, n: nat,
                   core: Core<Table, Info>, core': Core<Table, Info>, s: string, k: string)
    requires start <= m < n <= |history| && snap <= |history|
             && Complete(root, parse, history, start, snap, m, n, core)
    requires UniqueAt(root, parse, history, m + 1) && Visible(root, history[m]) && history[m].Writes()
    requires Decided(root, parse, history, start, snap, m + 1, n, s, k)
             && k in PlacedAt(root, parse, history, m + 1, s)
    requires After(parse, core, core', history[m], k)
    ensures Holds(core', s, k, PlacedAt(root, parse, history, m + 1, s)[k])
  {
    var c := history[m];
    if c.key != s {
      DecidedBefore(root, parse, history, start, snap, m, n, s, k);
      PlacedBefore(root, parse, history, m, s);
      assert Holds(core, s, k, PlacedAt(root, parse, history, m, s)[k]);
      assert k !in PlacedAt(root, parse, history, m + 1, c.key);
    }
  }

  /** With prefix-free container keys a removal reaches no container of a spared pod group. */
  lemma NotReaped(
      root: string, parse: Parse, history: seq<Change>, core: Core<Table, Info>, path: string, s: string, k: string)
    requires PrefixFree(root, parse, history) && KeyOf(root, parse, history, k)
    requires forall x :: TableOk(root, parse, history, core, x)
    requires k in core.table && core.table[k] == s && path != "" && !(path <= s)
    ensures !Reaped(core, path, k)
  {
    forall x | x in core.data && x <= k
      ensures !(path <= Invert(core.table, x))
    {
      assert TableOk(root, parse, history, core, x);
      if x in core.table {
        assert x == k;
      }
    }
  }

  lemma RemoveHolds(root: string, parse: Parse, history: seq<Change>, start: nat, snap: nat, m: nat, n: nat,
                    core: Core<Table, Info>, core': Core<Table, Info>, s: string, k: string)
    requires start <= m < n <= |history| && snap <= |history|
             && Complete(root, parse, history, start, snap, m, n, core)
    requires PrefixFree(root, parse, history) && Visible(root, history[m]) && history[m].Removes()
             && history[m].key != ""
    requires Decided(root, parse, history, start, snap, m + 1, n, s, k)
             && k in PlacedAt(root, parse, history, m + 1, s)
    requires After(parse, core, core', history[m], k)
    ensures Holds(core', s, k, PlacedAt(root, parse, history, m + 1, s)[k])
  {
    DecidedBefore(root, parse, history, start, snap, m, n, s, k);
    PlacedBefore(root, parse, history, m, s);
    assert Holds(core, s, k, PlacedAt(root, parse, history, m, s)[k]);
    PlacedAtIsKnown(root, parse, history, m, s, k);
    NotReaped(root, parse, history, core, history[m].key, s, k);
  }

  /** The keys of the table are known, and nil entries are unowned. */
  ghost predicate TableOk(root: string, parse: Parse, history: seq<Change>, core: Core<Table, Info>, k: string)
  {
    (k in core.table ==> KeyOf(root, parse, history, k))
      && (k in core.data && core.data[k].None? ==> k !in core.table)
  }

  lemma TableOkAfter(
      root: string, parse: Parse, history: seq<Change>, m: nat, core: Core<Table, Info>, core': Core<Table, Info>,
      k: string)
    requires m < |history| && Visible(root, history[m])
    requires TableOk(root, parse, history, core, k) && After(parse, core, core', history[m], k)
    ensures TableOk(root, parse, history, core', k)
  {
    if history[m].Writes() && parse(history[m].value).Some? && k in Placed(parse(history[m].value).value) {
      assert KeyOfChange(root, parse, history[m], k);
    }
  }

  lemma HoldsAfter(root: string, parse: Parse, history: seq<Change>, start: nat, snap: nat, m: nat, n: nat,
                   core: Core<Table, Info>, core': Core<Table, Info>, s: string, k: string)
    requires start <= m < n <= |history| && snap <= |history|
             && Complete(root, parse, history, start, snap, m, n, core)
    requires UniqueAt(root, parse, history, m + 1) && PrefixFree(root, parse, history) && Legal(root, history[m])
    requires if Visible(root, history[m]) then After(parse, core, core', history[m], k) else core' == core
    requires Decided(root, parse, history, start, snap, m + 1, n, s, k)
             && k in PlacedAt(root, parse, history, m + 1, s)
    ensures Holds(core', s, k, PlacedAt(root, parse, history, m + 1, s)[k])
  {
    if !Visible(root, history[m]) {
      DecidedBefore(root, parse, history, start, snap, m, n, s, k);
      PlacedBefore(root, parse, history, m, s);
    } else if history[m].Writes() {
      WriteHolds(root, parse, history, start, snap, m, n, core, core', s, k);
    } else {
      RemoveHolds(root, parse, history, start, snap, m, n, core, core', s, k);
    }
  }

  lemma AdvanceComplete(root: string, parse: Parse, history: seq<Change>, start: nat, snap: nat, m: nat, n: nat,
                        core: Core<Table, Info>, core': Core<Table, Info>)
    requires start <= m < n <= |history| && snap <= |history|
             && Complete(root, parse, history, start, snap, m, n, core)
    requires UniqueAt(root, parse, history, m + 1) && PrefixFree(root, parse, history) && Legal(root, history[m])
    requires if Visible(root, history[m]) then forall k :: After(parse, core, core', history[m], k) else core' == core
    ensures Complete(root, parse, history, start, snap, m + 1, n, core')
  {
    var next := m + 1;
    forall s, k | Decided(root, parse, history, start, snap, next, n, s, k)
      && k in PlacedAt(root, parse, history, next, s)
      ensures Holds(core', s, k, PlacedAt(root, parse, history, next, s)[k])
    {
      HoldsAfter(root, parse, history, start, snap, m, n, core, core', s, k);
    }
    forall k
      ensures TableOk(root, parse, history, core', k)
    {
      assert TableOk(root, parse, history, core, k);
      if Visible(root, history[m]) {
        TableOkAfter(root, parse, history, m, core, core', k);
      }
    }
  }

  /** A refresh holds every container of the snapshot. */
  lemma RefreshHolds(
      root: string, parse: Parse, history: seq<Change>, snap: nat, before: Core<Table, Info>, tree: Tree, s: string,
      k: string)
    requires Read(ContainerKind(root, parse), history, snap, before, tree) && UniqueAt(root, parse, history, snap)
    requires k in PlacedAt(root, parse, history, snap, s)
    ensures Holds(Base(ContainerKind(root, parse), before, tree), s, k, PlacedAt(root, parse, history, snap, s)[k])
  {
    var store := StoreAt(history, snap);
    var pairs := if tree.Pairs? then tree.pairs else [];
    OkMeansParsed(parse, before.table, pairs);
    BatchIsExact(parse, before.table, pairs, k);
    LastPlacerFound(parse, pairs, k);
    assert s in Below(root, store);
    assert tree.Pairs?;
    var i :| 0 <= i < |pairs| && pairs[i].key == s;
    var kv := LastPlacer(parse, pairs, k).value;
    assert k in PlacedAt(root, parse, history, snap, kv.key);
  }

  lemma {:induction false} BatchIsKnown(parse: Parse, table: Table, pairs: seq<KVPair>, k: string)
    requires k in ConvertAll(parse, table, pairs).table || k in ConvertAll(parse, table, pairs).ret
    ensures k in table ||
            exists i :: 0 <= i < |pairs| && parse(pairs[i].value).Some? && k in Placed(parse(pairs[i].value).value)
    decreases |pairs|
  {
    if pairs != [] {
      var init, last := pairs[..|pairs| - 1], pairs[|pairs| - 1];
      if k in ConvertAll(parse, table, init).table || k in ConvertAll(parse, table, init).ret {
        BatchIsKnown(parse, table, init, k);
        if k !in table {
          var i :| 0 <= i < |init| && parse(init[i].value).Some? && k in Placed(parse(init[i].value).value);
          assert pairs[i] == init[i];
        }
      } else {
        assert pairs[|pairs| - 1] == last;
      }
    }
  }

  /** Every key in the cache or the table is a container key of some value ever stored. */
  ghost predicate Known(root: string, parse: Parse, history: seq<Change>, core: Core<Table, Info>)
  {
    forall k :: k in core.data || k in core.table ==> KeyOf(root, parse, history, k)
  }

  lemma {:induction false} RefreshKnown(
      root: string, parse: Parse, history: seq<Change>, snap: nat, before: Core<Table, Info>, tree: Tree)
    requires snap <= |history| && Answers(tree, StoreAt(history, snap), root)
    requires Known(root, parse, history, before)
    ensures Known(root, parse, history, Refreshed(ContainerKind(root, parse), before, tree).0)
  {
    var store := StoreAt(history, snap);
    if !tree.Failed? {
      var pairs := if tree.Pairs? then tree.pairs else [];
      var b := ConvertAll(parse, before.table, pairs);
      forall k | k in b.table || k in b.ret
        ensures KeyOf(root, parse, history, k)
      {
        BatchIsKnown(parse, before.table, pairs, k);
        if k !in before.table {
          PlacedBySnapshotIsKnown(root, parse, history, snap, pairs, k);
        }
      }
    }
  }

  lemma {:induction false} PlacedBySnapshotIsKnown(
      root: string, parse: Parse, history: seq<Change>, snap: nat, pairs: seq<KVPair>, k: string)
    requires snap <= |history| && (pairs != [] ==> Answers(Pairs(pairs), StoreAt(history, snap), root))
    requires exists i :: 0 <= i < |pairs| && parse(pairs[i].value).Some? && k in Placed(parse(pairs[i].value).value)
    ensures KeyOf(root, parse, history, k)
  {
    var i :| 0 <= i < |pairs| && parse(pairs[i].value).Some? && k in Placed(parse(pairs[i].value).value);
    PlacedAtIsKnown(root, parse, history, snap, pairs[i].key, k);
  }

  ghost predicate AllKnown(root: string, parse: Parse, w: World<Table, Info>)
  {
    && Known(root, parse, w.history, w.core)
    && (!w.phase.Down? ==> Known(root, parse, w.history, w.phase.before))
  }

  lemma KnownGrows(root: string, parse: Parse, history: seq<Change>, c: Change, core: Core<Table, Info>)
    requires Known(root, parse, history, core)
    ensures Known(root, parse, history + [c], core)
  {
    forall k | k in core.data || k in core.table
      ensures KeyOf(root, parse, history + [c], k)
    {
      var i :| 0 <= i < |history| && KeyOfChange(root, parse, history[i], k);
      assert (history + [c])[i] == history[i];
    }
  }

  lemma HandleKnown(root: string, parse: Parse, history: seq<Change>, c: Change, n: nat, core: Core<Table, Info>)
    requires c in history && Visible(root, c) && Known(root, parse, history, core)
    ensures Known(root, parse, history, Handle(ContainerKind(root, parse), core, WatchEvent(c, n)).core)
  {
    var core' := Handle(ContainerKind(root, parse), core, WatchEvent(c, n)).core;
    forall k | k in core'.data || k in core'.table
      ensures KeyOf(root, parse, history, k)
    {
      HandleAt(root, parse, core, c, n, k);
      if k !in core.data && k !in core.table {
        assert KeyOfChange(root, parse, c, k);
      }
    }
  }

  lemma {:induction false} EveryRunKnows(root: string, parse: Parse, moves: seq<Move>)
    ensures AllKnown(root, parse, PlayAll(ContainerKind(root, parse), map[], moves))
    decreases |moves|
  {
    if moves != [] {
      var kind := ContainerKind(root, parse);
      var init, move := moves[..|moves| - 1], moves[|moves| - 1];
      var w := PlayAll(kind, map[], init);
      EveryRunKnows(root, parse, init);
      match move
      case StoreChanges(c) =>
        KnownGrows(root, parse, w.history, c, w.core);
        if !w.phase.Down? {
          KnownGrows(root, parse, w.history, c, w.phase.before);
        }
      case ReadTree(tree) =>
        if w.phase.Down? && Answers(tree, StoreAt(w.history, |w.history|), root) {
          RefreshKnown(root, parse, w.history, |w.history|, w.core, tree);
        }
      case Deliver =>
        if w.phase.Up? && w.phase.cursor < |w.history| && Visible(root, w.history[w.phase.cursor]) {
          HandleKnown(root, parse, w.history, w.history[w.phase.cursor], w.phase.cursor + 1, w.core);
        }
      case _ =>
    }
  }

  lemma BaseComplete(
      root: string, parse: Parse, history: seq<Change>, start: nat, snap: nat, n: nat, before: Core<Table, Info>,
      tree: Tree)
    requires start <= n <= |history|
    requires Read(ContainerKind(root, parse), history, snap, before, tree) && UniqueAt(root, parse, history, snap)
    requires Known(root, parse, history, before)
    ensures Complete(root, parse, history, start, snap, start, n, Base(ContainerKind(root, parse), before, tree))
  {
    var base := Base(ContainerKind(root, parse), before, tree);
    RefreshTableOk(root, parse, history, snap, before, tree);
    forall s, k | Decided(root, parse, history, start, snap, start, n, s, k)
      ensures Holds(base, s, k, PlacedAt(root, parse, history, start, s)[k])
    {
      RefreshHolds(root, parse, history, snap, before, tree, s, k);
    }
  }

  lemma RefreshTableOk(
      root: string, parse: Parse, history: seq<Change>, snap: nat, before: Core<Table, Info>, tree: Tree)
    requires Read(ContainerKind(root, parse), history, snap, before, tree) && Known(root, parse, history, before)
    ensures forall k :: TableOk(root, parse, history, Base(ContainerKind(root, parse), before, tree), k)
  {
    RefreshKnown(root, parse, history, snap, before, tree);
    NilMeansUnowned(parse, before.table, if tree.Pairs? then tree.pairs else []);
  }

  lemma {:induction false} UntouchedStays(
      root: string, parse: Parse, history: seq<Change>, start: nat, m: nat, s: string)
    requires start <= m <= |history| && Judge(root, Parses(parse), history, start, m, s).Untouched?
    ensures PlacedAt(root, parse, history, start, s) == PlacedAt(root, parse, history, m, s)
    decreases m
  {
    if m > start {
      UntouchedStays(root, parse, history, start, m - 1, s);
      if Under(root, s) && !Visible(root, history[m - 1]) {
        InvisibleIsHarmless(root, StoreAt(history, m - 1), history[m - 1], s);
      } else if history[m - 1].Removes() && Covers(history[m - 1].key, s) {
        CoversIsPrefix(history[m - 1].key, s);
      }
    }
  }

  /** Container keys are prefix-free, and owned by one pod group at a time: in the snapshot and
      at every position the watch has passed. */
  ghost predicate WellNamed(root: string, parse: Parse, w: World<Table, Info>)
    requires Bounded(w) && w.phase.Up?
  {
    && PrefixFree(root, parse, w.history)
    && UniqueAt(root, parse, w.history, w.phase.snap)
    && forall m :: w.phase.start <= m <= w.phase.cursor ==> UniqueAt(root, parse, w.history, m)
  }

  /** In every run, at every position of a watch, and provided container keys are well named: a
      container of a live pod group is in the cache, owned by that pod group and exactly
      described, if and only if the last change since the watch began that concerned the pod
      group was applied alike to store and cache; or there was none, and the snapshot had the
      entry as the store had it when the watch began. */
  lemma {:induction false} EveryRunIsComplete(root: string, parse: Parse, moves: seq<Move>, s: string, k: string)
    ensures var w := PlayAll(ContainerKind(root, parse), map[], moves);
      w.phase.Up? && WellNamed(root, parse, w) && k in PlacedAt(root, parse, w.history, w.phase.cursor, s) ==>
        (Holds(w.core, s, k, PlacedAt(root, parse, w.history, w.phase.cursor, s)[k]) <==>
         match Judge(root, Parses(parse), w.history, w.phase.start, w.phase.cursor, s)
         case Untouched => Kept(root, parse, w.history, w.phase.start, w.phase.snap, s, k)
         case Faithful => true
         case Garbled => false
         case Evicted => false)
  {
    var w := PlayAll(ContainerKind(root, parse), map[], moves);
    if w.phase.Up? && WellNamed(root, parse, w) && k in PlacedAt(root, parse, w.history, w.phase.cursor, s) {
      EveryRunFollowsCompletely(root, parse, moves);
      EveryRunIndexesMirror(root, parse, moves);
      HeldIsDecided(root, parse, w, s, k);
    }
  }

  /** What is cached of a live pod group comes from the snapshot or from a faithful change. */
  lemma {:induction false} HeldIsDecided(root: string, parse: Parse, w: World<Table, Info>, s: string, k: string)
    requires Bounded(w) && w.phase.Up? && k in PlacedAt(root, parse, w.history, w.phase.cursor, s)
    requires SnapshotOk(root, Parses(parse), w.history, w.phase.snap)
    requires Indexed(parse, w.core,
             Mirror(root, Parses(parse), w.history, w.phase.start, w.phase.snap, w.phase.cursor))
    ensures !Judge(root, Parses(parse), w.history, w.phase.start, w.phase.cursor, s).Garbled?
    ensures Holds(w.core, s, k, PlacedAt(root, parse, w.history, w.phase.cursor, s)[k]) ==>
              Decided(root, parse, w.history, w.phase.start, w.phase.snap, w.phase.cursor, w.phase.cursor, s, k)
  {
    var Up(start, snap, cursor, before, tree) := w.phase;
    assert Owned(parse, w.core, Mirror(root, Parses(parse), w.history, start, snap, cursor), k);
    assert s in StoreAt(w.history, snap) ==> s in Below(root, StoreAt(w.history, snap));
    MirrorByVerdict(root, Parses(parse), w.history, start, snap, cursor, s);
    if Judge(root, Parses(parse), w.history, start, cursor, s).Untouched? {
      UntouchedStays(root, parse, w.history, start, cursor, s);
    }
  }

  /** So a watch that resumed, or that missed no visible change, and has caught up with its
      snapshot holds every container of a pod group that was not evicted last by the removal of
      a path that merely starts its name. */
  lemma {:induction false} EveryCaughtUpWatchIsComplete(
      root: string, parse: Parse, moves: seq<Move>, s: string, k: string)
    ensures var w := PlayAll(ContainerKind(root, parse), map[], moves);
      w.phase.Up? && CaughtUp(root, w) && WellNamed(root, parse, w)
      && k in PlacedAt(root, parse, w.history, w.phase.cursor, s) ==>
        (Holds(w.core, s, k, PlacedAt(root, parse, w.history, w.phase.cursor, s)[k]) <==>
         !Judge(root, Parses(parse), w.history, w.phase.start, w.phase.cursor, s).Evicted?)
  {
    var w := PlayAll(ContainerKind(root, parse), map[], moves);
    if w.phase.Up? && CaughtUp(root, w) && WellNamed(root, parse, w)
       && k in PlacedAt(root, parse, w.history, w.phase.cursor, s) {
      EveryRunIsComplete(root, parse, moves, s, k);
      EveryRunIndexesMirror(root, parse, moves);
      HeldIsDecided(root, parse, w, s, k);
      if Judge(root, Parses(parse), w.history, w.phase.start, w.phase.cursor, s).Untouched? {
        UntouchedStays(root, parse, w.history, w.phase.start, w.phase.cursor, s);
        CaughtUpIsPlaced(root, parse, w, s);
      }
    }
  }

  lemma {:induction false} CaughtUpIsPlaced(root: string, parse: Parse, w: World<Table, Info>, s: string)
    requires Bounded(w) && w.phase.Up? && CaughtUp(root, w)
    requires Judge(root, Parses(parse), w.history, w.phase.start, w.phase.cursor, s).Untouched?
    ensures PlacedAt(root, parse, w.history, w.phase.snap, s) == PlacedAt(root, parse, w.history, w.phase.start, s)
  {
    var Up(start, snap, cursor, before, tree) := w.phase;
    if snap <= start {
      NothingMissed(root, w.history, snap, start);
      if Under(root, s) {
        assert Agree(Below(root, StoreAt(w.history, snap)), Below(root, StoreAt(w.history, start)), s);
      }
    } else {
      UntouchedBefore(root, Parses(parse), w.history, start, snap, cursor, s);
      UntouchedStays(root, parse, w.history, start, snap, s);
    }
  }

  lemma {:induction false} EveryRunFollowsCompletely(root: string, parse: Parse, moves: seq<Move>)
    ensures var w := PlayAll(ContainerKind(root, parse), map[], moves);
      w.phase.Up? && WellNamed(root, parse, w) ==>
        Complete(root, parse, w.history, w.phase.start, w.phase.snap, w.phase.cursor, w.phase.cursor, w.core)
  {
    var kind := ContainerKind(root, parse);
    var w := PlayAll(kind, map[], moves);
    if w.phase.Up? && WellNamed(root, parse, w) {
      var Up(start, snap, cursor, before, tree) := w.phase;
      EveryRunIsTracked(kind, map[], moves);
      EveryRunKnows(root, parse, moves);
      BaseComplete(root, parse, w.history, start, snap, cursor, before, tree);
      FollowComplete(root, parse, w.history, start, snap, cursor, Base(kind, before, tree));
    }
  }

  lemma AdvanceAt(root: string, parse: Parse, history: seq<Change>, m: nat, core: Core<Table, Info>)
    requires m < |history|
    ensures var core' := Advance(ContainerKind(root, parse), core, history, m);
      if Visible(root, history[m]) then forall k :: After(parse, core, core', history[m], k) else core' == core
  {
    if Visible(root, history[m]) {
      forall k
        ensures After(parse, core, Advance(ContainerKind(root, parse), core, history, m), history[m], k)
      {
        HandleAt(root, parse, core, history[m], m + 1, k);
      }
    }
  }

  /** Completeness at a position, as a property of the watcher alone. */
  ghost function CompleteIn(
      root: string, parse: Parse, history: seq<Change>, start: nat, snap: nat, n: nat): (nat, Core<Table,
      Info>) -> bool
    requires n <= |history| && snap <= |history|
  {
    (m, core) => start <= m <= n && Complete(root, parse, history, start, snap, m, n, core)
  }

  lemma StepComplete(
      root: string, parse: Parse, history: seq<Change>, start: nat, snap: nat, m: nat, n: nat, core: Core<Table,
      Info>)
    requires start <= m < n <= |history| && snap <= |history|
             && CompleteIn(root, parse, history, start, snap, n)(m, core)
    requires UniqueAt(root, parse, history, m + 1) && PrefixFree(root, parse, history) && Legal(root, history[m])
    ensures CompleteIn(root, parse, history, start, snap, n)(m + 1,
            Advance(ContainerKind(root, parse), core, history, m))
  {
    AdvanceAt(root, parse, history, m, core);
    AdvanceComplete(root, parse, history, start, snap, m, n, core,
      Advance(ContainerKind(root, parse), core, history, m));
  }

  lemma {:induction false} FollowComplete(
      root: string, parse: Parse, history: seq<Change>, start: nat, snap: nat, n: nat, base: Core<Table, Info>)
    requires start <= n <= |history| && snap <= |history|
             && CompleteIn(root, parse, history, start, snap, n)(start, base)
    requires PrefixFree(root, parse, history) && forall i :: 0 <= i < |history| ==> Legal(root, history[i])
    requires forall m :: start <= m <= n ==> UniqueAt(root, parse, history, m)
    ensures CompleteIn(root, parse, history, start, snap, n)(n,
            Follow(ContainerKind(root, parse), base, history, start, n))
  {
    var kind := ContainerKind(root, parse);
    var property := CompleteIn(root, parse, history, start, snap, n);
    forall core, i | start <= i < n && property(i, core)
      ensures property(i + 1, Advance(kind, core, history, i))
    {
      StepComplete(root, parse, history, start, snap, i, n, core);
    }
    FollowKeeps(kind, property, base, history, start, n);
  }

  // ----- receivers -----

  /** With prefix-free keys every event's broadcast names every key it changed. */
  lemma EventIsAnnounced(
      root: string, parse: Parse, history: seq<Change>, kind: Kind<Table, Info>, core: Core<Table, Info>, e: Event)
    requires PrefixFree(root, parse, history) && Known(root, parse, history, core)
    ensures AgreeOutside(core.data, Handle(kind, core, e).core.data, Handle(kind, core, e).keys)
  {
    DeltaIsAnnounced(kind, core, e);
    forall x, k | x in Hit(kind, core, e.key) && k in core.data && x <= k
      ensures k in Hit(kind, core, e.key)
    {
      assert KeyOf(root, parse, history, x) && KeyOf(root, parse, history, k);
    }
  }

  lemma PrefixFreeBefore(root: string, parse: Parse, history: seq<Change>, longer: seq<Change>)
    requires history <= longer && PrefixFree(root, parse, longer)
    ensures PrefixFree(root, parse, history)
  {
    forall k | KeyOf(root, parse, history, k)
      ensures KeyOf(root, parse, longer, k)
    {
      var i :| 0 <= i < |history| && KeyOfChange(root, parse, history[i], k);
      assert longer[i] == history[i];
    }
  }

  /** In every run with prefix-free keys every event's broadcast names every key it changes. */
  lemma {:induction false} EveryRunAnnounces(root: string, parse: Parse, played: seq<Move>, move: Move)
    requires PrefixFree(root, parse, PlayAll(ContainerKind(root, parse), map[], played).history)
    ensures Announces(ContainerKind(root, parse), PlayAll(ContainerKind(root, parse), map[], played), move)
  {
    var kind := ContainerKind(root, parse);
    var w := PlayAll(kind, map[], played);
    EveryRunKnows(root, parse, played);
    KnownIsAnnounced(root, parse, kind, w, move);
  }

  lemma KnownIsAnnounced(
      root: string, parse: Parse, kind: Kind<Table, Info>, w: World<Table, Info>, move: Move)
    requires Bounded(w) && PrefixFree(root, parse, w.history) && Known(root, parse, w.history, w.core)
    ensures Announces(kind, w, move)
  {
    if Delivers(kind, w, move) {
      var e := WatchEvent(w.history[w.phase.cursor], w.phase.cursor + 1);
      EventIsAnnounced(root, parse, w.history, kind, w.core, e);
    }
  }

  /** Every joint run of the container watcher is in tune, whatever its keys; and with prefix-free
      keys its events are announced, so they pass over nobody. */
  lemma {:induction false} ReceiversStayCoherent(root: string, parse: Parse, moves: seq<JointMove<Info>>)
    ensures InTune(JointAll(ContainerKind(root, parse), map[], moves))
    ensures PrefixFree(root, parse, JointAll(ContainerKind(root, parse), map[], moves).world.history) ==>
              EventsAnnounced(ContainerKind(root, parse), map[], moves)
  {
    var kind := ContainerKind(root, parse);
    EveryJointRunIsInTune(kind, map[], moves);
    if PrefixFree(root, parse, JointAll(kind, map[], moves).world.history) {
      forall i | 0 <= i < |moves| && moves[i].ByWatcher?
        ensures Announces(kind, JointAll(kind, map[], moves[..i]).world, moves[i].move)
      {
        var played := JointIsARun(kind, map[], moves[..i]);
        HistoryGrows(kind, map[], moves, i);
        PrefixFreeBefore(root, parse, JointAll(kind, map[], moves[..i]).world.history,
          JointAll(kind, map[], moves).world.history);
        EveryRunAnnounces(root, parse, played, moves[i].move);
      }
    }
  }

  // ----- nil entries -----

  predicate NilAt(core: Core<Table, Info>, k: string)
  {
    k in core.data && core.data[k].None?
  }

  /** A refresh caches nil for exactly those keys that the table still assigns to a pod group of
      the snapshot, while no pod group of the snapshot places them any more. */
  lemma {:induction false} RefreshNil(
      root: string, parse: Parse, history: seq<Change>, snap: nat, before: Core<Table, Info>, tree: Tree, k: string)
    requires Read(ContainerKind(root, parse), history, snap, before, tree)
    ensures NilAt(Base(ContainerKind(root, parse), before, tree), k) <==>
            && k in before.table && before.table[k] in Below(root, StoreAt(history, snap))
            && forall s :: k !in PlacedAt(root, parse, history, snap, s)
    ensures NilAt(Base(ContainerKind(root, parse), before, tree), k) ==>
              k !in Base(ContainerKind(root, parse), before, tree).table
  {
    var store := StoreAt(history, snap);
    var pairs := if tree.Pairs? then tree.pairs else [];
    OkMeansParsed(parse, before.table, pairs);
    BatchIsExact(parse, before.table, pairs, k);
    LastPlacerFound(parse, pairs, k);
    LastPlacerPlaces(root, parse, history, snap, pairs, k);
    if k in before.table {
      var s := before.table[k];
      assert s in Below(root, store) <==> exists i :: 0 <= i < |pairs| && pairs[i].key == s;
    }
  }

  lemma {:induction false} LastPlacerPlaces(
      root: string, parse: Parse, history: seq<Change>, snap: nat, pairs: seq<KVPair>, k: string)
    requires snap <= |history|
    requires if pairs == [] then Below(root, StoreAt(history, snap)) == map[]
             else Enumerates(pairs, StoreAt(history, snap), root)
    ensures LastPlacer(parse, pairs, k).None? <==> forall s :: k !in PlacedAt(root, parse, history, snap, s)
  {
    var store := StoreAt(history, snap);
    LastPlacerFound(parse, pairs, k);
    if LastPlacer(parse, pairs, k).Some? {
      var kv := LastPlacer(parse, pairs, k).value;
      assert k in PlacedAt(root, parse, history, snap, kv.key);
    } else {
      assert forall s :: k in PlacedAt(root, parse, history, snap, s) ==> s in Below(root, store);
    }
  }

  /** The change puts a container at k, or removes k with a cached key that it extends. */
  ghost predicate Clears(parse: Parse, core: Core<Table, Info>, c: Change, k: string)
  {
    if c.Writes() then parse(c.value).Some? && k in Placed(parse(c.value).value) else Reaped(core, c.key, k)
  }

  /** No change of the watch from start to n clears k. */
  ghost predicate Spared(
      root: string, parse: Parse, history: seq<Change>, start: nat, n: nat, base: Core<Table, Info>, k: string)
    requires start <= n <= |history|
  {
    forall i :: start <= i < n && Visible(root, history[i]) ==>
      !Clears(parse, Follow(ContainerKind(root, parse), base, history, start, i), history[i], k)
  }

  lemma SparedOneMore(
      root: string, parse: Parse, history: seq<Change>, start: nat, n: nat, base: Core<Table, Info>, k: string)
    requires start <= n < |history|
    ensures Spared(root, parse, history, start, n + 1, base, k) <==>
            && Spared(root, parse, history, start, n, base, k)
            && (Visible(root, history[n]) ==>
                  !Clears(parse, Follow(ContainerKind(root, parse), base, history, start, n), history[n], k))
  {
  }

  /** At position n the nil at k is the one of the base, if no change cleared it. */
  ghost predicate NilFollows(
      root: string, parse: Parse, history: seq<Change>, start: nat, n: nat, base: Core<Table, Info>, k: string)
    requires start <= n <= |history|
  {
    var core := Follow(ContainerKind(root, parse), base, history, start, n);
    && (NilAt(core, k) ==> k !in core.table)
    && (NilAt(core, k) <==> NilAt(base, k) && Spared(root, parse, history, start, n, base, k))
  }

  lemma {:induction false} NilOneMore(
      root: string, parse: Parse, history: seq<Change>, start: nat, n: nat, base: Core<Table, Info>, k: string)
    requires start <= n < |history| && NilFollows(root, parse, history, start, n, base, k)
    ensures NilFollows(root, parse, history, start, n + 1, base, k)
  {
    AdvanceNil(root, parse, history, n, Follow(ContainerKind(root, parse), base, history, start, n), k);
    SparedOneMore(root, parse, history, start, n, base, k);
  }

  /** Events never bring nil into the cache. */
  lemma {:induction false} FollowNil(
      root: string, parse: Parse, history: seq<Change>, start: nat, n: nat, base: Core<Table, Info>, k: string)
    requires start <= n <= |history| && (NilAt(base, k) ==> k !in base.table)
    ensures NilFollows(root, parse, history, start, n, base, k)
    decreases n
  {
    if n > start {
      FollowNil(root, parse, history, start, n - 1, base, k);
      NilOneMore(root, parse, history, start, n - 1, base, k);
    }
  }

  lemma AdvanceNil(root: string, parse: Parse, history: seq<Change>, m: nat, core: Core<Table, Info>, k: string)
    requires m < |history| && (NilAt(core, k) ==> k !in core.table)
    ensures var core' := Advance(ContainerKind(root, parse), core, history, m);
      && (NilAt(core', k) ==> k !in core'.table)
      && (NilAt(core', k) <==> NilAt(core, k) && (Visible(root, history[m]) ==> !Clears(parse, core, history[m], k)))
  {
    if Visible(root, history[m]) {
      HandleAt(root, parse, core, history[m], m + 1, k);
    }
  }

  /** Exactly when a nil is cached, in every run: the refresh left it, and no change since then
      has placed its key or removed a key that it extends. */
  lemma {:induction false} EveryRunCachesNilExactly(root: string, parse: Parse, moves: seq<Move>, k: string)
    ensures var kind := ContainerKind(root, parse);
      var w := PlayAll(kind, map[], moves);
      w.phase.Up? ==>
        var Up(start, snap, cursor, before, tree) := w.phase;
        (NilAt(w.core, k) <==>
          && k in before.table && before.table[k] in Below(root, StoreAt(w.history, snap))
          && (forall s :: k !in PlacedAt(root, parse, w.history, snap, s))
          && Spared(root, parse, w.history, start, cursor, Base(kind, before, tree), k))
  {
    var kind := ContainerKind(root, parse);
    var w := PlayAll(kind, map[], moves);
    EveryRunIsTracked(kind, map[], moves);
    if w.phase.Up? {
      var Up(start, snap, cursor, before, tree) := w.phase;
      RefreshNil(root, parse, w.history, snap, before, tree, k);
      FollowNil(root, parse, w.history, start, cursor, Base(kind, before, tree), k);
    }
  }
}
