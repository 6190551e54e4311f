/** Replication over whole runs: the store's history, a watcher that reads a snapshot and then
    follows events, and connections that are lost and made again. After a reconnection the
    events that follow the last index seen overlap the snapshot and are replayed over it. */
module Replica {
  import opened Text
  import opened Paths
  import opened Store
  import opened Watcher

  // ----- what replaying events over a snapshot gives, per key -----

  /** The part of the store below root. */
  function Below(root: string, store: Contents): Contents
  {
    map k | k in store && Under(root, k) :: store[k]
  }

  /** What a watcher's cache makes of a change: it ignores values it cannot parse, and it
      removes by string prefix where the store removes by path. */
  function MirrorStep(root: string, ok: string -> bool, mirror: Contents, c: Change): Contents
  {
    if !Visible(root, c) then mirror
    else if c.Writes() then (if ok(c.value) then mirror[c.key := c.value] else mirror)
    else map k | k in mirror && !(c.key <= k) :: mirror[k]
  }

  /** The snapshot taken after snap changes, with the changes from start to n played over it. */
  function Mirror(root: string, ok: string -> bool, history: seq<Change>, start: nat, snap: nat, n: nat): Contents
    requires start <= n <= |history| && snap <= |history|
    decreases n
  {
    if n == start then Below(root, StoreAt(history, snap))
    else MirrorStep(root, ok, Mirror(root, ok, history, start, snap, n - 1), history[n - 1])
  }

  /** The values a conversion can read. */
  function Parses<V>(parse: string -> Option<V>): string -> bool
  {
    value => parse(value).Some?
  }

  /** What the last change between start and n that the mirror takes to concern k was:
      none, one that store and mirror treat alike, a value that cannot be parsed, or the
      removal of a path that is a prefix of k only as a string. */
  datatype Verdict = Untouched | Faithful | Garbled | Evicted

  function Judge(root: string, ok: string -> bool, history: seq<Change>, start: nat, n: nat, k: string): Verdict
    requires start <= n <= |history|
    decreases n
  {
    if n == start then Untouched
    else
      var c := history[n - 1];
      var earlier := Judge(root, ok, history, start, n - 1, k);
      if !Visible(root, c) then earlier
      else if c.Writes() then
        if c.key != k then earlier else if ok(c.value) then Faithful else Garbled
      else if Covers(c.key, k) then Faithful
      else if c.key <= k then Evicted
      else earlier
  }

  /** Both hold the key with the same value, or neither holds it. */
  predicate Agree(a: Contents, b: Contents, k: string)
  {
    (k in a <==> k in b) && (k in a ==> a[k] == b[k])
  }

  lemma {:induction false} MirrorByVerdict(
      root: string, ok: string -> bool, history: seq<Change>, start: nat, snap: nat, n: nat, k: string)
    requires start <= n <= |history| && snap <= |history| && Under(root, k)
    requires k in StoreAt(history, snap) ==> ok(StoreAt(history, snap)[k])
    ensures var mirror, store := Mirror(root, ok, history, start, snap, n), StoreAt(history, n);
      && (k in mirror ==> ok(mirror[k]))
      && match Judge(root, ok, history, start, n, k)
         case Untouched => Agree(mirror, StoreAt(history, snap), k) && Agree(store, StoreAt(history, start), k)
         case Faithful => Agree(mirror, store, k)
         case Garbled => k in store && !ok(store[k])
         case Evicted => k !in mirror
    decreases n
  {
    if n > start {
      var c := history[n - 1];
      MirrorByVerdict(root, ok, history, start, snap, n - 1, k);
      if !Visible(root, c) {
        InvisibleIsHarmless(root, StoreAt(history, n - 1), c, k);
      } else if c.Removes() && Covers(c.key, k) {
        CoversIsPrefix(c.key, k);
      }
    }
  }

  lemma {:induction false} UntouchedBefore(
      root: string, ok: string -> bool, history: seq<Change>, start: nat, m: nat, n: nat, k: string)
    requires start <= m <= n <= |history|
    requires Judge(root, ok, history, start, n, k) == Untouched
    ensures Judge(root, ok, history, start, m, k) == Untouched
    decreases n
  {
    if m < n {
      UntouchedBefore(root, ok, history, start, m, n - 1, k);
    }
  }

  /** The store holds an untouched key as it did. */
  lemma {:induction false} UntouchedAgrees(
      root: string, ok: string -> bool, history: seq<Change>, start: nat, n: nat, k: string)
    requires start <= n <= |history| && Under(root, k) && Judge(root, ok, history, start, n, k) == Untouched
    ensures Agree(StoreAt(history, n), StoreAt(history, start), k)
    decreases n
  {
    if n > start {
      UntouchedAgrees(root, ok, history, start, n - 1, k);
      if !Visible(root, history[n - 1]) {
        InvisibleIsHarmless(root, StoreAt(history, n - 1), history[n - 1], k);
      }
    }
  }

  /** Reconnecting. Replaying the changes after start over a snapshot taken later, once past
      the snapshot, agrees with the store about a key exactly when the last change that
      concerned the key was treated alike by both (or there was none), or evicted a key that
      the store does not hold either. No assumption is made about key names. */
  lemma {:induction false} ReplayIsExact(
      root: string, ok: string -> bool, history: seq<Change>, start: nat, snap: nat, n: nat, k: string)
    requires start <= snap <= n <= |history| && Under(root, k)
    requires k in StoreAt(history, snap) ==> ok(StoreAt(history, snap)[k])
    ensures Agree(Mirror(root, ok, history, start, snap, n), StoreAt(history, n), k) <==>
            match Judge(root, ok, history, start, n, k)
            case Untouched => true
            case Faithful => true
            case Garbled => false
            case Evicted => k !in StoreAt(history, n)
  {
    MirrorByVerdict(root, ok, history, start, snap, n, k);
    if Judge(root, ok, history, start, n, k) == Untouched {
      UntouchedBefore(root, ok, history, start, snap, n, k);
      MirrorByVerdict(root, ok, history, start, snap, snap, k);
    }
  }

  lemma {:induction false} MirrorKeysBelow(
      root: string, ok: string -> bool, history: seq<Change>, start: nat, snap: nat, n: nat)
    requires start <= n <= |history| && snap <= |history|
    ensures forall k :: k in Mirror(root, ok, history, start, snap, n) ==> Under(root, k)
    decreases n
  {
    if n > start {
      MirrorKeysBelow(root, ok, history, start, snap, n - 1);
    }
  }

  /** The snapshot held only values that can be parsed. */
  ghost predicate SnapshotOk(root: string, ok: string -> bool, history: seq<Change>, snap: nat)
    requires snap <= |history|
  {
    forall k :: k in Below(root, StoreAt(history, snap)) ==> ok(StoreAt(history, snap)[k])
  }

  /** Over the whole tree: the mirror is the store below root exactly when no live key was
      last concerned by an eviction or by an unparseable value; and whatever the names, every
      pair of the mirror is in the store unless its key holds an unparseable value there. */
  lemma {:induction false} MirrorConverges(
      root: string, ok: string -> bool, history: seq<Change>, start: nat, snap: nat, n: nat)
    requires start <= snap <= n <= |history| && SnapshotOk(root, ok, history, snap)
    ensures var mirror, store := Mirror(root, ok, history, start, snap, n), Below(root, StoreAt(history, n));
      && (mirror == store <==>
           forall k :: k in store ==>
             !Judge(root, ok, history, start, n, k).Evicted? && !Judge(root, ok, history, start, n, k).Garbled?)
      && (forall k :: k in mirror && !Judge(root, ok, history, start, n, k).Garbled? ==>
            k in store && store[k] == mirror[k])
  {
    var mirror, store := Mirror(root, ok, history, start, snap, n), Below(root, StoreAt(history, n));
    MirrorKeysBelow(root, ok, history, start, snap, n);
    forall k | Under(root, k)
      ensures Agree(mirror, store, k) <==>
              match Judge(root, ok, history, start, n, k)
              case Untouched => true
              case Faithful => true
              case Garbled => false
              case Evicted => k !in store
      ensures Judge(root, ok, history, start, n, k).Garbled? ==> k in store
      ensures Judge(root, ok, history, start, n, k).Evicted? ==> k !in mirror
    {
      assert k in StoreAt(history, snap) ==> k in Below(root, StoreAt(history, snap));
      ReplayIsExact(root, ok, history, start, snap, n, k);
      MirrorByVerdict(root, ok, history, start, snap, n, k);
    }
    if forall k :: k in store ==>
      !Judge(root, ok, history, start, n, k).Evicted? && !Judge(root, ok, history, start, n, k).Garbled? {
      assert forall k :: Under(root, k) ==> Agree(mirror, store, k);
      assert mirror == store;
    }
    if mirror == store {
      forall k | k in store
        ensures !Judge(root, ok, history, start, n, k).Evicted? && !Judge(root, ok, history, start, n, k).Garbled?
      {
        assert Agree(mirror, store, k);
      }
    }
  }

  /** A removed path is never a mere string prefix of a key that lives at the end. */
  ghost predicate PrefixSafe(root: string, history: seq<Change>, start: nat, n: nat)
    requires start <= n <= |history|
  {
    forall i, k :: start <= i < n && k in Below(root, StoreAt(history, n)) ==>
      (Visible(root, history[i]) && history[i].Removes() && history[i].key <= k ==> Covers(history[i].key, k))
  }

  ghost predicate ValuesOk(root: string, ok: string -> bool, history: seq<Change>, start: nat, n: nat)
    requires start <= n <= |history|
  {
    forall i :: start <= i < n && Visible(root, history[i]) && history[i].Writes() ==> ok(history[i].value)
  }

  lemma {:induction false} NeverGarbled(
      root: string, ok: string -> bool, history: seq<Change>, start: nat, n: nat, k: string)
    requires start <= n <= |history| && ValuesOk(root, ok, history, start, n)
    ensures !Judge(root, ok, history, start, n, k).Garbled?
    decreases n
  {
    if n > start {
      NeverGarbled(root, ok, history, start, n - 1, k);
    }
  }

  lemma {:induction false} NeverEvicted(
      root: string, ok: string -> bool, history: seq<Change>, start: nat, m: nat, n: nat, k: string)
    requires start <= m <= n <= |history| && PrefixSafe(root, history, start, n)
    requires k in Below(root, StoreAt(history, n))
    ensures !Judge(root, ok, history, start, m, k).Evicted?
    decreases m
  {
    if m > start {
      NeverEvicted(root, ok, history, start, m - 1, n, k);
      var c := history[m - 1];
      assert Visible(root, c) && c.Removes() && c.key <= k ==> Covers(c.key, k);
    }
  }

  /** Parseable values and prefix-safe names make the replayed snapshot the store. */
  lemma {:induction false} SafeNamesConverge(
      root: string, ok: string -> bool, history: seq<Change>, start: nat, snap: nat, n: nat)
    requires start <= snap <= n <= |history| && SnapshotOk(root, ok, history, snap)
    requires ValuesOk(root, ok, history, start, n) && PrefixSafe(root, history, start, n)
    ensures Mirror(root, ok, history, start, snap, n) == Below(root, StoreAt(history, n))
  {
    MirrorConverges(root, ok, history, start, snap, n);
    forall k | k in Below(root, StoreAt(history, n))
      ensures !Judge(root, ok, history, start, n, k).Evicted? && !Judge(root, ok, history, start, n, k).Garbled?
    {
      NeverGarbled(root, ok, history, start, n, k);
      NeverEvicted(root, ok, history, start, n, n, k);
    }
  }

  /** Removing the key "/c/vip" evicts "/c/vips" from the mirror while the store keeps it. */
  lemma EvictionHappens()
    ensures var history := [Change(OpSet, "/c/vips", "1"), Change(OpDelete, "/c/vip", "")];
      && "/c/vips" in StoreAt(history, 2)
      && "/c/vips" !in Mirror("/c", _ => true, history, 0, 0, 2)
      && Judge("/c", _ => true, history, 0, 2, "/c/vips") == Evicted
  {
    var history := [Change(OpSet, "/c/vips", "1"), Change(OpDelete, "/c/vip", "")];
    var k, p := "/c/vips", "/c/vip";
    assert k[|p|] == 's' && (p + "/")[|p|] == '/';
    assert !Covers(p, k) && p <= k && Covers("/c", p);
    assert StoreAt(history, 1) == Commit(StoreAt(history, 0), history[0]);
    assert StoreAt(history, 2) == Commit(StoreAt(history, 1), history[1]);
    MirrorByVerdict("/c", _ => true, history, 0, 0, 2, k);
    assert Visible("/c", history[1]);
  }

  // ----- watches that missed nothing -----

  /** The watch began no later than its snapshot and is past it, or it began later and no change
      in between was one it reports. */
  ghost predicate MissedNothing(root: string, history: seq<Change>, start: nat, snap: nat, n: nat)
    requires start <= n <= |history| && snap <= |history|
  {
    || start <= snap <= n
    || (snap <= start && forall i :: snap <= i < start ==> !Visible(root, history[i]))
  }

  lemma {:induction false} NothingMissed(root: string, history: seq<Change>, snap: nat, start: nat)
    requires snap <= start <= |history| && forall i :: snap <= i < start ==> !Visible(root, history[i])
    ensures Below(root, StoreAt(history, snap)) == Below(root, StoreAt(history, start))
    decreases start
  {
    if snap < start {
      NothingMissed(root, history, snap, start - 1);
      forall k | Under(root, k)
        ensures Agree(StoreAt(history, start - 1), StoreAt(history, start), k)
      {
        InvisibleIsHarmless(root, StoreAt(history, start - 1), history[start - 1], k);
      }
      BelowAgrees(root, StoreAt(history, start - 1), StoreAt(history, start));
    }
  }

  lemma BelowAgrees(root: string, a: Contents, b: Contents)
    requires forall k :: Under(root, k) ==> Agree(a, b, k)
    ensures Below(root, a) == Below(root, b)
  {
  }

  /** For a watch that missed nothing the verdict on a key says all about cache and store. */
  lemma {:induction false} CaughtUpByVerdict(
      root: string, ok: string -> bool, history: seq<Change>, start: nat, snap: nat, n: nat, k: string)
    requires start <= n <= |history| && snap <= |history| && MissedNothing(root, history, start, snap, n)
    requires SnapshotOk(root, ok, history, snap) && Under(root, k)
    ensures var mirror, store := Mirror(root, ok, history, start, snap, n), StoreAt(history, n);
      && (k in mirror ==> ok(mirror[k]))
      && match Judge(root, ok, history, start, n, k)
         case Untouched => Agree(mirror, store, k)
         case Faithful => Agree(mirror, store, k)
         case Garbled => k in store && !ok(store[k])
         case Evicted => k !in mirror
  {
    assert k in StoreAt(history, snap) ==> k in Below(root, StoreAt(history, snap));
    MirrorByVerdict(root, ok, history, start, snap, n, k);
    if start <= snap <= n {
      ReplayIsExact(root, ok, history, start, snap, n, k);
    } else {
      NothingMissed(root, history, snap, start);
      assert Agree(Below(root, StoreAt(history, snap)), Below(root, StoreAt(history, start)), k);
    }
  }

  // ----- runs of the store and one watcher -----

  /** before and tree are history: the watcher when it read the tree, and what it read. */
  datatype Connection<T, V> =
    | Down
    | Ready(snap: nat, before: Core<T, V>, tree: Tree)
    | Up(start: nat, snap: nat, cursor: nat, before: Core<T, V>, tree: Tree)

  datatype World<T, V> = World(history: seq<Change>, core: Core<T, V>, phase: Connection<T, V>)

  datatype Move =
    | StoreChanges(c: Change)
    | ReadTree(tree: Tree)
    | OpenWatch
    | Deliver
    | Lose

  /** Changes the store can report to a watcher of root: etcd keeps its keys clean, and a
      value stored at the directory itself is not converted but crashes the conversion. */
  predicate Legal(root: string, c: Change)
  {
    Canonical(c.key) && (c.Writes() ==> c.key != root)
  }

  /** The tree is what the store holds below root at this moment, or a failure. */
  ghost predicate Answers(tree: Tree, store: Contents, root: string)
  {
    match tree
    case Pairs(pairs) => Enumerates(pairs, store, root)
    case KeyNotFound => Below(root, store) == map[]
    case Failed => true
  }

  predicate Bounded<T, V>(w: World<T, V>)
  {
    && w.core.lastIndex <= |w.history|
    && (w.phase.Ready? ==> w.phase.snap <= |w.history|)
    && (w.phase.Up? ==> w.phase.snap <= |w.history| && w.phase.start <= w.phase.cursor <= |w.history|)
  }

  ghost function Play<T, V>(kind: Kind<T, V>, w: World<T, V>, move: Move): (w': World<T, V>)
    requires Bounded(w)
    ensures Bounded(w')
  {
    match move
    case StoreChanges(c) =>
      if Legal(kind.root, c) then w.(history := w.history + [c]) else w
    case ReadTree(tree) =>
      if w.phase.Down? && Answers(tree, StoreAt(w.history, |w.history|), kind.root) then
        var (core, ok) := Refreshed(kind, w.core, tree);
        if ok then w.(core := core.(broadcastAfterRefresh := false), phase := Ready(|w.history|, w.core, tree))
        else w.(core := core)
      else w
    case OpenWatch =>
      if w.phase.Ready? then
        var start := if w.core.lastIndex == 0 then |w.history| else w.core.lastIndex;
        w.(phase := Up(start, w.phase.snap, start, w.phase.before, w.phase.tree))
      else w
    case Deliver =>
      if w.phase.Up? && w.phase.cursor < |w.history| then
        var n := w.phase.cursor;
        var moved := w.(phase := w.phase.(cursor := n + 1));
        if Visible(kind.root, w.history[n]) then
          moved.(core := Handle(kind, w.core, WatchEvent(w.history[n], n + 1)).core)
        else moved
      else w
    case Lose =>
      if w.phase.Up? then w.(core := w.core.(broadcastAfterRefresh := true), phase := Down) else w
  }

  ghost function PlayAll<T, V>(kind: Kind<T, V>, table: T, moves: seq<Move>): (w: World<T, V>)
    ensures Bounded(w)
    decreases |moves|
  {
    if moves == [] then World([], Core(map[], table, 0, false), Down)
    else Play(kind, PlayAll(kind, table, moves[..|moves| - 1]), moves[|moves| - 1])
  }

  lemma {:induction false} PlayOneMore<T, V>(kind: Kind<T, V>, table: T, moves: seq<Move>, move: Move)
    ensures PlayAll(kind, table, moves + [move]) == Play(kind, PlayAll(kind, table, moves), move)
  {
    assert (moves + [move])[..|moves|] == moves;
  }

  /** The watcher after the change at position i, which it may not see. */
  function Advance<T, V>(kind: Kind<T, V>, core: Core<T, V>, history: seq<Change>, i: nat): Core<T, V>
    requires i < |history|
  {
    if Visible(kind.root, history[i]) then Handle(kind, core, WatchEvent(history[i], i + 1)).core else core
  }

  /** The visible changes from start to n handled one after the other. */
  function Follow<T, V>(kind: Kind<T, V>, base: Core<T, V>, history: seq<Change>, start: nat, n: nat): Core<T, V>
    requires start <= n <= |history|
    decreases n
  {
    if n == start then base
    else Advance(kind, Follow(kind, base, history, start, n - 1), history, n - 1)
  }

  lemma {:induction false} FollowPrefix<T, V>(
      kind: Kind<T, V>, base: Core<T, V>, history: seq<Change>, longer: seq<Change>, start: nat, n: nat)
    requires start <= n <= |history| && history <= longer
    ensures Follow(kind, base, history, start, n) == Follow(kind, base, longer, start, n)
    decreases n
  {
    if n > start {
      FollowPrefix(kind, base, history, longer, start, n - 1);
    }
  }

  function Base<T, V>(kind: Kind<T, V>, before: Core<T, V>, tree: Tree): Core<T, V>
  {
    Refreshed(kind, before, tree).0.(broadcastAfterRefresh := false)
  }

  ghost predicate Read<T, V>(kind: Kind<T, V>, history: seq<Change>, snap: nat, before: Core<T, V>, tree: Tree)
  {
    && snap <= |history| && Answers(tree, StoreAt(history, snap), kind.root)
    && Refreshed(kind, before, tree).1 && before.lastIndex <= snap
  }

  /** What holds in every run: the watcher's state is its refreshed state with the visible
      changes since the watch began handled in order; and a watch that resumes from an index
      begins no later than its snapshot, while a first watch begins no earlier. */
  ghost predicate Tracked<T, V>(kind: Kind<T, V>, w: World<T, V>)
    requires Bounded(w)
  {
    && (forall i :: 0 <= i < |w.history| ==> Legal(kind.root, w.history[i]))
    && match w.phase
       case Down => true
       case Ready(snap, before, tree) =>
         Read(kind, w.history, snap, before, tree) && w.core == Base(kind, before, tree)
       case Up(start, snap, cursor, before, tree) =>
         && Read(kind, w.history, snap, before, tree)
         && w.core == Follow(kind, Base(kind, before, tree), w.history, start, cursor)
         && (if before.lastIndex == 0 then snap <= start else start == before.lastIndex)
  }

  lemma LastIndexFollows<T, V>(kind: Kind<T, V>, core: Core<T, V>, c: Change, n: nat)
    ensures Handle(kind, core, WatchEvent(c, n)).core.lastIndex in {core.lastIndex, n}
  {
  }

  lemma StoreTracks<T, V>(kind: Kind<T, V>, w: World<T, V>, c: Change)
    requires Bounded(w) && Tracked(kind, w)
    ensures Tracked(kind, Play(kind, w, StoreChanges(c)))
  {
    var longer := w.history + [c];
    if !w.phase.Down? {
      StoreAtPrefix(w.history, longer, w.phase.snap);
    }
    if w.phase.Up? {
      FollowPrefix(kind, Base(kind, w.phase.before, w.phase.tree), w.history, longer, w.phase.start, w.phase.cursor);
    }
  }

  lemma PlayTracks<T, V>(kind: Kind<T, V>, w: World<T, V>, move: Move)
    requires Bounded(w) && Tracked(kind, w)
    ensures Tracked(kind, Play(kind, w, move))
  {
    match move
    case StoreChanges(c) =>
      StoreTracks(kind, w, c);
    case Deliver =>
      if w.phase.Up? && w.phase.cursor < |w.history| {
        LastIndexFollows(kind, w.core, w.history[w.phase.cursor], w.phase.cursor + 1);
      }
    case _ =>
  }

  lemma {:induction false} EveryRunIsTracked<T, V>(kind: Kind<T, V>, table: T, moves: seq<Move>)
    ensures Tracked(kind, PlayAll(kind, table, moves))
    decreases |moves|
  {
    if moves != [] {
      EveryRunIsTracked(kind, table, moves[..|moves| - 1]);
      PlayTracks(kind, PlayAll(kind, table, moves[..|moves| - 1]), moves[|moves| - 1]);
    }
  }

  /** A relation between watcher and mirror that holds at the snapshot and is kept by every
      visible change holds wherever the watch has got to. */
  lemma {:induction false} FollowSimulates<T(!new), V(!new)>(
      kind: Kind<T, V>, ok: string -> bool, related: (Core<T, V>, Contents) -> bool,
      base: Core<T, V>, history: seq<Change>, start: nat, snap: nat, n: nat)
    requires start <= n <= |history| && snap <= |history|
    requires related(base, Below(kind.root, StoreAt(history, snap)))
    requires forall core, mirror, i | start <= i < n && Visible(kind.root, history[i]) && related(core, mirror) ::
               related(Handle(kind, core, WatchEvent(history[i], i + 1)).core,
                 MirrorStep(kind.root, ok, mirror, history[i]))
    ensures related(Follow(kind, base, history, start, n), Mirror(kind.root, ok, history, start, snap, n))
    decreases n
  {
    if n > start {
      FollowSimulates(kind, ok, related, base, history, start, snap, n - 1);
    }
  }

  /** The same with a property of the watcher that may speak of the position. */
  lemma {:induction false} FollowKeeps<T(!new), V(!new)>(
      kind: Kind<T, V>, property: (nat, Core<T, V>) -> bool, base: Core<T, V>, history: seq<Change>, start: nat,
      n: nat)
    requires start <= n <= |history| && property(start, base)
    requires forall core, i | start <= i < n && property(i, core) :: property(i + 1, Advance(kind, core, history, i))
    ensures property(n, Follow(kind, base, history, start, n))
    decreases n
  {
    if n > start {
      FollowKeeps(kind, property, base, history, start, n - 1);
    }
  }
}
