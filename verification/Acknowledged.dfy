/** Where a watch resumes: the index the watcher remembers, against the changes delivered to it. */
module Acknowledged {
  import opened Text
  import opened Store
  import opened Watcher
  import opened Replica
  import P = PathWatcher
  import C = Container
  import CI = ContainerIndex

  /** A change reported to a watch of root that its watcher can handle: a removal, or a write of a
      value that can be read. */
  predicate Handleable(root: string, ok: string -> bool, c: Change)
  {
    Visible(root, c) && (c.Removes() || (c.Writes() && ok(c.value)))
  }

  /** The positions of the history delivered in a run, by whichever watch. */
  ghost function DeliveredAt<T, V>(kind: Kind<T, V>, table: T, moves: seq<Move>): set<nat>
    decreases |moves|
  {
    if moves == [] then {}
    else
      var init := moves[..|moves| - 1];
      var w := PlayAll(kind, table, init);
      DeliveredAt(kind, table, init) +
      if moves[|moves| - 1].Deliver? && w.phase.Up? && w.phase.cursor < |w.history| then {w.phase.cursor} else {}
  }

  /** The change at p was delivered and could be handled. */
  ghost predicate Acked(root: string, ok: string -> bool, history: seq<Change>, delivered: set<nat>, p: int)
  {
    0 <= p < |history| && p in delivered && Handleable(root, ok, history[p])
  }

  /** The index of the last such change; 0 if there is none. */
  ghost predicate IsLastAcked(
      root: string, ok: string -> bool, history: seq<Change>, delivered: set<nat>, index: nat)
  {
    && (forall p :: Acked(root, ok, history, delivered, p) ==> p < index)
    && (index != 0 ==> Acked(root, ok, history, delivered, index - 1))
  }

  /** The kind's conversion of one pair fails exactly when its value cannot be read. */
  ghost predicate Reads<T(!new), V>(kind: Kind<T, V>, ok: string -> bool)
  {
    forall t, pair :: kind.convert(t, [pair]).0.Some? <==> ok(pair.value)
  }

  lemma HandleAcknowledges<T(!new), V>(kind: Kind<T, V>, ok: string -> bool, core: Core<T, V>, c: Change, n: nat)
    requires Reads(kind, ok) && Visible(kind.root, c)
    ensures Handle(kind, core, WatchEvent(c, n)).core.lastIndex ==
            if Handleable(kind.root, ok, c) then n else core.lastIndex
  {
    var e := WatchEvent(c, n);
    if c.Writes() {
      assert kind.convert(core.table, [KVPair(c.key, c.value, n)]).0.Some? <==> ok(c.value);
      assert e.data == [KVPair(c.key, c.value, n)];
    }
  }

  // ----- the invariant -----

  /** Above a change that was delivered and handled everything delivered is without gaps. */
  ghost predicate Gapless(root: string, ok: string -> bool, history: seq<Change>, delivered: set<nat>)
  {
    forall p, i, q :: Acked(root, ok, history, delivered, p) && p <= i <= q && q in delivered ==> i in delivered
  }

  /** The watch has delivered everything from its start to its position; and it resumed right after
      a handled change, or nothing was handled before it and nothing delivered beyond it. */
  ghost predicate Continuous<T, V>(root: string, ok: string -> bool, w: World<T, V>, delivered: set<nat>)
    requires Bounded(w)
  {
    w.phase.Up? ==>
      var start, cursor := w.phase.start, w.phase.cursor;
      && w.core.lastIndex <= cursor
      && (forall i :: start <= i < cursor ==> i in delivered)
      && (Acked(root, ok, w.history, delivered, start - 1)
          || ((forall q :: q in delivered ==> q < cursor)
              && forall p :: Acked(root, ok, w.history, delivered, p) ==> start <= p))
  }

  ghost predicate Acknowledges<T, V>(root: string, ok: string -> bool, w: World<T, V>, delivered: set<nat>)
    requires Bounded(w)
  {
    && (forall p :: p in delivered ==> p < |w.history|)
    && IsLastAcked(root, ok, w.history, delivered, w.core.lastIndex)
    && Gapless(root, ok, w.history, delivered)
    && Continuous(root, ok, w, delivered)
  }

  lemma AckedGrows(root: string, ok: string -> bool, history: seq<Change>, c: Change, delivered: set<nat>)
    requires forall p :: p in delivered ==> p < |history|
    ensures forall p :: Acked(root, ok, history + [c], delivered, p) <==> Acked(root, ok, history, delivered, p)
  {
  }

  lemma StoreAcknowledges<T, V>(kind: Kind<T, V>, ok: string -> bool, w: World<T, V>, c: Change, delivered: set<nat>)
    requires Bounded(w) && Acknowledges(kind.root, ok, w, delivered)
    ensures Acknowledges(kind.root, ok, Play(kind, w, StoreChanges(c)), delivered)
  {
    AckedGrows(kind.root, ok, w.history, c, delivered);
  }

  /** Everything from a handled change on, up to the watch's position, was delivered. */
  lemma NoGapBefore<T, V>(root: string, ok: string -> bool, w: World<T, V>, delivered: set<nat>, p: nat, i: nat)
    requires Bounded(w) && Acknowledges(root, ok, w, delivered) && w.phase.Up?
    requires Acked(root, ok, w.history, delivered, p) && p <= i < w.phase.cursor
    ensures i in delivered
  {
    if i < w.phase.start {
      assert Acked(root, ok, w.history, delivered, w.phase.start - 1);
    }
  }

  lemma DeliverGapless<T, V>(root: string, ok: string -> bool, w: World<T, V>, delivered: set<nat>)
    requires Bounded(w) && Acknowledges(root, ok, w, delivered) && w.phase.Up? && w.phase.cursor < |w.history|
    ensures Gapless(root, ok, w.history, delivered + {w.phase.cursor})
  {
    var c := w.phase.cursor;
    var delivered' := delivered + {c};
    forall p: int, i: int, q: nat |
      Acked(root, ok, w.history, delivered', p) && p <= i <= q && q in delivered'
      ensures i in delivered'
    {
      if Acked(root, ok, w.history, delivered, p) {
        if q == c && i < c {
          NoGapBefore(root, ok, w, delivered, p, i);
        }
      } else {
        assert p == c && c !in delivered;
      }
    }
  }

  lemma DeliverAcknowledges<T(!new), V>(kind: Kind<T, V>, ok: string -> bool, w: World<T, V>, delivered: set<nat>)
    requires Bounded(w) && Reads(kind, ok) && Acknowledges(kind.root, ok, w, delivered)
    requires w.phase.Up? && w.phase.cursor < |w.history|
    ensures Acknowledges(kind.root, ok, Play(kind, w, Deliver), delivered + {w.phase.cursor})
  {
    var c := w.phase.cursor;
    var delivered' := delivered + {c};
    DeliverGapless(kind.root, ok, w, delivered);
    if Visible(kind.root, w.history[c]) {
      HandleAcknowledges(kind, ok, w.core, w.history[c], c + 1);
    }
    assert forall p :: Acked(kind.root, ok, w.history, delivered', p) <==>
                         Acked(kind.root, ok, w.history, delivered, p)
                           || (p == c && Handleable(kind.root, ok, w.history[c]));
  }

  lemma OtherAcknowledges<T, V>(kind: Kind<T, V>, ok: string -> bool, w: World<T, V>, move: Move, delivered: set<nat>)
    requires Bounded(w) && Acknowledges(kind.root, ok, w, delivered)
    requires move.ReadTree? || move.OpenWatch? || move.Lose?
    ensures Acknowledges(kind.root, ok, Play(kind, w, move), delivered)
  {
  }

  /** In every run the index the watcher remembers is that of the last change delivered to it, by
      whichever watch, that was a removal or a write of a value that can be read; 0 if there
      was none. From the first such change on, nothing before a watch's position was skipped. */
  lemma {:induction false} EveryRunAcknowledges<T(!new), V>(
      kind: Kind<T, V>, table: T, ok: string -> bool, moves: seq<Move>)
    requires Reads(kind, ok)
    ensures var w, delivered := PlayAll(kind, table, moves), DeliveredAt(kind, table, moves);
      && Acknowledges(kind.root, ok, w, delivered)
      && IsLastAcked(kind.root, ok, w.history, delivered, w.core.lastIndex)
      && (w.phase.Up? ==>
            forall p: nat, i: nat ::
              Acked(kind.root, ok, w.history, delivered, p) && p <= i < w.phase.cursor ==> i in delivered)
    decreases |moves|
  {
    var w, delivered := PlayAll(kind, table, moves), DeliveredAt(kind, table, moves);
    if moves != [] {
      var init, move := moves[..|moves| - 1], moves[|moves| - 1];
      EveryRunAcknowledges(kind, table, ok, init);
      OneMoveAcknowledges(kind, ok, PlayAll(kind, table, init), move, DeliveredAt(kind, table, init));
    }
    if w.phase.Up? {
      forall p: nat, i: nat | Acked(kind.root, ok, w.history, delivered, p) && p <= i < w.phase.cursor
        ensures i in delivered
      {
        NoGapBefore(kind.root, ok, w, delivered, p, i);
      }
    }
  }

  lemma OneMoveAcknowledges<T(!new), V>(
      kind: Kind<T, V>, ok: string -> bool, w: World<T, V>, move: Move, delivered: set<nat>)
    requires Bounded(w) && Reads(kind, ok) && Acknowledges(kind.root, ok, w, delivered)
    ensures Acknowledges(kind.root, ok, Play(kind, w, move),
              delivered + if move.Deliver? && w.phase.Up?
                && w.phase.cursor < |w.history| then {w.phase.cursor} else {})
  {
    assert delivered + {} == delivered;
    match move
    case StoreChanges(c) => StoreAcknowledges(kind, ok, w, c, delivered);
    case Deliver =>
      if w.phase.Up? && w.phase.cursor < |w.history| {
        DeliverAcknowledges(kind, ok, w, delivered);
      }
    case _ => OtherAcknowledges(kind, ok, w, move, delivered);
  }

  /** So a watch that opens begins right after the last change handled, or now if there was none. */
  lemma {:induction false} EveryWatchResumes<T(!new), V>(
      kind: Kind<T, V>, table: T, ok: string -> bool, moves: seq<Move>)
    requires Reads(kind, ok)
    ensures var w, delivered := PlayAll(kind, table, moves), DeliveredAt(kind, table, moves);
      w.phase.Ready? ==>
        var up := Play(kind, w, OpenWatch).phase;
        && up.Up? && up.cursor == up.start
        && if exists p :: Acked(kind.root, ok, w.history, delivered, p)
           then IsLastAcked(kind.root, ok, w.history, delivered, up.start)
           else up.start == |w.history|
  {
    EveryRunAcknowledges(kind, table, ok, moves);
  }

  lemma PathsRead<V>(root: P.Root, parse: string -> Option<V>)
    ensures Reads(P.PathKind(root, parse), Parses(parse))
  {
    forall pair
      ensures P.Converted(root, parse, [pair]).Some? <==> parse(pair.value).Some?
    {
      P.ConvertedOne(root, parse, pair);
    }
  }

  lemma ContainersRead(root: string, parse: CI.Parse)
    ensures Reads(C.ContainerKind(root, parse), Parses(parse))
  {
    forall t, pair
      ensures C.ConvertAll(parse, t, [pair]).ok <==> parse(pair.value).Some?
    {
      CI.ConvertSingle(parse, t, pair);
    }
  }
}
