/** One watcher and all its receivers in one machine: the store, the watcher's connection, and
    the broadcast protocol, with every interleaving a run can have. The watcher's goroutine does
    nothing else while it broadcasts; the store and the receivers go on. */
module Joint {
  import opened Text
  import opened Store
  import opened Cacher
  import opened Broadcast
  import opened Watcher
  import opened Replica

  /** overlooked is history: the receivers passed over by changes of the cache. */
  datatype Joint<T, V> = Joint(world: World<T, V>, hub: Hub<V>, overlooked: set<nat>)

  datatype JointMove<V> = ByWatcher(move: Move) | ByReceivers(step: Step<V>)

  /** What a move of the watcher broadcasts. */
  datatype Notice = Notice(keys: set<string>, action: Action)

  ghost predicate Refreshes<T, V>(kind: Kind<T, V>, w: World<T, V>, move: Move)
    requires Bounded(w)
  {
    && move.ReadTree? && w.phase.Down? && Answers(move.tree, StoreAt(w.history, |w.history|), kind.root)
    && Refreshed(kind, w.core, move.tree).1
  }

  ghost predicate Delivers<T, V>(kind: Kind<T, V>, w: World<T, V>, move: Move)
    requires Bounded(w)
  {
    && move.Deliver? && w.phase.Up? && w.phase.cursor < |w.history| && Visible(kind.root, w.history[w.phase.cursor])
  }

  /** What handling the delivered change leads to. */
  function Delivered<T, V>(kind: Kind<T, V>, w: World<T, V>): Outcome<T, V>
    requires w.phase.Up? && w.phase.cursor < |w.history|
  {
    Handle(kind, w.core, WatchEvent(w.history[w.phase.cursor], w.phase.cursor + 1))
  }

  /** The broadcast of a move: none, all keys after a refresh that follows a lost connection, or
      the keys an event changed. */
  ghost function Noticed<T, V>(kind: Kind<T, V>, w: World<T, V>, move: Move): Option<Notice>
    requires Bounded(w)
  {
    if Refreshes(kind, w, move) && w.core.broadcastAfterRefresh then
      Some(Notice(Refreshed(kind, w.core, move.tree).0.data.Keys, SET))
    else if Delivers(kind, w, move) && Delivered(kind, w).notify then
      Some(Notice(Delivered(kind, w).keys, ActionMap(w.history[w.phase.cursor].op)))
    else None
  }

  ghost predicate Ranged<T, V>(j: Joint<T, V>)
  {
    Bounded(j.world) && InRange(j.hub)
  }

  ghost function JointNext<T, V>(kind: Kind<T, V>, j: Joint<T, V>, m: JointMove<V>): (j': Joint<T, V>)
    requires Ranged(j)
    ensures Ranged(j')
  {
    match m
    case ByReceivers(step) =>
      if step.Publish? then j else j.(hub := Next(j.hub, step))
    case ByWatcher(move) =>
      if j.hub.phase.Sending? && !move.StoreChanges? then j
      else if move.StoreChanges? then j.(world := Play(kind, j.world, move))
      else
        var w := Play(kind, j.world, move);
        var data := w.core.data;
        match Noticed(kind, j.world, move)
        case None => Joint(w, j.hub.(data := data), Overlook(j.hub, j.overlooked, data, {}))
        case Some(n) => Joint(w, Begin(j.hub, data, n.keys, n.action), Overlook(j.hub, j.overlooked, data, n.keys))
  }

  ghost function JointAll<T, V>(kind: Kind<T, V>, table: T, moves: seq<JointMove<V>>): (j: Joint<T, V>)
    ensures Ranged(j)
    decreases |moves|
  {
    if moves == [] then Joint(World([], Core(map[], table, 0, false), Down), Start(map[]), {})
    else JointNext(kind, JointAll(kind, table, moves[..|moves| - 1]), moves[|moves| - 1])
  }

  lemma {:induction false} JointOneMore<T, V>(kind: Kind<T, V>, table: T, moves: seq<JointMove<V>>, m: JointMove<V>)
    ensures JointAll(kind, table, moves + [m]) == JointNext(kind, JointAll(kind, table, moves), m)
  {
    assert (moves + [m])[..|moves|] == moves;
  }

  /** What is proved of all runs of the store and a watcher holds in joint runs. */
  lemma {:induction false} JointIsARun<T, V>(kind: Kind<T, V>, table: T, moves: seq<JointMove<V>>)
    returns (played: seq<Move>)
    ensures JointAll(kind, table, moves).world == PlayAll(kind, table, played)
    decreases |moves|
  {
    if moves == [] {
      played := [];
    } else {
      var init, m := moves[..|moves| - 1], moves[|moves| - 1];
      played := JointIsARun(kind, table, init);
      if m.ByWatcher? && (JointAll(kind, table, init).hub.phase.Idle? || m.move.StoreChanges?) {
        PlayOneMore(kind, table, played, m.move);
        played := played + [m.move];
      }
    }
  }

  lemma {:induction false} HistoryGrows<T, V>(kind: Kind<T, V>, table: T, moves: seq<JointMove<V>>, n: nat)
    requires n <= |moves|
    ensures JointAll(kind, table, moves[..n]).world.history <= JointAll(kind, table, moves).world.history
    decreases |moves|
  {
    if n == |moves| {
      assert moves[..n] == moves;
    } else {
      var init := moves[..|moves| - 1];
      HistoryGrows(kind, table, init, n);
      assert init[..n] == moves[..n];
      NextKeepsHistory(kind, JointAll(kind, table, init), moves[|moves| - 1]);
    }
  }

  lemma NextKeepsHistory<T, V>(kind: Kind<T, V>, j: Joint<T, V>, m: JointMove<V>)
    requires Ranged(j)
    ensures j.world.history <= JointNext(kind, j, m).world.history
  {
  }

  // ----- the invariant -----

  /** No tree has been read yet. */
  predicate Fresh<T, V>(w: World<T, V>)
  {
    w.phase.Down? && !w.core.broadcastAfterRefresh
  }

  /** The protocol is safe, it serves the cache's data, and every open receiver is accounted for:
      unless its latest note was dropped or a broadcast has yet to reach it, it holds what a
      query of its key answers now, exactly when it was not overlooked. */
  ghost predicate InTune<T, V>(j: Joint<T, V>)
    requires Ranged(j)
  {
    && Safe(j.hub) && j.hub.data == j.world.core.data && Coherent(j.hub, j.overlooked)
    && (Fresh(j.world) ==>
          && j.hub.data == map[] && j.hub.phase.Idle?
          && forall r :: 0 <= r < |j.hub.subs| ==> j.hub.subs[r].Held() == map[])
  }

  /** The delivered event's broadcast names every key it changed. */
  ghost predicate Announces<T, V>(kind: Kind<T, V>, w: World<T, V>, move: Move)
    requires Bounded(w)
  {
    Delivers(kind, w, move) ==> AgreeOutside(w.core.data, Delivered(kind, w).core.data, Delivered(kind, w).keys)
  }

  lemma EmptyRange<V>(data: Data<V>, prefix: string)
    ensures Matches(data.Keys, prefix) <==> Range(data, prefix) != map[]
    ensures Range(data, prefix) == map[] <==> Lookup(data, prefix) == map[]
  {
    if Matches(data.Keys, prefix) {
      var k :| k in data.Keys && prefix <= k;
      assert k in Range(data, prefix);
    }
    assert prefix <= prefix;
    if prefix in data {
      assert prefix in Range(data, prefix) && prefix in Lookup(data, prefix);
    }
  }

  /** Whom a refresh passes over: exactly those whose range is empty afterwards and was not
      before, and those passed over earlier whose range was empty and stays so. */
  lemma RefreshOverlooks<V>(h: Hub<V>, overlooked: set<nat>, data: Data<V>, r: nat)
    requires r < |h.subs|
    ensures r in Overlook(h, overlooked, data, data.Keys) <==>
            && Range(data, h.subs[r].key) == map[]
            && (r in overlooked <==> Range(h.data, h.subs[r].key) == map[])
  {
    EmptyRange(data, h.subs[r].key);
    EmptyRange(h.data, h.subs[r].key);
  }

  /** The tree was read and converted before, somewhere in the run. */
  ghost predicate HasRefreshed<T, V>(kind: Kind<T, V>, table: T, moves: seq<Move>)
  {
    exists n :: 0 <= n < |moves| && Refreshes(kind, PlayAll(kind, table, moves[..n]), moves[n])
  }

  lemma {:induction false} RefreshedIsNotFresh<T, V>(kind: Kind<T, V>, table: T, moves: seq<Move>)
    ensures HasRefreshed(kind, table, moves) <==> !Fresh(PlayAll(kind, table, moves))
    decreases |moves|
  {
    if moves != [] {
      var init, move := moves[..|moves| - 1], moves[|moves| - 1];
      RefreshedIsNotFresh(kind, table, init);
      HasRefreshedMore(kind, table, init, move);
      assert moves == init + [move];
      FreshMore(kind, PlayAll(kind, table, init), move);
    }
  }

  lemma {:induction false} HasRefreshedMore<T, V>(kind: Kind<T, V>, table: T, init: seq<Move>, move: Move)
    ensures HasRefreshed(kind, table, init + [move]) <==>
            HasRefreshed(kind, table, init) || Refreshes(kind, PlayAll(kind, table, init), move)
  {
    var moves := init + [move];
    assert forall n :: 0 <= n < |init| ==> moves[..n] == init[..n] && moves[n] == init[n];
    assert moves[..|init|] == init && moves[|init|] == move;
  }

  lemma FreshMore<T, V>(kind: Kind<T, V>, w: World<T, V>, move: Move)
    requires Bounded(w)
    ensures Fresh(Play(kind, w, move)) <==> Fresh(w) && !Refreshes(kind, w, move)
  {
  }

  /** In every run the first refresh is silent, and every later one broadcasts, as set, exactly the
      keys that the cache has after it. */
  lemma {:induction false} LaterRefreshesAreAnnounced<T, V>(kind: Kind<T, V>, table: T, moves: seq<Move>, move: Move)
    requires Refreshes(kind, PlayAll(kind, table, moves), move)
    ensures var w := PlayAll(kind, table, moves);
      Noticed(kind, w, move) ==
      if HasRefreshed(kind, table, moves) then Some(Notice(Play(kind, w, move).core.data.Keys, SET)) else None
  {
    RefreshedIsNotFresh(kind, table, moves);
  }

  /** Some hit is a prefix of the receiver's key, whose whole range is evicted with it. */
  ghost predicate Swept(hit: set<string>, key: string)
  {
    exists x :: x in hit && x <= key
  }

  /** An eviction either concerns a receiver by a key it announces, or empties its whole range, or
      leaves all of it; so it can be borne, announced or not. */
  lemma EvictionAtKey<V>(data: Data<V>, hit: set<string>, key: string)
    requires !Matches(hit, key)
    ensures Range(Evict(data, hit), key) == if Swept(hit, key) then map[] else Range(data, key)
    ensures Lookup(Evict(data, hit), key) == if Swept(hit, key) then map[] else Lookup(data, key)
  {
    if Swept(hit, key) {
      var x :| x in hit && x <= key;
      assert forall k :: k in data && key <= k ==> x <= k;
      EmptyRange(Evict(data, hit), key);
    } else {
      assert forall k, x :: k in data && key <= k && x in hit && x <= k ==> x <= key || key <= x;
      assert key <= key;
    }
  }

  /** Whom the eviction of a removal passes over: as for a refresh, exactly those whose range it
      empties without naming a key of theirs, because a hit is a proper prefix of their key; and
      among those passed over earlier, whoever it neither names nor empties. */
  lemma RemovalOverlooks<V>(h: Hub<V>, overlooked: set<nat>, hit: set<string>, r: nat)
    requires r < |h.subs|
    ensures var key := h.subs[r].key;
      r in Overlook(h, overlooked, Evict(h.data, hit), hit) <==>
        !Matches(hit, key) && (r in overlooked <==> !(Swept(hit, key) && Range(h.data, key) != map[]))
    ensures var key := h.subs[r].key;
      !Matches(hit, key) && Swept(hit, key) ==> exists x :: x in hit && x <= key && x != key
  {
    var key := h.subs[r].key;
    EmptyRange(h.data, key);
    if !Matches(hit, key) {
      EvictionAtKey(h.data, hit, key);
      if Swept(hit, key) {
        var x :| x in hit && x <= key;
        assert key <= key;
      }
    }
  }

  /** Whatever an event does, announced or not, can be borne. */
  lemma EventIsBearable<T, V>(kind: Kind<T, V>, h: Hub<V>, core: Core<T, V>, e: Event)
    requires h.data == core.data && Handle(kind, core, e).notify
    ensures forall r :: 0 <= r < |h.subs| ==>
              Bearable(h.subs[r], h.data, Handle(kind, core, e).core.data, Handle(kind, core, e).keys)
  {
    var outcome := Handle(kind, core, e);
    if e.action.DELETE? {
      var hit := Hit(kind, core, e.key);
      forall r | 0 <= r < |h.subs| && !Matches(hit, h.subs[r].key)
        ensures Lookup(Evict(core.data, hit), h.subs[r].key) in {Lookup(core.data, h.subs[r].key), map[]}
      {
        EvictionAtKey(core.data, hit, h.subs[r].key);
      }
    } else {
      DeltaIsAnnounced(kind, core, e);
      AnnouncedIsBearable(h, {}, outcome.core.data, outcome.keys);
    }
  }

  /** What the watcher's move does to the receivers' side. */
  lemma MoveIsBearable<T, V>(kind: Kind<T, V>, j: Joint<T, V>, move: Move)
    requires Ranged(j) && InTune(j) && j.hub.phase.Idle?
    ensures var data := Play(kind, j.world, move).core.data;
      var n := Noticed(kind, j.world, move);
      var keys := if n.Some? then n.value.keys else {};
      forall r :: 0 <= r < |j.hub.subs| ==> Bearable(j.hub.subs[r], j.hub.data, data, keys)
  {
    var data := Play(kind, j.world, move).core.data;
    if Delivers(kind, j.world, move) {
      if Delivered(kind, j.world).notify {
        var n := j.world.phase.cursor;
        EventIsBearable(kind, j.hub, j.world.core, WatchEvent(j.world.history[n], n + 1));
      }
    } else if Refreshes(kind, j.world, move) {
      forall r | 0 <= r < |j.hub.subs|
        ensures Matches(data.Keys, j.hub.subs[r].key) || Lookup(data, j.hub.subs[r].key) == map[]
      {
        EmptyRange(data, j.hub.subs[r].key);
      }
      EmptyEverywhere<V>();
    }
  }

  lemma EmptyEverywhere<V>()
    ensures forall key :: Lookup<V>(map[], key) == map[]
  {
  }

  lemma WatcherKeepsTune<T, V>(kind: Kind<T, V>, j: Joint<T, V>, move: Move)
    requires Ranged(j) && InTune(j) && (j.hub.phase.Idle? || move.StoreChanges?)
    ensures InTune(JointNext(kind, j, ByWatcher(move)))
  {
    var data := Play(kind, j.world, move).core.data;
    if !move.StoreChanges? {
      MoveIsBearable(kind, j, move);
      match Noticed(kind, j.world, move)
      case None => SilentCoherent(j.hub, j.overlooked, data);
      case Some(n) =>
        PublishCoherent(j.hub, j.overlooked, data, n.keys, n.action);
        OtherStepsSafe(j.hub, Publish(data, n.keys, n.action));
    }
  }

  /** Before any data nobody holds anything. */
  lemma FreshStaysEmpty<V>(h: Hub<V>, step: Step<V>)
    requires InRange(h) && h.phase.Idle? && h.data == map[] && !step.Publish?
    requires forall r :: 0 <= r < |h.subs| ==> h.subs[r].Held() == map[]
    ensures var h' := Next(h, step);
      h'.phase.Idle? && h'.data == map[] && forall r :: 0 <= r < |h'.subs| ==> h'.subs[r].Held() == map[]
  {
    EmptyEverywhere<V>();
    if step.Take? && step.r < |h.subs| && h.subs[step.r].pending != [] {
      assert Next(h, step).subs[step.r].Sent() == h.subs[step.r].Sent();
    }
  }

  lemma ReceiversKeepTune<T, V>(kind: Kind<T, V>, j: Joint<T, V>, step: Step<V>)
    requires Ranged(j) && InTune(j) && !step.Publish?
    ensures InTune(JointNext(kind, j, ByReceivers(step)))
  {
    if !step.VisitNext? {
      OtherStepsSafe(j.hub, step);
      OtherStepsCoherent(j.hub, j.overlooked, step);
      if Fresh(j.world) {
        FreshStaysEmpty(j.hub, step);
      }
    } else if j.hub.phase.Sending? && j.hub.phase.next < |j.hub.slots| {
      VisitSafe(j.hub);
      VisitCoherent(j.hub, j.overlooked);
    }
  }

  /** Every joint run is in tune: events, refreshes after lost connections, registrations, reads,
      cancellations and clean-ups in any order, for every kind of watcher and whatever the keys. */
  lemma {:induction false} EveryJointRunIsInTune<T, V>(kind: Kind<T, V>, table: T, moves: seq<JointMove<V>>)
    ensures InTune(JointAll(kind, table, moves))
    decreases |moves|
  {
    if moves != [] {
      var init, m := moves[..|moves| - 1], moves[|moves| - 1];
      EveryJointRunIsInTune(kind, table, init);
      var j := JointAll(kind, table, init);
      if m.ByReceivers? {
        if !m.step.Publish? {
          ReceiversKeepTune(kind, j, m.step);
        }
      } else if j.hub.phase.Idle? || m.move.StoreChanges? {
        WatcherKeepsTune(kind, j, m.move);
      }
    }
  }

  // ----- what is sent, and to whom -----

  /** A written key is said to be updated, a removed one deleted. */
  predicate ActionNames(action: Action, c: Change)
  {
    (c.Writes() && action == UPDATE) || (c.Removes() && action == DELETE)
  }

  /** Every broadcast bears the action of its cause. */
  lemma NoticesNameTheirCause<T, V>(kind: Kind<T, V>, w: World<T, V>, move: Move)
    requires Bounded(w) && Noticed(kind, w, move).Some?
    ensures move.ReadTree? ==> Noticed(kind, w, move).value.action == SET
    ensures !move.ReadTree? ==>
      Delivers(kind, w, move) &&
      ActionNames(Noticed(kind, w, move).value.action, w.history[w.phase.cursor])
  {
  }

  /** In every joint run every note says that something was set, updated or deleted, and shows
      nothing outside its receiver's range. */
  lemma {:induction false} EveryNoteIsOk<T, V>(kind: Kind<T, V>, table: T, moves: seq<JointMove<V>>)
    ensures AllNotesOk(JointAll(kind, table, moves).hub)
    decreases |moves|
  {
    if moves != [] {
      var init, m := moves[..|moves| - 1], moves[|moves| - 1];
      EveryNoteIsOk(kind, table, init);
      var j := JointAll(kind, table, init);
      if m.ByReceivers? {
        if !m.step.Publish? {
          NextNotesOk(j.hub, m.step);
        }
      } else if j.hub.phase.Idle? {
        MoveNotesOk(kind, j, m.move);
      }
    }
  }

  lemma MoveNotesOk<T, V>(kind: Kind<T, V>, j: Joint<T, V>, move: Move)
    requires Ranged(j) && j.hub.phase.Idle? && AllNotesOk(j.hub)
    ensures AllNotesOk(JointNext(kind, j, ByWatcher(move)).hub)
  {
    if Noticed(kind, j.world, move).Some? {
      NoticesNameTheirCause(kind, j.world, move);
    }
  }

  /** The keys that were asked for in a joint run, in order. */
  ghost function JointAsked<T, V>(kind: Kind<T, V>, table: T, moves: seq<JointMove<V>>): seq<string>
    decreases |moves|
  {
    if moves == [] then []
    else
      var init, m := moves[..|moves| - 1], moves[|moves| - 1];
      JointAsked(kind, table, init) +
      if m.ByReceivers? && m.step.Watch? && JointAll(kind, table, init).hub.phase.Idle? then [m.step.key] else []
  }

  /** The receivers of any joint run are those that registered, in order, each under its own key. */
  lemma {:induction false} JointReceiversAreTheAsked<T, V>(kind: Kind<T, V>, table: T, moves: seq<JointMove<V>>)
    ensures Keys(JointAll(kind, table, moves).hub.subs) == JointAsked(kind, table, moves)
    decreases |moves|
  {
    if moves != [] {
      var init, m := moves[..|moves| - 1], moves[|moves| - 1];
      JointReceiversAreTheAsked(kind, table, init);
      var j := JointAll(kind, table, init);
      if m.ByReceivers? && !m.step.Publish? {
        NextKeys(j.hub, m.step);
      } else {
        OthersKeepSubs(kind, j, m);
        assert Keys(j.hub.subs) + [] == Keys(j.hub.subs);
      }
    }
  }

  lemma OthersKeepSubs<T, V>(kind: Kind<T, V>, j: Joint<T, V>, m: JointMove<V>)
    requires Ranged(j) && (m.ByWatcher? || m.step.Publish?)
    ensures JointNext(kind, j, m).hub.subs == j.hub.subs
  {
  }

  // ----- when nobody is overlooked -----

  /** Every event of the run is announced. */
  ghost predicate EventsAnnounced<T, V>(kind: Kind<T, V>, table: T, moves: seq<JointMove<V>>)
  {
    forall i :: 0 <= i < |moves| && moves[i].ByWatcher? ==>
      Announces(kind, JointAll(kind, table, moves[..i]).world, moves[i].move)
  }

  lemma EventsAnnouncedBefore<T, V>(kind: Kind<T, V>, table: T, moves: seq<JointMove<V>>)
    requires moves != [] && EventsAnnounced(kind, table, moves)
    ensures EventsAnnounced(kind, table, moves[..|moves| - 1])
  {
    var init := moves[..|moves| - 1];
    forall i | 0 <= i < |init| && init[i].ByWatcher?
      ensures Announces(kind, JointAll(kind, table, init[..i]).world, init[i].move)
    {
      assert init[..i] == moves[..i] && init[i] == moves[i];
    }
  }

  /** An announced event passes over nobody who was not passed over before. */
  lemma AnnouncedOverlooksNobody<T, V>(kind: Kind<T, V>, j: Joint<T, V>)
    requires Ranged(j) && InTune(j) && j.hub.phase.Idle?
    requires Delivers(kind, j.world, Deliver) && Announces(kind, j.world, Deliver)
    ensures JointNext(kind, j, ByWatcher(Deliver)).overlooked <= j.overlooked
  {
    var outcome := Delivered(kind, j.world);
    AnnouncedIsBearable(j.hub, j.overlooked, outcome.core.data, outcome.keys);
  }

  /** Nobody is overlooked as long as no connection is lost, if receivers register only after
      the first tree was read. */
  lemma {:induction false} UnbrokenRunsOverlookNobody<T, V>(kind: Kind<T, V>, table: T, moves: seq<JointMove<V>>)
    requires EventsAnnounced(kind, table, moves) && ByWatcher(Lose) !in moves
    requires forall i :: 0 <= i <= |moves| && Fresh(JointAll(kind, table, moves[..i]).world) ==>
               JointAll(kind, table, moves[..i]).hub.subs == []
    ensures JointAll(kind, table, moves).overlooked == {}
            && !JointAll(kind, table, moves).world.core.broadcastAfterRefresh
    decreases |moves|
  {
    if moves != [] {
      var init, m := moves[..|moves| - 1], moves[|moves| - 1];
      EventsAnnouncedBefore(kind, table, moves);
      forall i | 0 <= i <= |init| && Fresh(JointAll(kind, table, init[..i]).world)
        ensures JointAll(kind, table, init[..i]).hub.subs == []
      {
        assert init[..i] == moves[..i];
      }
      UnbrokenRunsOverlookNobody(kind, table, init);
      EveryJointRunIsInTune(kind, table, init);
      var j := JointAll(kind, table, init);
      assert init[..|init|] == init == moves[..|init|];
      if m.ByWatcher? && j.hub.phase.Idle? && !m.move.StoreChanges? {
        MoveOverlooksNobody(kind, j, m.move);
      }
    }
  }

  lemma MoveOverlooksNobody<T, V>(kind: Kind<T, V>, j: Joint<T, V>, move: Move)
    requires Ranged(j) && InTune(j) && j.hub.phase.Idle? && !move.StoreChanges? && move != Lose
    requires Announces(kind, j.world, move) && j.overlooked == {} && !j.world.core.broadcastAfterRefresh
    requires Fresh(j.world) ==> j.hub.subs == []
    ensures JointNext(kind, j, ByWatcher(move)).overlooked == {}
    ensures !JointNext(kind, j, ByWatcher(move)).world.core.broadcastAfterRefresh
  {
    if Delivers(kind, j.world, move) {
      var outcome := Delivered(kind, j.world);
      AnnouncedIsBearable(j.hub, {}, outcome.core.data, outcome.keys);
    }
  }
}
