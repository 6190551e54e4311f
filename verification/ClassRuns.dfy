/** What the class of the base watcher does is a joint run: one turn of its outer loop, with its
    refresh, its broadcasts and the events it is given, is what certain moves of the machine do. */
module ClassRuns {
  import opened Store
  import opened Broadcast
  import opened Watcher
  import opened Replica
  import opened Joint

  ghost function JointFrom<T, V(!new)>(kind: Kind<T, V>, j: Joint<T, V>, moves: seq<JointMove<V>>): (j': Joint<T, V>)
    requires Ranged(j)
    ensures Ranged(j')
    decreases |moves|
  {
    if moves == [] then j else JointNext(kind, JointFrom(kind, j, moves[..|moves| - 1]), moves[|moves| - 1])
  }

  /** Moves played on from a joint run make a joint run. */
  lemma {:induction false} JointFromIsOn<T, V(!new)>(
      kind: Kind<T, V>, table: T, moves: seq<JointMove<V>>, more: seq<JointMove<V>>)
    ensures JointAll(kind, table, moves + more) == JointFrom(kind, JointAll(kind, table, moves), more)
    decreases |more|
  {
    if more == [] {
      assert moves + more == moves;
    } else {
      var init := more[..|more| - 1];
      JointFromIsOn(kind, table, moves, init);
      assert (moves + more)[..|moves + more| - 1] == moves + init;
    }
  }

  lemma {:induction false} JointFromMore<T, V(!new)>(
      kind: Kind<T, V>, j: Joint<T, V>, moves: seq<JointMove<V>>, more: seq<JointMove<V>>)
    requires Ranged(j)
    ensures JointFrom(kind, j, moves + more) == JointFrom(kind, JointFrom(kind, j, moves), more)
    decreases |more|
  {
    if more == [] {
      assert moves + more == moves;
    } else {
      var init := more[..|more| - 1];
      JointFromMore(kind, j, moves, init);
      assert (moves + more)[..|moves + more| - 1] == moves + init;
    }
  }

  /** Some moves lead from one state to the other. */
  ghost predicate Reaches<T, V(!new)>(kind: Kind<T, V>, j: Joint<T, V>, j': Joint<T, V>)
    requires Ranged(j)
  {
    exists moves :: JointFrom(kind, j, moves) == j'
  }

  /** What is reached from a joint run is a joint run. */
  lemma {:induction false} ReachedIsARun<T, V(!new)>(
      kind: Kind<T, V>, table: T, moves: seq<JointMove<V>>, j': Joint<T, V>) returns (all: seq<JointMove<V>>)
    requires Reaches(kind, JointAll(kind, table, moves), j')
    ensures moves <= all && JointAll(kind, table, all) == j'
  {
    var more :| JointFrom(kind, JointAll(kind, table, moves), more) == j';
    JointFromIsOn(kind, table, moves, more);
    all := moves + more;
  }

  lemma Onward<T, V(!new)>(kind: Kind<T, V>, a: Joint<T, V>, b: Joint<T, V>, c: Joint<T, V>)
    requires Ranged(a) && Reaches(kind, a, b) && Ranged(b) && Reaches(kind, b, c)
    ensures Reaches(kind, a, c)
  {
    var moves :| JointFrom(kind, a, moves) == b;
    var more :| JointFrom(kind, b, more) == c;
    JointFromMore(kind, a, moves, more);
  }

  lemma {:induction false} OneMove<T, V(!new)>(kind: Kind<T, V>, j: Joint<T, V>, m: JointMove<V>)
    requires Ranged(j)
    ensures Reaches(kind, j, JointNext(kind, j, m))
  {
    assert [m][..0] == [];
    assert JointFrom(kind, j, [m]) == JointNext(kind, j, m);
  }

  lemma {:induction false} NoMove<T, V(!new)>(kind: Kind<T, V>, j: Joint<T, V>)
    requires Ranged(j)
    ensures Reaches(kind, j, j)
  {
    assert JointFrom(kind, j, []) == j;
  }

  function Receiving<V(!new)>(steps: seq<Step<V>>): seq<JointMove<V>>
  {
    seq(|steps|, i requires 0 <= i < |steps| => ByReceivers(steps[i]))
  }

  lemma {:induction false} StepsAreMoves<T, V(!new)>(kind: Kind<T, V>, j: Joint<T, V>, steps: seq<Step<V>>)
    requires Ranged(j) && forall i :: 0 <= i < |steps| ==> !steps[i].Publish?
    ensures JointFrom(kind, j, Receiving(steps)) == j.(hub := Run(j.hub, steps))
    decreases |steps|
  {
    if steps != [] {
      var init := steps[..|steps| - 1];
      StepsAreMoves(kind, j, init);
      assert Receiving(steps)[..|steps| - 1] == Receiving(init);
    }
  }

  lemma {:induction false} BroadcastIsReached<T, V(!new)>(kind: Kind<T, V>, j: Joint<T, V>)
    requires Ranged(j) && j.hub.phase.Sending? && j.hub.phase.next == 0
    ensures Reaches(kind, j, j.(hub := Finish(VisitUpTo(j.hub, |j.hub.slots|))))
  {
    var visits := Visits<V>(|j.hub.slots|);
    var end: seq<Step<V>> := [EndBroadcast];
    StepsAreMoves(kind, j, visits + end);
    RunOn(j.hub, visits, end);
    VisitsAreARun(j.hub, |j.hub.slots|);
    assert end[..0] == [];
  }

  lemma VisitKeepsData<V(!new)>(h: Hub<V>)
    requires InRange(h) && h.phase.Sending? && h.phase.next < |h.slots|
    ensures Visit(h).data == h.data
  {
  }

  lemma {:induction false} VisitsKeepData<V(!new)>(h: Hub<V>, n: nat)
    requires InRange(h) && h.phase.Sending? && h.phase.next == 0 && n <= |h.slots|
    ensures VisitUpTo(h, n).data == h.data
  {
    if n > 0 {
      VisitsKeepData(h, n - 1);
      VisitKeepsData(VisitUpTo(h, n - 1));
    }
  }

  /** The hub after a move of the watcher with the whole of its broadcast. */
  ghost function HubOnce<T, V(!new)>(kind: Kind<T, V>, j: Joint<T, V>, move: Move): (h: Hub<V>)
    requires Ranged(j)
  {
    var data := Play(kind, j.world, move).core.data;
    match Noticed(kind, j.world, move)
    case None => j.hub.(data := data)
    case Some(n) => BroadcastAll(j.hub, data, n.keys, n.action)
  }

  lemma {:induction false} MoveWhole<T, V(!new)>(
      kind: Kind<T, V>, j: Joint<T, V>, move: Move) returns (j': Joint<T, V>)
    requires Ranged(j) && j.hub.phase.Idle? && !move.StoreChanges?
    ensures Ranged(j') && Reaches(kind, j, j')
    ensures j'.world == Play(kind, j.world, move) && j'.hub == HubOnce(kind, j, move)
    ensures j'.hub.phase.Idle? && j'.hub.data == j'.world.core.data
  {
    j' := JointNext(kind, j, ByWatcher(move));
    OneMove(kind, j, ByWatcher(move));
    if Noticed(kind, j.world, move).Some? {
      var next := j';
      BroadcastIsReached(kind, next);
      VisitsKeepData(next.hub, |next.hub.slots|);
      j' := next.(hub := Finish(VisitUpTo(next.hub, |next.hub.slots|)));
      Onward(kind, j, next, j');
    }
  }

  // ----- the events of a stretch of the history -----

  /** The events a watch of root reports of the changes from start to n. */
  function EventsSeen(root: string, history: seq<Change>, start: nat, n: nat): seq<Event>
    requires start <= n <= |history|
    decreases n
  {
    if n == start then []
    else
      EventsSeen(root, history, start, n - 1) +
      if Visible(root, history[n - 1]) then [WatchEvent(history[n - 1], n)] else []
  }

  /** Between broadcasts, with a watch at the position n. */
  ghost predicate At<T, V(!new)>(j: Joint<T, V>, n: nat)
    requires Ranged(j)
  {
    j.hub.phase.Idle? && j.hub.data == j.world.core.data && j.world.phase.Up? && j.world.phase.cursor == n
  }

  lemma HandleQuietly<T, V(!new)>(kind: Kind<T, V>, core: Core<T, V>, e: Event)
    requires !Handle(kind, core, e).notify
    ensures Handle(kind, core, e).core.data == core.data
  {
  }

  /** One delivery with the whole of its broadcast. */
  lemma {:induction false} DeliverWhole<T, V(!new)>(kind: Kind<T, V>, j: Joint<T, V>) returns (j': Joint<T, V>)
    requires Ranged(j) && j.world.phase.Up? && At(j, j.world.phase.cursor) && j.world.phase.cursor < |j.world.history|
    ensures Ranged(j') && Reaches(kind, j, j')
    ensures var n := j.world.phase.cursor;
      var e := WatchEvent(j.world.history[n], n + 1);
      && At(j', n + 1) && j'.world.history == j.world.history
      && j'.world.core == Advance(kind, j.world.core, j.world.history, n)
      && j'.hub == if Visible(kind.root, j.world.history[n])
                   then Notified(j.hub, Handle(kind, j.world.core, e), e.action) else j.hub
  {
    j' := MoveWhole(kind, j, Deliver);
    HubOnceDelivers(kind, j);
  }

  lemma HubOnceDelivers<T, V(!new)>(kind: Kind<T, V>, j: Joint<T, V>)
    requires Ranged(j) && j.world.phase.Up? && At(j, j.world.phase.cursor) && j.world.phase.cursor < |j.world.history|
    ensures var n := j.world.phase.cursor;
      var e := WatchEvent(j.world.history[n], n + 1);
      HubOnce(kind, j, Deliver) == if Visible(kind.root, j.world.history[n])
                                   then Notified(j.hub, Handle(kind, j.world.core, e), e.action) else j.hub
  {
    var n := j.world.phase.cursor;
    if Visible(kind.root, j.world.history[n]) && Noticed(kind, j.world, Deliver).None? {
      HandleQuietly(kind, j.world.core, WatchEvent(j.world.history[n], n + 1));
    }
  }

  /** The state j' has handled the events seen up to n since j. */
  ghost predicate Handled<T, V(!new)>(kind: Kind<T, V>, j: Joint<T, V>, j': Joint<T, V>, start: nat, n: nat)
    requires Ranged(j) && Ranged(j') && start <= n <= |j.world.history|
  {
    var events := EventsSeen(kind.root, j.world.history, start, n);
    && At(j', n) && j'.world.history == j.world.history
    && j'.world.core == HandleEach(kind, j.world.core, events)
    && j'.hub == HubAfter(kind, j.world.core, j.hub, events)
  }

  /** Deliveries up to the position n handle the events seen, one after the other. */
  lemma {:induction false} DeliverUpTo<T, V(!new)>(kind: Kind<T, V>, j: Joint<T, V>, start: nat, n: nat)
    returns (j': Joint<T, V>)
    requires Ranged(j) && At(j, start) && start <= n <= |j.world.history|
    ensures Ranged(j') && Reaches(kind, j, j') && Handled(kind, j, j', start, n)
    decreases n
  {
    if start == n {
      j' := j;
      NoMove(kind, j);
      HandledNone(kind, j, start);
    } else {
      var before := DeliverUpTo(kind, j, start, n - 1);
      j' := DeliverOneMore(kind, j, before, start, n);
      Onward(kind, j, before, j');
    }
  }

  lemma HandledNone<T, V(!new)>(kind: Kind<T, V>, j: Joint<T, V>, start: nat)
    requires Ranged(j) && At(j, start) && start <= |j.world.history|
    ensures Handled(kind, j, j, start, start)
  {
  }

  lemma {:induction false} DeliverOneMore<T, V(!new)>(
      kind: Kind<T, V>, j: Joint<T, V>, before: Joint<T, V>, start: nat, n: nat) returns (j': Joint<T, V>)
    requires Ranged(j) && Ranged(before) && start < n <= |j.world.history| && Handled(kind, j, before, start, n - 1)
    ensures Ranged(j') && Reaches(kind, before, j') && Handled(kind, j, j', start, n)
  {
    j' := DeliverWhole(kind, before);
    HandledMore(kind, j, before, j', start, n);
  }

  lemma {:induction false} HandledMore<T, V(!new)>(
      kind: Kind<T, V>, j: Joint<T, V>, before: Joint<T, V>, j': Joint<T, V>, start: nat, n: nat)
    requires Ranged(j) && Ranged(before) && Ranged(j') && start < n <= |j.world.history|
    requires Handled(kind, j, before, start, n - 1)
    requires At(j', n) && j'.world.history == before.world.history
    requires j'.world.core == Advance(kind, before.world.core, before.world.history, n - 1)
    requires var e := WatchEvent(before.world.history[n - 1], n);
      j'.hub == if Visible(kind.root, before.world.history[n - 1])
                then Notified(before.hub, Handle(kind, before.world.core, e), e.action) else before.hub
    ensures Handled(kind, j, j', start, n)
  {
    OneEventMore(kind, j.world.core, j.hub, j.world.history, start, n);
  }

  lemma {:induction false} OneEventMore<T, V(!new)>(
      kind: Kind<T, V>, core: Core<T, V>, h: Hub<V>, history: seq<Change>, start: nat, n: nat)
    requires InRange(h) && start < n <= |history|
    ensures var events, init := EventsSeen(kind.root, history, start, n),
            EventsSeen(kind.root, history, start, n - 1);
      var before := HandleEach(kind, core, init);
      var e := WatchEvent(history[n - 1], n);
      && HandleEach(kind, core, events) == Advance(kind, before, history, n - 1)
      && HubAfter(kind, core, h, events) ==
           if Visible(kind.root, history[n - 1])
           then Notified(HubAfter(kind, core, h, init), Handle(kind, before, e), e.action)
           else HubAfter(kind, core, h, init)
  {
    var init := EventsSeen(kind.root, history, start, n - 1);
    if Visible(kind.root, history[n - 1]) {
      var e := WatchEvent(history[n - 1], n);
      assert (init + [e])[..|init|] == init;
    } else {
      assert init + [] == init;
    }
  }

  // ----- one turn -----

  lemma {:induction false} StoreAll<T, V(!new)>(
      kind: Kind<T, V>, j: Joint<T, V>, more: seq<Change>) returns (j': Joint<T, V>)
    requires Ranged(j) && forall i :: 0 <= i < |more| ==> Legal(kind.root, more[i])
    ensures Ranged(j') && Reaches(kind, j, j')
    ensures j' == j.(world := j.world.(history := j.world.history + more))
    decreases |more|
  {
    if more == [] {
      NoMove(kind, j);
      j' := j;
      assert j.world.history + more == j.world.history;
    } else {
      var init, last := more[..|more| - 1], more[|more| - 1];
      var before := StoreAll(kind, j, init);
      OneMove(kind, before, ByWatcher(StoreChanges(last)));
      j' := JointNext(kind, before, ByWatcher(StoreChanges(last)));
      Onward(kind, j, before, j');
      assert j.world.history + init + [last] == j.world.history + more;
    }
  }

  /** Where a watch begins that opens now. */
  function Opening<T, V(!new)>(w: World<T, V>): nat
  {
    if w.core.lastIndex == 0 then |w.history| else w.core.lastIndex
  }

  /** The refresh with its broadcast, and the opening of the watch. */
  lemma {:induction false} ConnectWhole<T, V(!new)>(
      kind: Kind<T, V>, j: Joint<T, V>, tree: Tree) returns (j': Joint<T, V>)
    requires Ranged(j) && j.hub.phase.Idle? && j.hub.data == j.world.core.data
             && Refreshes(kind, j.world, ReadTree(tree))
    ensures Ranged(j') && Reaches(kind, j, j')
    ensures var read := Refreshed(kind, j.world.core, tree).0;
      && At(j', Opening(j.world)) && j'.world.history == j.world.history
      && j'.world.core == read.(broadcastAfterRefresh := false)
      && j'.hub == RefreshedHub(j.world.core, j.hub, read.data)
  {
    var read := MoveWhole(kind, j, ReadTree(tree));
    OneMove(kind, read, ByWatcher(OpenWatch));
    OpenKeepsReceivers(kind, read);
    j' := JointNext(kind, read, ByWatcher(OpenWatch));
    Onward(kind, j, read, j');
  }

  lemma OpenKeepsReceivers<T, V(!new)>(kind: Kind<T, V>, j: Joint<T, V>)
    requires Ranged(j) && j.hub.phase.Idle? && j.hub.data == j.world.core.data && j.world.phase.Ready?
    ensures var j' := JointNext(kind, j, ByWatcher(OpenWatch));
      At(j', Opening(j.world)) && j'.hub == j.hub && j'.world.history == j.world.history
        && j'.world.core == j.world.core
  {
  }

  /** One turn of the outer loop, from the refresh to the loss of the connection after the change
      at position n, while the store makes the further changes given: what the class does with
      the events seen, some moves of the machine do. */
  lemma {:induction false} WatchStoreIsAJointRun<T, V(!new)>(
      kind: Kind<T, V>, j: Joint<T, V>, tree: Tree, further: seq<Change>, n: nat) returns (j': Joint<T, V>)
    requires Ranged(j) && j.hub.phase.Idle? && j.hub.data == j.world.core.data && j.world.phase.Down?
    requires Answers(tree, StoreAt(j.world.history, |j.world.history|), kind.root)
    requires Opening(j.world) <= n <= |j.world.history + further|
    requires forall i :: 0 <= i < |further| ==> Legal(kind.root, further[i])
    ensures Reaches(kind, j, j')
    ensures var events := EventsSeen(kind.root, j.world.history + further, Opening(j.world), n);
      && j'.world.core == TurnCore(kind, j.world.core, tree, events)
      && j'.hub == TurnHub(kind, j.world.core, j.hub, tree, events)
  {
    if !Refreshed(kind, j.world.core, tree).1 {
      OneMove(kind, j, ByWatcher(ReadTree(tree)));
      j' := JointNext(kind, j, ByWatcher(ReadTree(tree)));
      FailureKeepsData(kind, j.world.core, tree);
    } else {
      var connected := ConnectWhole(kind, j, tree);
      j' := FollowAndLose(kind, connected, further, Opening(j.world), n);
      Onward(kind, j, connected, j');
    }
  }

  lemma {:induction false} FollowAndLose<T, V(!new)>(
      kind: Kind<T, V>, j: Joint<T, V>, further: seq<Change>, start: nat, n: nat) returns (j': Joint<T, V>)
    requires Ranged(j) && At(j, start) && start <= n <= |j.world.history + further|
    requires forall i :: 0 <= i < |further| ==> Legal(kind.root, further[i])
    ensures Ranged(j') && Reaches(kind, j, j')
    ensures var events := EventsSeen(kind.root, j.world.history + further, start, n);
      && j'.world.core == HandleEach(kind, j.world.core, events).(broadcastAfterRefresh := true)
      && j'.hub == HubAfter(kind, j.world.core, j.hub, events)
  {
    var stored := StoreAll(kind, j, further);
    var handled := DeliverUpTo(kind, stored, start, n);
    Onward(kind, j, stored, handled);
    OneMove(kind, handled, ByWatcher(Lose));
    j' := JointNext(kind, handled, ByWatcher(Lose));
    LosingKeepsReceivers(kind, handled);
    Onward(kind, j, handled, j');
  }

  lemma LosingKeepsReceivers<T, V(!new)>(kind: Kind<T, V>, j: Joint<T, V>)
    requires Ranged(j) && j.world.phase.Up? && At(j, j.world.phase.cursor)
    ensures var j' := JointNext(kind, j, ByWatcher(Lose));
      j'.hub == j.hub && j'.world.core == j.world.core.(broadcastAfterRefresh := true)
  {
  }

  lemma FailureKeepsData<T, V(!new)>(kind: Kind<T, V>, core: Core<T, V>, tree: Tree)
    requires !Refreshed(kind, core, tree).1
    ensures Refreshed(kind, core, tree).0.data == core.data
  {
  }
}
