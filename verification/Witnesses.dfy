/** Runs in which what a client sees falls behind the cache: a change between a request's first
    query and its registration, and a refresh that leaves a receiver's range empty. */
module Witnesses {
  import opened Text
  import opened Paths
  import opened Store
  import opened Cacher
  import opened Broadcast
  import opened Watcher
  import opened Replica
  import opened Joint
  import opened PathWatcher
  import HW = HandleWatch
  import EventStream

  type JointState<V> = Joint<(), V>

  function Empty<V>(): Core<(), V>
  {
    Core(map[], (), 0, false)
  }

  function Holding<V>(root: string, parse: string -> Option<V>, c: Change): Data<V>
  {
    map[CacheKey(root, c.key) := parse(c.value)]
  }

  /** A change that stores a value a path watcher of root can read. */
  ghost predicate Storing<V>(root: string, parse: string -> Option<V>, c: Change)
  {
    Legal(root, c) && c.Writes() && Under(root, c.key) && parse(c.value).Some?
  }

  /** Connected to the empty store, before the change and after it was made. */
  function Connected<V>(history: seq<Change>): JointState<V>
  {
    Joint(World(history, Empty(), Up(0, 0, 0, Empty(), KeyNotFound)), Start(map[]), {})
  }

  lemma ConnectToNothing<V>(root: Root, parse: string -> Option<V>) returns (moves: seq<JointMove<V>>)
    ensures JointAll(PathKind(root, parse), (), moves) == Connected([])
  {
    var kind := PathKind(root, parse);
    moves := [];
    JointOneMore(kind, (), moves, ByWatcher(ReadTree(KeyNotFound)));
    moves := moves + [ByWatcher(ReadTree(KeyNotFound))];
    var read: JointState<V> := Joint(World([], Empty(), Ready(0, Empty(), KeyNotFound)), Start(map[]), {});
    assert JointAll(kind, (), moves) == read by {
      assert Below(root, StoreAt([], 0)) == map[];
    }
    JointOneMore(kind, (), moves, ByWatcher(OpenWatch));
    moves := moves + [ByWatcher(OpenWatch)];
  }

  /** The state after the change was delivered and broadcast to nobody. */
  function Told<V>(root: string, parse: string -> Option<V>, c: Change): JointState<V>
  {
    var data := Holding(root, parse, c);
    Joint(World([c], Core(data, (), 1, false), Up(0, 0, 1, Empty(), KeyNotFound)), Start(data), {})
  }

  lemma DeliverOne<V>(root: Root, parse: string -> Option<V>, c: Change)
    requires Storing(root, parse, c)
    ensures Handle(PathKind(root, parse), Empty(), WatchEvent(c, 1)) ==
            Outcome(Core(Holding(root, parse, c), (), 1, false), true, {CacheKey(root, c.key)})
  {
    ConvertedOne(root, parse, KVPair(c.key, c.value, 1));
    assert Overlay(map[], Holding(root, parse, c)) == Holding(root, parse, c);
  }

  function Telling<V>(root: string, parse: string -> Option<V>, c: Change): JointState<V>
  {
    Told(root, parse, c).(hub := Begin(Start(map[]), Holding(root, parse, c), {CacheKey(root, c.key)},
      ActionMap(c.op)))
  }

  lemma DeliverTells<V>(root: Root, parse: string -> Option<V>, c: Change)
    requires Storing(root, parse, c)
    ensures JointNext(PathKind(root, parse), Connected([c]), ByWatcher(Deliver)) == Telling(root, parse, c)
  {
    DeliverOne(root, parse, c);
  }

  lemma StoreAndDeliver<V>(root: Root, parse: string -> Option<V>, c: Change, moves: seq<JointMove<V>>)
    returns (more: seq<JointMove<V>>)
    requires Storing(root, parse, c) && JointAll(PathKind(root, parse), (), moves) == Connected([])
    ensures moves <= more && JointAll(PathKind(root, parse), (), more) == Told(root, parse, c)
  {
    var kind := PathKind(root, parse);
    JointOneMore(kind, (), moves, ByWatcher(StoreChanges(c)));
    more := moves + [ByWatcher(StoreChanges(c))];
    assert JointAll(kind, (), more) == Connected([c]) by {
      assert [] + [c] == [c];
    }
    JointOneMore(kind, (), more, ByWatcher(Deliver));
    more := more + [ByWatcher(Deliver)];
    DeliverTells(root, parse, c);
    JointOneMore(kind, (), more, ByReceivers(EndBroadcast));
    more := more + [ByReceivers(EndBroadcast)];
    EndTelling(root, parse, c);
  }

  lemma EndTelling<V>(root: Root, parse: string -> Option<V>, c: Change)
    ensures JointNext(PathKind(root, parse), Telling(root, parse, c), ByReceivers(EndBroadcast)) ==
            Told(root, parse, c)
  {
    assert Finish(Telling(root, parse, c).hub) == Start(Holding(root, parse, c));
  }

  /** Then a receiver of everything registers. */
  function Registered<V>(root: string, parse: string -> Option<V>, c: Change): JointState<V>
  {
    var data := Holding(root, parse, c);
    Told(root, parse, c).(hub := Hub(data, [Register("", data)], [Some(0)], 0, false, Idle))
  }

  lemma RegisterLate<V>(root: Root, parse: string -> Option<V>, c: Change)
    returns (asked: seq<JointMove<V>>, moves: seq<JointMove<V>>)
    requires Storing(root, parse, c)
    ensures asked <= moves
    ensures JointAll(PathKind(root, parse), (), asked).world.core.data == map[]
    ensures JointAll(PathKind(root, parse), (), moves) == Registered(root, parse, c)
  {
    asked := ConnectToNothing(root, parse);
    moves := StoreAndDeliver(root, parse, c, asked);
    JointOneMore(PathKind(root, parse), (), moves, ByReceivers(Broadcast.Watch("")));
    moves := moves + [ByReceivers(Broadcast.Watch(""))];
  }

  /** The first receiver watches everything and has read everything, no refresh passed it over,
      and yet the last frame of its request, first answered with data, does not show the
      present view. */
  ghost predicate LeftBehind<V, W>(api: HW.Api<V, W>, data: Data<V>, j: JointState<V>)
    requires Ranged(j)
  {
    && HW.Settled(j.hub, 0) && j.overlooked == {} && j.hub.subs[0].key == ""
    && LastMisses(api, Lookup(j.hub.data, ""), HW.DataFrames(HW.Stream(api, Some(data), j.hub.subs[0].taken)))
  }

  ghost predicate LastMisses<V, W>(api: HW.Api<V, W>, now: Data<V>, frames: seq<EventStream.Message>)
  {
    frames != [] && !HW.FrameShows(api, now, frames[|frames| - 1])
  }

  /** A request that asks before the change and registers after it: it has read everything there
      is for it, and still its last frame does not show the present view. */
  lemma FirstQueryCanMiss<V, W(!new)>(root: Root, parse: string -> Option<V>, c: Change, api: HW.Api<V, W>)
    returns (asked: seq<JointMove<V>>, moves: seq<JointMove<V>>)
    requires Storing(root, parse, c) && HW.Reports(api.changed) && HW.Showable(api, map[])
    requires !HW.Alike(api, map[], Holding(root, parse, c))
    ensures asked <= moves
    ensures Query(JointAll(PathKind(root, parse), (), asked).world.core.data, "*") == Some(map[])
    ensures LeftBehind(api, map[], JointAll(PathKind(root, parse), (), moves))
  {
    asked, moves := RegisterLate(root, parse, c);
    var data := Holding(root, parse, c);
    HoldingIsAnswered(root, parse, c);
    HW.LastFrameShows(api, map[], [], data);
  }

  /** A receiver that registered with an answer, whose key is then removed while the connection
      is lost: the refresh broadcasts no key, and the receiver keeps the old answer. */
  lemma RefreshCanOverlook<V>(root: Root, parse: string -> Option<V>, c: Change) returns (moves: seq<JointMove<V>>)
    requires Storing(root, parse, c)
    ensures var j := JointAll(PathKind(root, parse), (), moves);
      && HW.Settled(j.hub, 0) && j.overlooked == {0}
      && j.hub.subs[0].Held() == Holding(root, parse, c) && j.hub.data == j.world.core.data == map[]
  {
    var kind := PathKind(root, parse);
    var _, registered := RegisterLate(root, parse, c);
    var lost := LoseAndRemove(root, parse, c, registered);
    moves := RefreshToNothing(root, parse, c, lost);
  }

  function Lost<V>(root: string, parse: string -> Option<V>, c: Change): JointState<V>
  {
    var j := Registered(root, parse, c);
    j.(world := World([c, Change(OpDelete, c.key, "")], j.world.core.(broadcastAfterRefresh := true), Down))
  }

  lemma LoseAndRemove<V>(root: Root, parse: string -> Option<V>, c: Change, moves: seq<JointMove<V>>)
    returns (more: seq<JointMove<V>>)
    requires Storing(root, parse, c) && JointAll(PathKind(root, parse), (), moves) == Registered(root, parse, c)
    ensures JointAll(PathKind(root, parse), (), more) == Lost(root, parse, c)
  {
    var kind := PathKind(root, parse);
    var j := Registered(root, parse, c);
    JointOneMore(kind, (), moves, ByWatcher(Lose));
    more := moves + [ByWatcher(Lose)];
    var down := j.(world := World([c], j.world.core.(broadcastAfterRefresh := true), Down));
    assert Overlook(j.hub, {}, j.hub.data, {}) == {};
    assert JointAll(kind, (), more) == down;
    var d := Change(OpDelete, c.key, "");
    JointOneMore(kind, (), more, ByWatcher(StoreChanges(d)));
    more := more + [ByWatcher(StoreChanges(d))];
    assert [c] + [d] == [c, d];
  }

  lemma NothingIsLeft(root: string, c: Change)
    requires c.Writes()
    ensures Below(root, StoreAt([c, Change(OpDelete, c.key, "")], 2)) == map[]
  {
    var history := [c, Change(OpDelete, c.key, "")];
    assert StoreAt(history, 0) == map[];
    assert StoreAt(history, 1) == Commit(map[], c) == map[c.key := c.value];
    assert StoreAt(history, 2) == Commit(StoreAt(history, 1), history[1]) == map[];
  }

  /** The refresh found nothing; it has visited so many slots. */
  ghost predicate Emptied<V>(root: string, parse: string -> Option<V>, c: Change, j: JointState<V>, visited: nat)
  {
    && j.hub.slots == [Some(0)] && j.hub.subs == Registered(root, parse, c).hub.subs
    && j.hub.data == j.world.core.data == map[] && j.overlooked == {0}
    && j.hub.phase.Sending? && j.hub.phase.next == visited && j.hub.phase.keys == {} && |j.hub.phase.base| == 1
  }

  lemma ReadNothing<V>(root: Root, parse: string -> Option<V>, c: Change)
    requires Storing(root, parse, c)
    ensures Emptied(root, parse, c,
            JointNext(PathKind(root, parse), Lost(root, parse, c), ByWatcher(ReadTree(KeyNotFound))), 0)
  {
    var j := Lost(root, parse, c);
    NothingIsLeft(root, c);
    var data := Holding(root, parse, c);
    RefreshOverlooks(j.hub, {}, map[], 0);
    assert CacheKey(root, c.key) in Range(data, "");
    assert Overlook(j.hub, {}, map[], {}) == {0} by {
      assert Overlook(j.hub, {}, map[], {}) <= {0};
    }
  }

  lemma VisitNobody<V>(root: Root, parse: string -> Option<V>, c: Change, j: JointState<V>)
    requires Ranged(j) && Emptied(root, parse, c, j, 0)
    ensures Emptied(root, parse, c, JointNext(PathKind(root, parse), j, ByReceivers(VisitNext)), 1)
  {
    assert !Matches(j.hub.phase.keys, "");
  }

  lemma RefreshToNothing<V>(root: Root, parse: string -> Option<V>, c: Change, moves: seq<JointMove<V>>)
    returns (more: seq<JointMove<V>>)
    requires Storing(root, parse, c) && JointAll(PathKind(root, parse), (), moves) == Lost(root, parse, c)
    ensures var j := JointAll(PathKind(root, parse), (), more);
      && HW.Settled(j.hub, 0) && j.overlooked == {0}
      && j.hub.subs[0].Held() == Holding(root, parse, c) && j.hub.data == j.world.core.data == map[]
  {
    var kind := PathKind(root, parse);
    ReadNothing(root, parse, c);
    JointOneMore(kind, (), moves, ByWatcher(ReadTree(KeyNotFound)));
    more := moves + [ByWatcher(ReadTree(KeyNotFound))];
    VisitNobody(root, parse, c, JointAll(kind, (), more));
    JointOneMore(kind, (), more, ByReceivers(VisitNext));
    more := more + [ByReceivers(VisitNext)];
    JointOneMore(kind, (), more, ByReceivers(EndBroadcast));
    more := more + [ByReceivers(EndBroadcast)];
    HoldingIsAnswered(root, parse, c);
  }

  lemma HoldingIsAnswered<V>(root: Root, parse: string -> Option<V>, c: Change)
    requires Storing(root, parse, c)
    ensures Lookup(Holding(root, parse, c), "") == Holding(root, parse, c)
  {
    LookupEverything(Holding(root, parse, c));
    CutAndJoin(root, c.key, "");
    assert root + "/" + "" == root + "/";
  }
}
