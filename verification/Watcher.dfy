/** The base watcher: it reads the store's tree into the cache, applies the store's events to
    it, and broadcasts the keys that changed. */
module Watcher {
  import opened Text
  import opened Store
  import opened Cacher
  import opened Broadcast
  import opened Sender

  /** A kind of watcher: the directory it watches and its two conversions. A conversion may
      keep a table of type T between calls; a result of None is a conversion error. */
  datatype Kind<!T, !V> = Kind(
    root: string,
    convert: (T, seq<KVPair>) -> (Option<Data<V>>, T),
    invertKey: (T, string) -> string)

  /** What the watcher keeps from step to step, besides its receivers. */
  datatype Core<T, V> = Core(data: Data<V>, table: T, lastIndex: nat, broadcastAfterRefresh: bool)

  /** GetTree's answer. */
  datatype Tree = Pairs(pairs: seq<KVPair>) | KeyNotFound | Failed

  /** The cache replaced by the converted tree; false and the old data when that fails. */
  function Refreshed<T, V>(kind: Kind<T, V>, core: Core<T, V>, tree: Tree): (Core<T, V>, bool)
  {
    if tree.Failed? then (core, false)
    else
      var (result, table) := kind.convert(core.table, if tree.Pairs? then tree.pairs else []);
      if result.None? then (core.(table := table), false)
      else (core.(data := result.value, table := table), true)
  }

  /** The state after an event, and the keys to broadcast, if any. */
  datatype Outcome<T, V> = Outcome(core: Core<T, V>, notify: bool, keys: set<string>)

  /** The cached keys whose store key starts with path. */
  function Hit<T, V>(kind: Kind<T, V>, core: Core<T, V>, path: string): set<string>
  {
    set k | k in core.data && path <= kind.invertKey(core.table, k)
  }

  /** The data without every key that extends one of the given keys. */
  function Evict<V>(data: Data<V>, hit: set<string>): Data<V>
  {
    map k | k in data && !(exists x :: x in hit && x <= k) :: data[k]
  }

  lemma EvictMore<V>(data: Data<V>, hit: set<string>, k: string)
    ensures Evict(data, hit) - Removed(Evict(data, hit), k, true) == Evict(data, hit + {k})
  {
  }

  function Handle<T, V>(kind: Kind<T, V>, core: Core<T, V>, e: Event): Outcome<T, V>
  {
    match e.action
    case SET => Absorb(kind, core, e)
    case UPDATE => Absorb(kind, core, e)
    case DELETE =>
      var hit := Hit(kind, core, e.key);
      Outcome(core.(data := Evict(core.data, hit), lastIndex := e.modifiedIndex), true, hit)
    case _ => Outcome(core, false, {})
  }

  function Absorb<T, V>(kind: Kind<T, V>, core: Core<T, V>, e: Event): Outcome<T, V>
  {
    var (result, table) := kind.convert(core.table, e.data);
    if result.None? then Outcome(core.(table := table), false, {})
    else
      Outcome(core.(data := Overlay(core.data, result.value), table := table, lastIndex := e.modifiedIndex),
              true, result.value.Keys)
  }

  /** An event's broadcast names every key it changed exactly when no cached key outside the
      hits extends a hit; events that set keys always name them all. */
  lemma DeltaIsAnnounced<T, V>(kind: Kind<T, V>, core: Core<T, V>, e: Event)
    ensures AgreeOutside(core.data, Handle(kind, core, e).core.data, Handle(kind, core, e).keys) <==>
            (e.action.DELETE? ==>
               forall x, k :: x in Hit(kind, core, e.key) && k in core.data && x <= k ==> k in Hit(kind, core, e.key))
  {
    if e.action.DELETE? {
      var hit := Hit(kind, core, e.key);
      var data := Evict(core.data, hit);
      if forall x, k :: x in hit && k in core.data && x <= k ==> k in hit {
        assert AgreeOutside(core.data, data, hit);
      }
      if AgreeOutside(core.data, data, hit) {
        forall x, k | x in hit && k in core.data && x <= k
          ensures k in hit
        {
          assert k !in data;
        }
      }
    }
  }

  class BaseWatcher<T, V> {
    const kind: Kind<T, V>
    const sender: Sender<V>
    var table: T
    var lastIndex: nat
    var broadcastAfterRefresh: bool
    var keys: seq<string>   // the buffer of changed keys, reused from event to event

    ghost function State(): Core<T, V>
      reads this, sender.cacher
    {
      Core(sender.cacher.data, table, lastIndex, broadcastAfterRefresh)
    }

    ghost predicate Valid()
      reads this, sender, sender.cacher, sender.registered
    {
      sender.Valid() && keys == []
    }

    constructor (kind: Kind<T, V>, table: T)
      ensures Valid() && this.kind == kind && State() == Core(map[], table, 0, false)
      ensures sender.View() == Start(map[])
    {
      this.kind, this.table := kind, table;
      sender := new Sender<V>(map[]);
      lastIndex, broadcastAfterRefresh, keys := 0, false, [];
    }

    method Refresh(tree: Tree) returns (ok: bool)
      requires Valid()
      modifies this`table, sender.cacher
      ensures Valid() && (State(), ok) == Refreshed(kind, old(State()), tree)
      ensures sender.View() == old(sender.View()).(data := State().data)
    {
      if tree.Failed? {
        return false;
      }
      var pairs := if tree.Pairs? then tree.pairs else [];
      var (result, newTable) := kind.convert(table, pairs);
      table := newTable;
      ok := result.Some?;
      if ok {
        sender.cacher.Reset(result.value);
      }
    }

    /** The head of the outer loop: refresh, and after a lost connection broadcast every key
        the cache has then. */
    method Connect(tree: Tree) returns (ok: bool)
      requires Valid()
      modifies this`table, this`broadcastAfterRefresh
      modifies sender`receivers, sender`clears, sender.cacher, sender.registered
      ensures Valid()
      ensures var (core, done) := Refreshed(kind, old(State()), tree);
        && ok == done
        && State() == (if done then core.(broadcastAfterRefresh := false) else core)
        && sender.View() ==
             if done && old(broadcastAfterRefresh)
               then BroadcastAll(old(sender.View()), core.data, core.data.Keys, SET)
             else old(sender.View()).(data := core.data)
    {
      ghost var h := sender.View();
      ok := Refresh(tree);
      if ok && broadcastAfterRefresh {
        var allKeys := sender.cacher.GetAllKeys();
        BroadcastResets(h, sender.cacher.data, sender.cacher.data, Members(allKeys), SET);
        sender.Broadcast(allKeys, SET);
        broadcastAfterRefresh := false;
      }
    }

    /** The branch for SET and UPDATE: put every converted pair, in any order. */
    method PutAll(delta: Data<V>)
      requires keys == []
      modifies this`keys, sender.cacher
      ensures sender.cacher.data == Overlay(old(sender.cacher.data), delta)
      ensures Distinct(keys) && Members(keys) == delta.Keys
    {
      var rest := delta.Keys;
      ghost var before := sender.cacher.data;
      ghost var put: Data<V> := map[];
      assert before == Overlay(before, put);
      while rest != {}
        invariant rest <= delta.Keys && put == delta - rest
        invariant Distinct(keys) && Members(keys) == delta.Keys - rest
        invariant sender.cacher.data == Overlay(before, put)
        decreases rest
      {
        var k :| k in rest;
        rest := rest - {k};
        sender.cacher.Put(k, delta[k]);
        MembersAppend(keys, k);
        keys := keys + [k];
        OverlayPut(before, put, k, delta[k]);
        put := put[k := delta[k]];
      }
      assert put == delta;
    }

    /** The branch for DELETE: walk a snapshot of the keys, and delete recursively from each
        one whose store key starts with path. */
    method DeleteAll(path: string)
      requires keys == []
      modifies this`keys, sender.cacher
      ensures sender.cacher.data == Evict(old(sender.cacher.data), Hit(kind, old(State()), path))
      ensures Distinct(keys) && Members(keys) == Hit(kind, old(State()), path)
    {
      ghost var core := State();
      var allKeys := sender.cacher.GetAllKeys();
      for i := 0 to |allKeys|
        invariant Distinct(keys) && Members(keys) == Members(allKeys[..i]) * Hit(kind, core, path)
        invariant sender.cacher.data == Evict(core.data, Members(keys))
        invariant table == core.table
      {
        var k := allKeys[i];
        assert allKeys[..i + 1] == allKeys[..i] + [k];
        MembersAppend(allKeys[..i], k);
        assert k !in Members(allKeys[..i]) && k in Members(allKeys);
        if path <= kind.invertKey(table, k) {
          EvictMore(core.data, Members(keys), k);
          var _ := sender.cacher.Delete(k, true);
          MembersAppend(keys, k);
          keys := keys + [k];
        }
      }
      assert allKeys[..|allKeys|] == allKeys;
      assert Members(keys) == Hit(kind, core, path);
    }

    /** Broadcasts the buffered keys and empties the buffer. */
    method Announce(action: Action, ghost h: Hub<V>)
      requires sender.Linked() && Safe(h) && sender.View() == h.(data := sender.cacher.data)
      modifies this`keys, sender`receivers, sender`clears, sender.registered
      ensures Valid()
      ensures sender.View() == BroadcastAll(h, sender.cacher.data, Members(old(keys)), action)
    {
      BroadcastResets(h, sender.cacher.data, sender.cacher.data, Members(keys), action);
      sender.Broadcast(keys, action);
      keys := [];
    }

    /** One event from the store's channel. */
    method HandleEvent(e: Event)
      requires Valid()
      modifies this`table, this`lastIndex, this`keys
      modifies sender`receivers, sender`clears, sender.cacher, sender.registered
      ensures Valid()
      ensures var outcome := Handle(kind, old(State()), e);
        && State() == outcome.core
        && sender.View() ==
             if outcome.notify then BroadcastAll(old(sender.View()), outcome.core.data, outcome.keys, e.action)
             else old(sender.View())
    {
      ghost var h := sender.View();
      match e.action {
        case SET | UPDATE =>
          var (result, newTable) := kind.convert(table, e.data);
          table := newTable;
          if result.None? {
            return;
          }
          PutAll(result.value);
        case DELETE =>
          DeleteAll(e.key);
        case _ =>
          return;
      }
      lastIndex := e.modifiedIndex;
      Announce(e.action, h);
    }

    /** One turn of the outer loop: connect, handle the events of one channel until it is
        closed, and remember to broadcast after the next refresh. */
    method WatchStore(tree: Tree, events: seq<Event>)
      requires Valid()
      modifies this`table, this`lastIndex, this`keys, this`broadcastAfterRefresh
      modifies sender`receivers, sender`clears, sender.cacher, sender.registered
      ensures Valid()
      ensures State() == TurnCore(kind, old(State()), tree, events)
      ensures sender.View() == TurnHub(kind, old(State()), old(sender.View()), tree, events)
    {
      var ok := Connect(tree);
      if !ok {
        return;
      }
      ghost var core, h := State(), sender.View();
      for i := 0 to |events|
        invariant Valid() && State() == HandleEach(kind, core, events[..i])
        invariant sender.View() == HubAfter(kind, core, h, events[..i])
      {
        assert events[..i + 1][..i] == events[..i];
        HandleEvent(events[i]);
      }
      assert events[..|events|] == events;
      broadcastAfterRefresh := true;
    }

    /** None is the error for an empty key. */
    method Watch(prefix: string) returns (r: Option<Receiver<V>>)
      requires Valid()
      modifies sender
      ensures Valid() && (r.Some? <==> prefix != "")
      ensures r.Some? ==> r.value.key == (if prefix == "*" then "" else prefix) && r.value.pending == []
      ensures sender.View() == if prefix == "" then old(sender.View())
                               else Next(old(sender.View()), Step.Watch(if prefix == "*" then "" else prefix))
    {
      if prefix == "" {
        return None;
      }
      var receiver := sender.Watch(if prefix == "*" then "" else prefix);
      return Some(receiver);
    }

    method Get(prefix: string) returns (r: Option<Data<V>>)
      requires Valid()
      ensures r == Query(sender.cacher.data, prefix)
    {
      if prefix == "" {
        return None;
      }
      var data;
      if prefix == "*" {
        data := sender.cacher.GetAll();
      } else {
        data := sender.cacher.Get(prefix);
      }
      return Some(data);
    }
  }

  function Query<V>(data: Data<V>, prefix: string): Option<Data<V>>
  {
    if prefix == "" then None else if prefix == "*" then Some(data) else Some(Lookup(data, prefix))
  }

  /** What a receiver registered for prefix is sent. */
  function Pushed<V>(data: Data<V>, prefix: string): Data<V>
  {
    Lookup(data, if prefix == "*" then "" else prefix)
  }

  /** A query and a watch of the same prefix show the same data; for "*" this holds exactly
      when the cache has no entry with the empty key besides others. */
  lemma QueryAgreesWithPush<V>(data: Data<V>, prefix: string)
    requires prefix != ""
    ensures Query(data, prefix) == Some(Pushed(data, prefix)) <==>
            (prefix == "*" ==> "" !in data || data.Keys == {""})
  {
    LookupEverything(data);
  }

  function HandleEach<T, V>(kind: Kind<T, V>, core: Core<T, V>, events: seq<Event>): Core<T, V>
    decreases |events|
  {
    if events == [] then core
    else Handle(kind, HandleEach(kind, core, events[..|events| - 1]), events[|events| - 1]).core
  }

  /** The receivers' side of the same events. */
  ghost function HubAfter<T, V>(kind: Kind<T, V>, core: Core<T, V>, h: Hub<V>, events: seq<Event>): (h': Hub<V>)
    requires InRange(h)
    ensures InRange(h')
    decreases |events|
  {
    if events == [] then h
    else
      var init, e := events[..|events| - 1], events[|events| - 1];
      var outcome := Handle(kind, HandleEach(kind, core, init), e);
      Notified(HubAfter(kind, core, h, init), outcome, e.action)
  }

  ghost function Notified<T, V>(h: Hub<V>, outcome: Outcome<T, V>, action: Action): (h': Hub<V>)
    requires InRange(h)
    ensures InRange(h')
  {
    if outcome.notify then BroadcastAll(h, outcome.core.data, outcome.keys, action) else h
  }

  /** The watcher after one turn of its outer loop, which got this tree and these events. */
  function TurnCore<T, V>(kind: Kind<T, V>, core: Core<T, V>, tree: Tree, events: seq<Event>): Core<T, V>
  {
    var (read, done) := Refreshed(kind, core, tree);
    if !done then read
    else HandleEach(kind, read.(broadcastAfterRefresh := false), events).(broadcastAfterRefresh := true)
  }

  /** And the receivers' side of it. */
  ghost function TurnHub<T, V>(
      kind: Kind<T, V>, core: Core<T, V>, h: Hub<V>, tree: Tree, events: seq<Event>): (h': Hub<V>)
    requires InRange(h)
  {
    var (read, done) := Refreshed(kind, core, tree);
    if !done then h.(data := read.data)
    else HubAfter(kind, read.(broadcastAfterRefresh := false), RefreshedHub(core, h, read.data), events)
  }

  /** After a refresh: everything is broadcast if the connection was lost before. */
  ghost function RefreshedHub<T, V>(core: Core<T, V>, h: Hub<V>, data: Data<V>): (h': Hub<V>)
    requires InRange(h)
    ensures InRange(h')
  {
    if core.broadcastAfterRefresh then BroadcastAll(h, data, data.Keys, SET) else h.(data := data)
  }
}
