/** The sender: the receiver list around the cache. View() is the abstract state on which the
    broadcast protocol is defined and proved. */
module Sender {
  import opened Text
  import opened Store
  import opened Cacher
  import opened Broadcast

  class Receiver<V> {
    const key: string
    ghost const serial: nat
    ghost const start: Data<V>
    var cancelled: bool          // ctx.Done() is readable
    var closed: bool             // the channel
    var pending: seq<Note<V>>
    var counter: nat
    ghost var taken: seq<Note<V>>
    ghost var missed: bool

    ghost function State(): Subscriber<V>
      reads this
    {
      Subscriber(key, cancelled, closed, pending, counter, start, taken, missed)
    }

    constructor (key: string, ghost serial: nat, ghost data: Data<V>)
      ensures State() == Register(key, data) && this.serial == serial
    {
      this.key, this.serial, start := key, serial, Lookup(data, key);
      cancelled, closed, pending, counter := false, false, [], 2;
      taken, missed := [], false;
    }
  }

  class Sender<V> {
    const cacher: Cacher<V>
    var receivers: seq<Receiver?<V>>
    var clears: nat                       // started clean-ups
    ghost var registered: seq<Receiver<V>>

    ghost predicate Linked()
      reads this, registered
    {
      && (forall i :: 0 <= i < |registered| ==> registered[i].serial == i)
      && (forall i :: 0 <= i < |receivers| && receivers[i] != null ==>
            receivers[i].serial < |registered| && registered[receivers[i].serial] == receivers[i])
    }

    static ghost function StatesOf(list: seq<Receiver<V>>): seq<Subscriber<V>>
      reads list
    {
      seq(|list|, i requires 0 <= i < |list| reads list => list[i].State())
    }

    static ghost function SlotsOf(list: seq<Receiver?<V>>): seq<Option<nat>>
    {
      seq(|list|, i requires 0 <= i < |list| => if list[i] != null then Some(list[i].serial) else None)
    }

    ghost function View(): Hub<V>
      reads this, cacher, registered
    {
      Hub(cacher.data, StatesOf(registered), SlotsOf(receivers), clears, false, Idle)
    }

    ghost predicate Valid()
      reads this, cacher, registered
    {
      Linked() && Safe(View())
    }

    constructor (data: Data<V>)
      ensures Valid() && View() == Start(data)
      ensures fresh(cacher) && registered == []
    {
      cacher := new Cacher<V>(data);
      receivers, clears, registered := [], 0, [];
    }

    method Watch(key: string) returns (r: Receiver<V>)
      requires Valid()
      modifies this
      ensures Valid() && View() == Next(old(View()), Step.Watch(key))
      ensures fresh(r) && registered == old(registered) + [r]
      ensures r.key == key && !r.cancelled && !r.closed && r.pending == [] && r.counter == 2
    {
      ghost var h := View();
      r := new Receiver<V>(key, |registered|, cacher.data);
      receivers := receivers + [r];
      registered := registered + [r];
      OtherStepsSafe(h, Step.Watch(key));
      assert StatesOf(registered) == h.subs + [Register(key, h.data)];
      assert SlotsOf(receivers) == h.slots + [Some(|h.subs|)];
    }

    /** The context of a receiver ends. */
    method Cancel(r: Receiver<V>)
      requires Valid() && r in registered
      modifies r
      ensures Valid() && View() == Next(old(View()), Step.Cancel(r.serial))
    {
      ghost var h := View();
      OtherStepsSafe(h, Step.Cancel(r.serial));
      r.cancelled := true;
      assert StatesOf(registered) == h.subs[r.serial := h.subs[r.serial].(cancelled := true)];
      assert SlotsOf(receivers) == h.slots;
    }

    /** The reader takes the waiting note; ok is false when there is none. */
    method Receive(r: Receiver<V>) returns (ok: bool, note: Option<Note<V>>)
      requires Valid() && r in registered
      modifies r
      ensures Valid() && View() == Next(old(View()), Step.Take(r.serial))
      ensures ok == (old(r.pending) != []) && note == if ok then Some(old(r.pending)[0]) else None
    {
      ghost var h := View();
      OtherStepsSafe(h, Step.Take(r.serial));
      ok, note := r.pending != [], None;
      if ok {
        note := Some(r.pending[0]);
        r.taken := r.taken + [r.pending[0]];
        r.pending := r.pending[1..];
        assert StatesOf(registered) == h.subs[r.serial := r.State()];
      }
      assert SlotsOf(receivers) == h.slots;
    }

    /** One turn of the broadcast's loop: the slot, and whether it was nil. The channel
        operations carry Go's conditions for not panicking. */
    method VisitSlot(i: nat, keys: seq<string>, action: Action, ghost p: Phase) returns (wasNil: bool)
      requires Linked() && i < |receivers|
      requires p.Sending? && p.next == i && p.keys == Members(keys) && p.action == action
      requires Safe(View().(phase := p))
      modifies this`receivers, registered
      ensures Linked() && |receivers| == old(|receivers|)
      ensures wasNil == (old(receivers)[i] == null)
      ensures View().(phase := p.(next := i + 1, nils := p.nils + if wasNil then 1 else 0))
           == Visit(old(View()).(phase := p))
    {
      ghost var g := View().(phase := p);
      var receiver := receivers[i];
      assert g.slots[i] == SlotsOf(receivers)[i];
      wasNil := receiver == null;
      if receiver != null {
        ghost var n := receiver.serial;
        assert g.slots[i] == Some(n) && Seated(g, n);
        if receiver.cancelled {
          assert !receiver.closed;  // close panics on a closed channel
          receiver.closed := true;
          receivers := receivers[i := null];
          assert SlotsOf(receivers) == g.slots[i := None];
        } else {
          var found := Search(keys, receiver.key);
          if found {
            assert !receiver.closed;  // so does a send
            if |receiver.pending| < 1 {
              var data := cacher.Get(receiver.key);
              receiver.pending := receiver.pending + [Note(receiver.counter, action, data)];
              receiver.counter := receiver.counter + 1;
              receiver.missed := false;
            } else {
              receiver.missed := true;
            }
          }
        }
        assert StatesOf(registered) == g.subs[n := receiver.State()];
      }
    }

    /** The first i slots of the list have been visited in the broadcast that began in h. */
    ghost predicate Reached(h: Hub<V>, i: nat, nils: nat)
      reads this, cacher, registered
    {
      && InRange(h) && h.phase.Sending? && h.phase.next == 0 && i <= |h.slots|
      && Linked() && |receivers| == |h.slots|
      && VisitUpTo(h, i) == View().(phase := h.phase.(next := i, nils := nils))
    }

    method Turn(i: nat, keys: seq<string>, action: Action, ghost h: Hub<V>, nilCounter: nat) returns (nils: nat)
      requires i < |receivers| && Safe(h) && Reached(h, i, nilCounter)
      requires h.phase.keys == Members(keys) && h.phase.action == action
      modifies this`receivers, registered
      ensures Reached(h, i + 1, nils)
    {
      ghost var g := VisitUpTo(h, i);
      VisitUpToEach(h, i);
      assert |g.slots| == |h.slots| && VisitUpTo(h, i + 1) == Visit(g);
      var wasNil := VisitSlot(i, keys, action, h.phase.(next := i, nils := nilCounter));
      nils := if wasNil then nilCounter + 1 else nilCounter;
      assert View().(phase := h.phase.(next := i + 1, nils := nils)) == Visit(g);
    }

    lemma BroadcastBegins(keys: set<string>, action: Action)
      requires Valid()
      ensures Safe(Begin(View(), cacher.data, keys, action))
              && Reached(Begin(View(), cacher.data, keys, action), 0, 0)
    {
      OtherStepsSafe(View(), Publish(cacher.data, keys, action));
    }

    /** The broadcast's loop over the receiver list. */
    method VisitSlots(keys: seq<string>, action: Action, ghost h: Hub<V>) returns (nilCounter: nat)
      requires Safe(h) && Reached(h, 0, 0)
      requires h.phase.keys == Members(keys) && h.phase.action == action
      modifies this`receivers, registered
      ensures Reached(h, |h.slots|, nilCounter)
    {
      nilCounter := 0;
      for i := 0 to |receivers|
        invariant Reached(h, i, nilCounter)
      {
        nilCounter := Turn(i, keys, action, h, nilCounter);
      }
    }

    /** Offers the present data to every receiver a changed key concerns. */
    method Broadcast(keys: seq<string>, action: Action)
      requires Valid()
      modifies this`receivers, this`clears, registered
      ensures Valid()
      ensures View() == BroadcastAll(old(View()), cacher.data, Members(keys), action)
    {
      BroadcastBegins(Members(keys), action);
      ghost var h := Begin(View(), cacher.data, Members(keys), action);
      var nilCounter := VisitSlots(keys, action, h);
      EndVisits(h, nilCounter);
    }

    /** The end of a broadcast: many nil slots start a clean-up. */
    method EndVisits(ghost h: Hub<V>, nilCounter: nat)
      requires Safe(h) && Reached(h, |h.slots|, nilCounter)
      modifies this`clears
      ensures Valid() && View() == Finish(VisitUpTo(h, |h.slots|))
    {
      VisitUpToEach(h, |h.slots|);
      OtherStepsSafe(VisitUpTo(h, |h.slots|), EndBroadcast);
      if nilCounter > 0 && nilCounter >= |receivers| / 2 {
        clears := clears + 1;
      }
    }

    /** The loop that looks for a changed key the receiver watches. */
    static method Search(keys: seq<string>, prefix: string) returns (found: bool)
      ensures found <==> Matches(Members(keys), prefix)
    {
      for i := 0 to |keys|
        invariant forall j :: 0 <= j < i ==> !(prefix <= keys[j])
      {
        if prefix <= keys[i] {
          assert keys[i] in Members(keys);
          return true;
        }
      }
      return false;
    }

    /** The non-nil receivers, in order. */
    method Compact() returns (newList: seq<Receiver?<V>>)
      ensures forall i :: 0 <= i < |newList| ==> newList[i] in receivers
      ensures SlotsOf(newList) == NonNil(SlotsOf(receivers))
    {
      newList := [];
      ghost var slots := SlotsOf(receivers);
      for i := 0 to |receivers|
        invariant forall j :: 0 <= j < |newList| ==> newList[j] in receivers
        invariant SlotsOf(newList) + NonNil(slots[i..]) == NonNil(slots)
      {
        assert slots[i..][0] == slots[i] && slots[i..][1..] == slots[i + 1..];
        if receivers[i] != null {
          ghost var before := SlotsOf(newList);
          newList := newList + [receivers[i]];
          assert SlotsOf(newList) == before + [slots[i]];
        }
      }
    }

    lemma LinkedAfter(newList: seq<Receiver?<V>>)
      requires Linked() && forall i :: 0 <= i < |newList| ==> newList[i] in receivers
      ensures forall i :: 0 <= i < |newList| && newList[i] != null ==>
                newList[i].serial < |registered| && registered[newList[i].serial] == newList[i]
    {
    }

    /** A started clean-up runs. */
    method ClearNilReceivers()
      requires Valid() && clears > 0
      modifies this`receivers, this`clears
      ensures Valid()
      ensures View() == Next(old(View()), Step.Clear)
    {
      ghost var h := View();
      OtherStepsSafe(h, Step.Clear);
      var newList := Compact();
      LinkedAfter(newList);
      receivers := newList;
      clears := clears - 1;
      assert View() == h.(slots := NonNil(h.slots), clears := clears) by {
        assert StatesOf(registered) == h.subs;
      }
    }
  }
}
