/** The broadcast protocol as a state machine. The mutex makes registering, clearing and a
    whole broadcast exclude one another; cancelling a context and reading a channel take no
    lock, so they may fall between any two slots of a broadcast. */
module Broadcast {
  import opened Text
  import opened Store
  import opened Cacher

  /** The watcher's event: what goes through a receiver's channel. */
  datatype Note<V> = Note(id: nat, action: Action, data: Data<V>)

  /** A receiver with its channel of capacity one. start, taken and missed are history: what a
      query of the key answered at the registration, the notes the reader has received, and
      whether the latest note meant for it was dropped. */
  datatype Subscriber<V> = Subscriber(
    key: string, cancelled: bool, closed: bool, pending: seq<Note<V>>, counter: nat,
    start: Data<V>, taken: seq<Note<V>>, missed: bool)
  {
    /** Every note ever put into the channel, in order. */
    function Sent(): seq<Note<V>> {
      taken + pending
    }

    /** The data last sent; before any note, the answer at the registration. */
    function Held(): Data<V> {
      if Sent() == [] then start else Sent()[|Sent()| - 1].data
    }
  }

  /** base is history: each receiver's counter when the broadcast began. */
  datatype Phase =
    | Idle
    | Sending(next: nat, keys: set<string>, action: Action, nils: nat, base: seq<nat>)

  /** subs lists every receiver ever registered; slots is the sender's receiver list, a
      nil slot being None; clears counts the started and not yet run clean-ups. */
  datatype Hub<V> = Hub(
    data: Data<V>, subs: seq<Subscriber<V>>, slots: seq<Option<nat>>, clears: nat,
    panicked: bool, phase: Phase)

  ghost predicate InRange<V>(h: Hub<V>)
  {
    && (forall i :: 0 <= i < |h.slots| && h.slots[i].Some? ==> h.slots[i].value < |h.subs|)
    && (h.phase.Sending? ==> h.phase.next <= |h.slots| && |h.phase.base| == |h.subs|)
  }

  /** Some changed key is one the receiver watches. */
  predicate Matches(keys: set<string>, prefix: string)
  {
    exists k :: k in keys && prefix <= k
  }

  // ----- the steps -----

  function Register<V>(key: string, data: Data<V>): Subscriber<V>
  {
    Subscriber(key, false, false, [], 2, Lookup(data, key), [], false)
  }

  /** The non-blocking send: a full channel drops the note. */
  function Offer<V>(s: Subscriber<V>, action: Action, data: Data<V>): Subscriber<V>
  {
    if |s.pending| < 1 then
      s.(pending := s.pending + [Note(s.counter, action, Lookup(data, s.key))],
         counter := s.counter + 1, missed := false)
    else
      s.(missed := true)
  }

  /** The cache takes its new contents and the broadcast of the changed keys begins. */
  function Begin<V>(h: Hub<V>, data: Data<V>, keys: set<string>, action: Action): Hub<V>
  {
    h.(data := data, phase := Sending(0, keys, action, 0,
      seq(|h.subs|, i requires 0 <= i < |h.subs| => h.subs[i].counter)))
  }

  /** One turn of the broadcast's loop. Closing a closed channel panics, and so does sending
      on one, with or without room. */
  ghost function Visit<V>(h: Hub<V>): (h': Hub<V>)
    requires InRange(h) && h.phase.Sending? && h.phase.next < |h.slots|
    ensures InRange(h') && |h'.slots| == |h.slots| && |h'.subs| == |h.subs|
    ensures h'.phase.Sending? && h'.phase.next == h.phase.next + 1
  {
    var p := h.phase;
    match h.slots[p.next]
    case None => h.(phase := p.(next := p.next + 1, nils := p.nils + 1))
    case Some(r) =>
      var s := h.subs[r];
      var moved := h.(phase := p.(next := p.next + 1));
      if s.cancelled then
        moved.(subs := h.subs[r := s.(closed := true)], slots := h.slots[p.next := None],
               panicked := h.panicked || s.closed)
      else if Matches(p.keys, s.key) then
        moved.(subs := h.subs[r := Offer(s, p.action, h.data)], panicked := h.panicked || s.closed)
      else
        moved
  }

  /** The end of a broadcast: many nil slots start a clean-up. */
  function Finish<V>(h: Hub<V>): Hub<V>
    requires h.phase.Sending?
  {
    h.(phase := Idle,
       clears := if h.phase.nils > 0 && h.phase.nils >= |h.slots| / 2 then h.clears + 1 else h.clears)
  }

  function NonNil(slots: seq<Option<nat>>): seq<Option<nat>>
  {
    if slots == [] then []
    else (if slots[0].Some? then [slots[0]] else []) + NonNil(slots[1..])
  }

  datatype Step<V> =
    | Watch(key: string)
    | Cancel(r: nat)
    | Take(r: nat)
    | Publish(data: Data<V>, keys: set<string>, action: Action)
    | VisitNext
    | EndBroadcast
    | Clear

  /** One step; a step that is not enabled changes nothing. */
  ghost function Next<V>(h: Hub<V>, step: Step<V>): (h': Hub<V>)
    requires InRange(h)
    ensures InRange(h')
  {
    match step
    case Watch(key) =>
      if h.phase.Idle? then h.(subs := h.subs + [Register(key, h.data)], slots := h.slots + [Some(|h.subs|)]) else h
    case Cancel(r) =>
      if r < |h.subs| then h.(subs := h.subs[r := h.subs[r].(cancelled := true)]) else h
    case Take(r) =>
      if r < |h.subs| && h.subs[r].pending != [] then
        var s := h.subs[r];
        h.(subs := h.subs[r := s.(pending := s.pending[1..], taken := s.taken + [s.pending[0]])])
      else h
    case Publish(data, keys, action) => if h.phase.Idle? then Begin(h, data, keys, action) else h
    case VisitNext => if h.phase.Sending? && h.phase.next < |h.slots| then Visit(h) else h
    case EndBroadcast => if h.phase.Sending? && h.phase.next == |h.slots| then Finish(h) else h
    case Clear =>
      NonNilMembers(h.slots);
      if h.phase.Idle? && h.clears > 0 then h.(slots := NonNil(h.slots), clears := h.clears - 1) else h
  }

  ghost function Run<V>(h: Hub<V>, steps: seq<Step<V>>): (h': Hub<V>)
    requires InRange(h)
    ensures InRange(h')
    decreases |steps|
  {
    if steps == [] then h else Next(Run(h, steps[..|steps| - 1]), steps[|steps| - 1])
  }

  function Start<V>(data: Data<V>): Hub<V>
  {
    Hub(data, [], [], 0, false, Idle)
  }

  // ----- cleaning up -----

  lemma {:induction false} NonNilMembers(slots: seq<Option<nat>>)
    ensures forall s :: s in NonNil(slots) <==> s in slots && s.Some?
  {
    if slots != [] {
      NonNilMembers(slots[1..]);
      assert slots == [slots[0]] + slots[1..];
    }
  }

  /** Registration order: the serial numbers in the list increase. */
  ghost predicate Ordered(slots: seq<Option<nat>>)
  {
    forall i, j :: 0 <= i < j < |slots| && slots[i].Some? && slots[j].Some? ==> slots[i].value < slots[j].value
  }

  /** A clean-up leaves no nil slot, loses no receiver and keeps the order. */
  lemma {:induction false} ClearKeepsReceivers(slots: seq<Option<nat>>)
    requires Ordered(slots)
    ensures None !in NonNil(slots)
    ensures forall r :: Some(r) in NonNil(slots) <==> Some(r) in slots
    ensures Ordered(NonNil(slots))
  {
    NonNilMembers(slots);
    ClearKeepsOrder(slots);
  }

  lemma {:induction false} ClearKeepsOrder(slots: seq<Option<nat>>)
    requires Ordered(slots)
    ensures Ordered(NonNil(slots))
  {
    if slots != [] {
      var rest := slots[1..];
      ClearKeepsOrder(rest);
      NonNilMembers(rest);
      if slots[0].Some? {
        assert NonNil(slots) == [slots[0]] + NonNil(rest);
        forall j | 0 <= j < |NonNil(rest)| && NonNil(rest)[j].Some?
          ensures slots[0].value < NonNil(rest)[j].value
        {
          assert NonNil(rest)[j] in rest;
          var k :| 0 <= k < |rest| && rest[k] == NonNil(rest)[j];
          assert slots[k + 1] == rest[k];
        }
      }
    }
  }

  // ----- safety of every interleaving -----

  ghost predicate Seated<V>(h: Hub<V>, r: nat)
  {
    Some(r) in h.slots
  }

  /** The notes put into the channel are numbered 2, 3, 4, ... and at most one is waiting. */
  ghost predicate ChannelOk<V>(s: Subscriber<V>)
  {
    && |s.pending| <= 1
    && s.counter == |s.Sent()| + 2
    && (forall n :: 0 <= n < |s.Sent()| ==> s.Sent()[n].id == n + 2)
    && (s.closed ==> s.cancelled)
  }

  /** Each receiver has had at most one note from the broadcast in progress, none before its
      slot was visited. */
  ghost predicate OnePerBroadcast<V>(h: Hub<V>)
    requires InRange(h)
  {
    h.phase.Sending? ==>
      && (forall r :: 0 <= r < |h.subs| ==> h.phase.base[r] <= h.subs[r].counter <= h.phase.base[r] + 1)
      && (forall i :: h.phase.next <= i < |h.slots| && h.slots[i].Some? ==>
            h.subs[h.slots[i].value].counter == h.phase.base[h.slots[i].value])
  }

  /** No panic ever; the list holds, in registration order, exactly the receivers whose
      channel is open; a closed channel belongs to a cancelled receiver. */
  ghost predicate Safe<V>(h: Hub<V>)
  {
    && InRange(h)
    && !h.panicked
    && Ordered(h.slots)
    && (forall r :: 0 <= r < |h.subs| ==> ChannelOk(h.subs[r]) && (h.subs[r].closed <==> !Seated(h, r)))
    && OnePerBroadcast(h)
  }

  /** The slot just visited holds its receiver nowhere else. */
  lemma VisitSeats<V>(h: Hub<V>, q: nat)
    requires Safe(h) && h.phase.Sending? && h.phase.next < |h.slots| && q < |h.subs|
    ensures Seated(Visit(h), q) <==> Seated(h, q) && !(h.slots[h.phase.next] == Some(q) && h.subs[q].cancelled)
  {
    var i := h.phase.next;
    var h' := Visit(h);
    if Seated(h, q) {
      var j :| 0 <= j < |h.slots| && h.slots[j] == Some(q);
      if j != i {
        assert h'.slots[j] == Some(q) && h.slots[i] != Some(q) by {
          assert Ordered(h.slots);
        }
      } else if !h.subs[q].cancelled {
        assert h'.slots[i] == Some(q);
      } else {
        assert forall k :: 0 <= k < |h.slots| && k != i ==> h.slots[k] != Some(q) by {
          assert Ordered(h.slots);
        }
      }
    }
    if Seated(h', q) {
      var j :| 0 <= j < |h'.slots| && h'.slots[j] == Some(q);
      assert h.slots[j] == Some(q);
    }
  }

  lemma OfferOk<V>(s: Subscriber<V>, action: Action, data: Data<V>)
    requires ChannelOk(s)
    ensures ChannelOk(Offer(s, action, data))
  {
    var s' := Offer(s, action, data);
    if |s.pending| < 1 {
      assert s'.Sent() == s.Sent() + [Note(s.counter, action, Lookup(data, s.key))];
    }
  }

  lemma VisitSafe<V>(h: Hub<V>)
    requires Safe(h) && h.phase.Sending? && h.phase.next < |h.slots|
    ensures Safe(Visit(h))
  {
    var i := h.phase.next;
    var h' := Visit(h);
    if h.slots[i].Some? {
      var r := h.slots[i].value;
      assert Seated(h, r);
      OfferOk(h.subs[r], h.phase.action, h.data);
      assert h'.subs[r].Sent() == h.subs[r].Sent() || !h.subs[r].cancelled;
      forall j | i < j < |h.slots|
        ensures h.slots[j] != Some(r)
      {
        assert Ordered(h.slots);
      }
    }
    forall q | 0 <= q < |h.subs|
      ensures ChannelOk(h'.subs[q]) && (h'.subs[q].closed <==> !Seated(h', q))
    {
      VisitSeats(h, q);
    }
  }

  lemma WatchSafe<V>(h: Hub<V>, key: string)
    requires Safe(h) && h.phase.Idle?
    ensures Safe(Next(h, Watch(key)))
  {
    var h' := Next(h, Watch(key));
    assert h'.slots[|h.slots|] == Some(|h.subs|);
    forall q | 0 <= q < |h'.subs|
      ensures ChannelOk(h'.subs[q]) && (h'.subs[q].closed <==> !Seated(h', q))
    {
      if q < |h.subs| {
        assert Some(q) in h'.slots <==> Some(q) in h.slots;
      }
    }
  }

  lemma ReaderStepsSafe<V>(h: Hub<V>, step: Step<V>)
    requires Safe(h) && (step.Cancel? || step.Take?)
    ensures Safe(Next(h, step))
  {
    var h' := Next(h, step);
    assert h'.slots == h.slots;
    if step.Take? && step.r < |h.subs| && h.subs[step.r].pending != [] {
      assert h'.subs[step.r].Sent() == h.subs[step.r].Sent();
    }
  }

  lemma OtherStepsSafe<V>(h: Hub<V>, step: Step<V>)
    requires Safe(h) && !step.VisitNext?
    ensures Safe(Next(h, step))
  {
    var h' := Next(h, step);
    match step
    case Watch(key) =>
      if h.phase.Idle? {
        WatchSafe(h, key);
      }
    case Cancel(r) =>
      ReaderStepsSafe(h, step);
    case Take(r) =>
      ReaderStepsSafe(h, step);
    case Publish(data, keys, action) =>
      assert h'.slots == h.slots && h'.subs == h.subs;
    case EndBroadcast =>
      assert h'.slots == h.slots && h'.subs == h.subs;
    case Clear =>
      ClearKeepsReceivers(h.slots);
      assert h'.subs == h.subs;
  }

  /** Whatever the interleaving of registrations, cancellations, reads, changes, broadcasts
      and clean-ups: no send on a closed channel, no second close, at most one note waiting,
      at most one note for each receiver in a broadcast, and the notes of each receiver are
      numbered 2, 3, 4, ... without gap or repetition, dropped notes taking no number. */
  lemma {:induction false} EveryRunIsSafe<V>(data: Data<V>, steps: seq<Step<V>>)
    ensures Safe(Run(Start(data), steps))
    decreases |steps|
  {
    if steps != [] {
      var init, last := steps[..|steps| - 1], steps[|steps| - 1];
      EveryRunIsSafe(data, init);
      var h := Run(Start(data), init);
      if !last.VisitNext? {
        OtherStepsSafe(h, last);
      } else if h.phase.Sending? && h.phase.next < |h.slots| {
        VisitSafe(h);
      }
    }
  }

  // ----- what is sent, in so many words -----

  /** The visit of an open receiver that a changed key concerns. With an empty channel it then has
      exactly one note waiting, with the broadcast's action and the present answer to its key;
      with a full one nothing about it changes, but that a note was dropped. */
  lemma VisitSends<V>(h: Hub<V>, r: nat)
    requires Safe(h) && h.phase.Sending? && h.phase.next < |h.slots| && h.slots[h.phase.next] == Some(r)
    requires !h.subs[r].cancelled
    ensures var s, s' := h.subs[r], Visit(h).subs[r];
      if !Matches(h.phase.keys, s.key) then s' == s
      else if s.pending == [] then
        && |s'.pending| == 1 && s'.pending[0].action == h.phase.action
        && s'.pending[0].data == Lookup(h.data, s.key) && s'.pending[0].id == |s.taken| + 2
        && s'.taken == s.taken && s'.key == s.key && !s'.missed && !s'.closed
      else s'.pending == s.pending && s'.taken == s.taken && s'.key == s.key && s'.counter == s.counter && s'.missed
  {
    assert Seated(h, r);
  }

  /** The actions a note may have. */
  predicate IsChange(action: Action)
  {
    action == SET || action == UPDATE || action == DELETE
  }

  /** Every note of the receiver has such an action, and shows nothing outside the receiver's
      range; nor does its first answer. */
  ghost predicate NotesOk<V>(s: Subscriber<V>)
  {
    && (forall n :: n in s.Sent() ==> IsChange(n.action) && InRangeOf(n.data, s.key))
    && InRangeOf(s.start, s.key)
  }

  ghost predicate InRangeOf<V>(data: Data<V>, prefix: string)
  {
    forall k :: k in data ==> prefix <= k
  }

  ghost predicate AllNotesOk<V>(h: Hub<V>)
  {
    && (h.phase.Sending? ==> IsChange(h.phase.action))
    && forall r :: 0 <= r < |h.subs| ==> NotesOk(h.subs[r])
  }

  lemma LookupInRange<V>(data: Data<V>, key: string)
    ensures InRangeOf(Lookup(data, key), key)
  {
    assert key <= key;
  }

  lemma OfferNotesOk<V>(s: Subscriber<V>, action: Action, data: Data<V>)
    requires NotesOk(s) && IsChange(action)
    ensures NotesOk(Offer(s, action, data))
  {
    LookupInRange(data, s.key);
    var s' := Offer(s, action, data);
    if |s.pending| < 1 {
      assert s'.Sent() == s.Sent() + [s'.pending[|s.pending|]];
    }
  }

  lemma NextNotesOk<V>(h: Hub<V>, step: Step<V>)
    requires InRange(h) && AllNotesOk(h) && (step.Publish? ==> IsChange(step.action))
    ensures AllNotesOk(Next(h, step))
  {
    match step
    case Watch(key) => LookupInRange(h.data, key);
    case Take(r) =>
      if r < |h.subs| && h.subs[r].pending != [] {
        assert Next(h, step).subs[r].Sent() == h.subs[r].Sent();
      }
    case Cancel(r) =>
      if r < |h.subs| {
        assert Next(h, step).subs[r].Sent() == h.subs[r].Sent();
      }
    case VisitNext =>
      if h.phase.Sending? && h.phase.next < |h.slots| {
        VisitNotesOk(h);
      }
    case _ =>
  }

  lemma VisitNotesOk<V>(h: Hub<V>)
    requires InRange(h) && AllNotesOk(h) && h.phase.Sending? && h.phase.next < |h.slots|
    ensures AllNotesOk(Visit(h))
  {
    if h.slots[h.phase.next].Some? {
      var r := h.slots[h.phase.next].value;
      OfferNotesOk(h.subs[r], h.phase.action, h.data);
      assert h.subs[r].(closed := true).Sent() == h.subs[r].Sent();
    }
  }

  // ----- who is registered -----

  function Keys<V>(subs: seq<Subscriber<V>>): seq<string>
  {
    seq(|subs|, r requires 0 <= r < |subs| => subs[r].key)
  }

  /** The keys that were asked for, in order: a registration waits for a broadcast to end. */
  ghost function Asked<V>(h: Hub<V>, steps: seq<Step<V>>): seq<string>
    requires InRange(h)
    decreases |steps|
  {
    if steps == [] then []
    else
      var init, last := steps[..|steps| - 1], steps[|steps| - 1];
      Asked(h, init) + if last.Watch? && Run(h, init).phase.Idle? then [last.key] else []
  }

  lemma NextKeys<V>(h: Hub<V>, step: Step<V>)
    requires InRange(h)
    ensures Keys(Next(h, step).subs) ==
            Keys(h.subs) + if step.Watch? && h.phase.Idle? then [step.key] else []
  {
    var subs, subs' := h.subs, Next(h, step).subs;
    if step.Watch? && h.phase.Idle? {
      assert Keys(subs') == Keys(subs) + [step.key];
    } else {
      assert |subs'| == |subs|;
      assert Keys(subs') == Keys(subs);
      assert Keys(subs) + [] == Keys(subs);
    }
  }

  /** The receivers of any run are those that registered, in order, each under its own key. */
  lemma {:induction false} ReceiversAreTheAsked<V>(data: Data<V>, steps: seq<Step<V>>)
    ensures Keys(Run(Start(data), steps).subs) == Asked(Start(data), steps)
    decreases |steps|
  {
    if steps != [] {
      ReceiversAreTheAsked(data, steps[..|steps| - 1]);
      NextKeys(Run(Start(data), steps[..|steps| - 1]), steps[|steps| - 1]);
    }
  }

  // ----- when a clean-up starts -----

  /** How many of the slots are nil. */
  function Nils(slots: seq<Option<nat>>): nat
  {
    if slots == [] then 0 else Nils(slots[..|slots| - 1]) + if slots[|slots| - 1].None? then 1 else 0
  }

  // ----- coherence: what receivers hold against what the cache holds -----

  /** The receiver in a slot the broadcast has not reached yet will be offered a note. */
  ghost predicate Due<V>(h: Hub<V>, r: nat)
    requires InRange(h)
  {
    h.phase.Sending? && exists i ::
      h.phase.next <= i < |h.slots| && h.slots[i] == Some(r) && r < |h.subs| && Matches(h.phase.keys, h.subs[r].key)
  }

  /** The receivers passed over: the cache took new data that change the answer to their key,
      and none of the keys broadcast for it concerns them. Only the data and the keys decide,
      not what a receiver holds. A second such change undoes the first. */
  ghost function Overlook<V>(h: Hub<V>, overlooked: set<nat>, data: Data<V>, keys: set<string>): set<nat>
  {
    set r | 0 <= r < |h.subs| && !Matches(keys, h.subs[r].key) &&
            (r in overlooked <==> Lookup(h.data, h.subs[r].key) == Lookup(data, h.subs[r].key))
  }

  /** Unless the latest note was dropped, a receiver holds the present answer exactly when it
      was not overlooked; and one that was, while its answer is not empty, holds nothing. */
  ghost predicate Accounted<V>(s: Subscriber<V>, data: Data<V>, overlooked: bool)
  {
    !s.missed ==>
      && (overlooked <==> s.Held() != Lookup(data, s.key))
      && (overlooked && Lookup(data, s.key) != map[] ==> s.Held() == map[])
  }

  /** Every open receiver is accounted for, except that one the broadcast has yet to reach will
      be. */
  ghost predicate Coherent<V>(h: Hub<V>, overlooked: set<nat>)
    requires InRange(h)
  {
    && (forall r :: r in overlooked ==> r < |h.subs|)
    && (forall r :: 0 <= r < |h.subs| && !h.subs[r].closed ==>
          if Due(h, r) then r !in overlooked else Accounted(h.subs[r], h.data, r in overlooked))
  }

  /** Every change of the cache in the run stays within the keys it broadcasts. */
  ghost predicate ChangesAnnounced<V>(h: Hub<V>, steps: seq<Step<V>>)
    requires InRange(h)
    decreases |steps|
  {
    steps == [] ||
      var before := Run(h, steps[..|steps| - 1]);
      var last := steps[|steps| - 1];
      && ChangesAnnounced(h, steps[..|steps| - 1])
      && (last.Publish? && before.phase.Idle? ==> AgreeOutside(before.data, last.data, last.keys))
  }

  lemma VisitDue<V>(h: Hub<V>, q: nat)
    requires InRange(h) && h.phase.Sending? && h.phase.next < |h.slots| && h.slots[h.phase.next] != Some(q)
    ensures Due(Visit(h), q) <==> Due(h, q)
  {
    var i, h' := h.phase.next, Visit(h);
    if Due(h, q) {
      var j :| i <= j < |h.slots| && h.slots[j] == Some(q) && Matches(h.phase.keys, h.subs[q].key);
      assert h'.slots[j] == Some(q);
    }
    if Due(h', q) {
      var j :| i < j < |h.slots| && h'.slots[j] == Some(q) && Matches(h.phase.keys, h'.subs[q].key);
      assert h.slots[j] == Some(q);
    }
  }

  lemma OfferAccounted<V>(s: Subscriber<V>, action: Action, data: Data<V>)
    ensures Accounted(Offer(s, action, data), data, false)
  {
  }

  lemma VisitCoherent<V>(h: Hub<V>, overlooked: set<nat>)
    requires Safe(h) && Coherent(h, overlooked) && h.phase.Sending? && h.phase.next < |h.slots|
    ensures Coherent(Visit(h), overlooked)
  {
    var i, h' := h.phase.next, Visit(h);
    forall q | 0 <= q < |h'.subs| && !h'.subs[q].closed
      ensures if Due(h', q) then q !in overlooked else Accounted(h'.subs[q], h'.data, q in overlooked)
    {
      if h.slots[i] == Some(q) {
        assert forall j :: i < j < |h.slots| ==> h.slots[j] != Some(q) by {
          assert Ordered(h.slots);
        }
        assert !Due(h', q);
        OfferAccounted(h.subs[q], h.phase.action, h.data);
        assert Matches(h.phase.keys, h.subs[q].key) ==> Due(h, q);
      } else {
        assert h'.subs[q] == h.subs[q];
        VisitDue(h, q);
      }
    }
  }

  /** The new data change only answers that the keys concern, or empty them, or were read by
      nobody before. */
  ghost predicate Bearable<V>(s: Subscriber<V>, before: Data<V>, after: Data<V>, keys: set<string>)
  {
    || Matches(keys, s.key)
    || Lookup(after, s.key) in {Lookup(before, s.key), map[]}
    || s.Held() == Lookup(before, s.key) == map[]
  }

  lemma PublishCoherent<V>(h: Hub<V>, overlooked: set<nat>, data: Data<V>, keys: set<string>, action: Action)
    requires Safe(h) && Coherent(h, overlooked) && h.phase.Idle?
    requires forall r :: 0 <= r < |h.subs| ==> Bearable(h.subs[r], h.data, data, keys)
    ensures Coherent(Begin(h, data, keys, action), Overlook(h, overlooked, data, keys))
  {
    var h', o' := Begin(h, data, keys, action), Overlook(h, overlooked, data, keys);
    forall q | 0 <= q < |h'.subs| && !h'.subs[q].closed
      ensures if Due(h', q) then q !in o' else Accounted(h'.subs[q], h'.data, q in o')
    {
      assert Seated(h, q);
      var j :| 0 <= j < |h.slots| && h.slots[j] == Some(q);
      assert h'.slots[j] == Some(q);
      assert Due(h', q) <==> Matches(keys, h.subs[q].key);
      assert Bearable(h.subs[q], h.data, data, keys);
    }
  }

  /** The cache takes new data and nothing is broadcast. */
  lemma SilentCoherent<V>(h: Hub<V>, overlooked: set<nat>, data: Data<V>)
    requires Safe(h) && Coherent(h, overlooked) && h.phase.Idle?
    requires forall r :: 0 <= r < |h.subs| ==> Bearable(h.subs[r], h.data, data, {})
    ensures Safe(h.(data := data)) && Coherent(h.(data := data), Overlook(h, overlooked, data, {}))
  {
    var h', o' := h.(data := data), Overlook(h, overlooked, data, {});
    assert forall r :: 0 <= r < |h.subs| ==> (Seated(h', r) <==> Seated(h, r));
    forall q | 0 <= q < |h'.subs| && !h'.subs[q].closed
      ensures Accounted(h'.subs[q], h'.data, q in o')
    {
      assert Bearable(h.subs[q], h.data, data, {});
    }
  }

  /** Announced changes overlook nobody. */
  lemma AnnouncedIsBearable<V>(h: Hub<V>, overlooked: set<nat>, data: Data<V>, keys: set<string>)
    requires AgreeOutside(h.data, data, keys)
    ensures forall r :: 0 <= r < |h.subs| ==> Bearable(h.subs[r], h.data, data, keys)
    ensures Overlook(h, overlooked, data, keys) <= overlooked
    ensures forall r :: r in overlooked && r < |h.subs| && !Matches(keys, h.subs[r].key) ==>
              r in Overlook(h, overlooked, data, keys)
  {
    forall r | 0 <= r < |h.subs| && !Matches(keys, h.subs[r].key)
      ensures Lookup(h.data, h.subs[r].key) == Lookup(data, h.subs[r].key)
    {
      LookupIsLocal(h.data, data, keys, h.subs[r].key);
    }
  }

  /** Steps that touch neither the data nor what was sent keep coherence. */
  lemma QuietCoherent<V>(h: Hub<V>, h': Hub<V>, overlooked: set<nat>)
    requires InRange(h) && InRange(h') && Coherent(h, overlooked) && h'.data == h.data && |h'.subs| >= |h.subs|
    requires forall q :: 0 <= q < |h.subs| ==> SameHoldings(h.subs[q], h'.subs[q])
    requires forall q :: |h.subs| <= q < |h'.subs| ==> h'.subs[q] == Register(h'.subs[q].key, h.data)
    requires if h.phase.Sending? && h'.phase.Sending? then h'.phase == h.phase && h'.slots == h.slots
             else h'.phase.Idle? && (h.phase.Sending? ==> h.phase.next == |h.slots|)
    ensures Coherent(h', overlooked)
  {
    forall q | 0 <= q < |h'.subs| && !h'.subs[q].closed
      ensures if Due(h', q) then q !in overlooked else Accounted(h'.subs[q], h'.data, q in overlooked)
    {
      if q < |h.subs| {
        assert SameHoldings(h.subs[q], h'.subs[q]);
        assert Due(h, q) <==> Due(h', q) by {
          if h.phase.Sending? && Due(h, q) {
            var j :| h.phase.next <= j < |h.slots| && h.slots[j] == Some(q) && Matches(h.phase.keys, h.subs[q].key);
            assert h'.slots[j] == Some(q);
          }
          if h'.phase.Sending? && Due(h', q) {
            var j :| h.phase.next <= j < |h.slots| && h'.slots[j] == Some(q) && Matches(h.phase.keys, h'.subs[q].key);
            assert h.slots[j] == Some(q);
          }
        }
      }
    }
  }

  ghost predicate SameHoldings<V>(s: Subscriber<V>, s': Subscriber<V>)
  {
    s'.key == s.key && s'.missed == s.missed && s'.Sent() == s.Sent() && s'.start == s.start && s'.closed == s.closed
  }

  lemma OtherStepsCoherent<V>(h: Hub<V>, overlooked: set<nat>, step: Step<V>)
    requires InRange(h) && Coherent(h, overlooked) && !step.VisitNext? && !step.Publish?
    ensures Coherent(Next(h, step), overlooked)
  {
    var h' := Next(h, step);
    if step.Take? && step.r < |h.subs| && h.subs[step.r].pending != [] {
      assert h'.subs[step.r].Sent() == h.subs[step.r].Sent();
    }
    QuietCoherent(h, h', overlooked);
  }

  /** As long as every change is announced by its keys, whatever the interleaving: an open
      receiver whose latest note was not dropped holds exactly what a query answers now, be it
      from a note or from its registration, except while a broadcast that concerns it has not
      reached its slot. */
  lemma {:induction false} EveryRunIsCoherent<V>(data: Data<V>, steps: seq<Step<V>>)
    requires ChangesAnnounced(Start(data), steps)
    ensures Coherent(Run(Start(data), steps), {})
    decreases |steps|
  {
    if steps != [] {
      var init, last := steps[..|steps| - 1], steps[|steps| - 1];
      EveryRunIsSafe(data, init);
      EveryRunIsCoherent(data, init);
      var h := Run(Start(data), init);
      if last.Publish? {
        if h.phase.Idle? {
          AnnouncedIsBearable(h, {}, last.data, last.keys);
          PublishCoherent(h, {}, last.data, last.keys, last.action);
        }
      } else if !last.VisitNext? {
        OtherStepsCoherent(h, {}, last);
      } else if h.phase.Sending? && h.phase.next < |h.slots| {
        VisitCoherent(h, {});
      }
    }
  }

  // ----- one whole broadcast -----

  ghost function VisitUpTo<V>(h: Hub<V>, n: nat): (h': Hub<V>)
    requires InRange(h) && h.phase.Sending? && h.phase.next == 0 && n <= |h.slots|
    ensures InRange(h') && |h'.slots| == |h.slots| && |h'.subs| == |h.subs|
    ensures h'.phase.Sending? && h'.phase.next == n
  {
    if n == 0 then h else Visit(VisitUpTo(h, n - 1))
  }

  /** The broadcast without anything in between. */
  ghost function BroadcastAll<V>(h: Hub<V>, data: Data<V>, keys: set<string>, action: Action): (h': Hub<V>)
    requires InRange(h)
    ensures InRange(h') && h'.phase.Idle?
  {
    Finish(VisitUpTo(Begin(h, data, keys, action), |h.slots|))
  }

  /** A broadcast uses the data it is given, not what the hub held before. */
  lemma BroadcastResets<V>(h: Hub<V>, other: Data<V>, data: Data<V>, keys: set<string>, action: Action)
    requires InRange(h)
    ensures BroadcastAll(h.(data := other), data, keys, action) == BroadcastAll(h, data, keys, action)
  {
    assert Begin(h.(data := other), data, keys, action) == Begin(h, data, keys, action);
  }

  /** What one visit does to the receiver of a slot. */
  ghost function Visited<V>(s: Subscriber<V>, data: Data<V>, keys: set<string>, action: Action): Subscriber<V>
  {
    if s.cancelled then s.(closed := true)
    else if Matches(keys, s.key) then Offer(s, action, data)
    else s
  }

  /** g is h after its first n slots were visited. */
  ghost predicate AfterVisits<V>(h: Hub<V>, g: Hub<V>, n: nat)
    requires InRange(h) && h.phase.Sending? && n <= |h.slots|
  {
    && |g.subs| == |h.subs| && |g.slots| == |h.slots| && g.data == h.data
    && g.phase.Sending? && g.phase.next == n && g.phase.keys == h.phase.keys && g.phase.action == h.phase.action
    && (forall r :: 0 <= r < |h.subs| ==>
          g.subs[r] == if Some(r) in h.slots[..n] then Visited(h.subs[r], h.data, h.phase.keys, h.phase.action)
            else h.subs[r])
    && (forall i :: n <= i < |h.slots| ==> g.slots[i] == h.slots[i])
  }

  lemma VisitAdvances<V>(h: Hub<V>, g: Hub<V>, n: nat)
    requires Safe(h) && InRange(g) && h.phase.Sending? && n < |h.slots| && AfterVisits(h, g, n)
    ensures AfterVisits(h, Visit(g), n + 1)
  {
    var g' := Visit(g);
    assert h.slots[..n + 1] == h.slots[..n] + [h.slots[n]];
    assert g.slots[n] == h.slots[n];
    if h.slots[n].Some? {
      var q := h.slots[n].value;
      assert Some(q) !in h.slots[..n] by {
        assert Ordered(h.slots);
      }
      assert g.subs[q] == h.subs[q];
      assert g'.subs == g.subs[q := Visited(h.subs[q], h.data, h.phase.keys, h.phase.action)];
    } else {
      assert g'.subs == g.subs;
    }
  }

  lemma {:induction false} VisitUpToEach<V>(h: Hub<V>, n: nat)
    requires Safe(h) && h.phase.Sending? && h.phase.next == 0 && n <= |h.slots|
    ensures Safe(VisitUpTo(h, n)) && AfterVisits(h, VisitUpTo(h, n), n)
  {
    if n > 0 {
      VisitUpToEach(h, n - 1);
      VisitSafe(VisitUpTo(h, n - 1));
      VisitAdvances(h, VisitUpTo(h, n - 1), n - 1);
    }
  }

  /** A broadcast treats every open receiver once: it closes and unseats the cancelled ones,
      and offers one note to those a changed key concerns. */
  lemma BroadcastEach<V>(h: Hub<V>, data: Data<V>, keys: set<string>, action: Action)
    requires Safe(h) && h.phase.Idle?
    ensures var h' := BroadcastAll(h, data, keys, action);
      && Safe(h') && h'.data == data && |h'.subs| == |h.subs|
      && (forall r :: 0 <= r < |h.subs| ==>
            h'.subs[r] == if Seated(h, r) then Visited(h.subs[r], data, keys, action) else h.subs[r])
      && (forall r :: 0 <= r < |h.subs| ==> (h'.subs[r].closed <==> h.subs[r].cancelled))
  {
    var b := Begin(h, data, keys, action);
    OtherStepsSafe(h, Publish(data, keys, action));
    VisitUpToEach(b, |b.slots|);
    assert b.slots[..|b.slots|] == b.slots;
    OtherStepsSafe(VisitUpTo(b, |b.slots|), EndBroadcast);
  }

  function Visits<V>(n: nat): seq<Step<V>>
  {
    seq(n, i => VisitNext)
  }

  lemma {:induction false} VisitsAreARun<V>(h: Hub<V>, n: nat)
    requires InRange(h) && h.phase.Sending? && h.phase.next == 0 && n <= |h.slots|
    ensures Run(h, Visits(n)) == VisitUpTo(h, n)
    decreases n
  {
    if n > 0 {
      VisitsAreARun(h, n - 1);
      assert Visits<V>(n)[..n - 1] == Visits<V>(n - 1);
    }
  }

  lemma {:induction false} RunLast<V>(h: Hub<V>, steps: seq<Step<V>>, last: Step<V>)
    requires InRange(h)
    ensures Run(h, steps + [last]) == Next(Run(h, steps), last)
  {
    assert (steps + [last])[..|steps|] == steps;
  }

  lemma {:induction false} RunOn<V>(h: Hub<V>, steps: seq<Step<V>>, more: seq<Step<V>>)
    requires InRange(h)
    ensures Run(h, steps + more) == Run(Run(h, steps), more)
    decreases |more|
  {
    if more == [] {
      assert steps + more == steps;
    } else {
      var init, last := more[..|more| - 1], more[|more| - 1];
      RunOn(h, steps, init);
      RunLast(h, steps + init, last);
      RunLast(Run(h, steps), init, last);
      SplitLast(steps, more);
    }
  }

  lemma SplitLast<T>(a: seq<T>, b: seq<T>)
    requires b != []
    ensures b == b[..|b| - 1] + [b[|b| - 1]]
    ensures a + b == a + b[..|b| - 1] + [b[|b| - 1]]
  {
  }

  /** The whole broadcast is a run of the protocol: one publication, a visit of every slot in
      turn, and the end. */
  lemma {:induction false} BroadcastIsARun<V>(h: Hub<V>, data: Data<V>, keys: set<string>, action: Action)
    requires InRange(h) && h.phase.Idle?
    ensures BroadcastAll(h, data, keys, action) ==
            Run(h, [Publish(data, keys, action)] + Visits(|h.slots|) + [EndBroadcast])
  {
    var b := Begin(h, data, keys, action);
    var publish: seq<Step<V>> := [Publish(data, keys, action)];
    assert publish[..0] == [];
    assert Run(h, publish) == b;
    RunOn(h, publish, Visits(|h.slots|));
    VisitsAreARun(b, |h.slots|);
    var all := publish + Visits(|h.slots|);
    assert (all + [EndBroadcast])[..|all|] == all;
  }

  lemma VisitCounts<V>(h: Hub<V>)
    requires InRange(h) && h.phase.Sending? && h.phase.next < |h.slots|
    ensures Visit(h).phase.nils == h.phase.nils + (if h.slots[h.phase.next].None? then 1 else 0)
    ensures Visit(h).clears == h.clears
  {
  }

  lemma {:induction false} VisitsCount<V>(h: Hub<V>, n: nat)
    requires Safe(h) && h.phase.Sending? && h.phase.next == 0 && h.phase.nils == 0 && n <= |h.slots|
    ensures VisitUpTo(h, n).phase.nils == Nils(h.slots[..n]) && VisitUpTo(h, n).clears == h.clears
  {
    if n > 0 {
      VisitsCount(h, n - 1);
      SlotUnvisited(h, n - 1);
      VisitCounts(VisitUpTo(h, n - 1));
      NilsMore(h.slots, n - 1);
    }
  }

  lemma {:induction false} SlotUnvisited<V>(h: Hub<V>, n: nat)
    requires Safe(h) && h.phase.Sending? && h.phase.next == 0 && n < |h.slots|
    ensures VisitUpTo(h, n).slots[n] == h.slots[n]
  {
    VisitUpToEach(h, n);
  }

  lemma {:induction false} NilsMore(slots: seq<Option<nat>>, n: nat)
    requires n < |slots|
    ensures Nils(slots[..n + 1]) == Nils(slots[..n]) + if slots[n].None? then 1 else 0
  {
    assert slots[..n + 1][..n] == slots[..n];
  }

  /** A broadcast starts a clean-up exactly when it finds a nil slot, and no fewer than half the
      number of slots, rounded down; the slots it makes nil itself do not count. */
  lemma BroadcastStartsCleanUp<V>(h: Hub<V>, data: Data<V>, keys: set<string>, action: Action)
    requires Safe(h) && h.phase.Idle?
    ensures var nils := Nils(h.slots);
      BroadcastAll(h, data, keys, action).clears ==
        h.clears + (if nils > 0 && nils >= |h.slots| / 2 then 1 else 0)
  {
    var b := Begin(h, data, keys, action);
    OtherStepsSafe(h, Publish(data, keys, action));
    VisitsCount(b, |b.slots|);
    assert b.slots[..|b.slots|] == h.slots;
  }

  /** What a broadcast makes of each slot: those of cancelled receivers become nil. */
  lemma BroadcastSlots<V>(h: Hub<V>, data: Data<V>, keys: set<string>, action: Action)
    requires Safe(h) && h.phase.Idle?
    ensures var h' := BroadcastAll(h, data, keys, action);
      |h'.slots| == |h.slots| &&
      forall i :: 0 <= i < |h.slots| ==>
        h'.slots[i] == if h.slots[i].Some? && h.subs[h.slots[i].value].cancelled then None else h.slots[i]
  {
    var b := Begin(h, data, keys, action);
    OtherStepsSafe(h, Publish(data, keys, action));
    VisitUpToSlots(b, |b.slots|);
  }

  ghost predicate SlotsAfter<V>(h: Hub<V>, g: Hub<V>, n: nat)
    requires InRange(h)
  {
    && |g.slots| == |h.slots|
    && forall i :: 0 <= i < |h.slots| ==>
         g.slots[i] == if i < n && h.slots[i].Some? && h.subs[h.slots[i].value].cancelled then None else h.slots[i]
  }

  lemma {:induction false} VisitUpToSlots<V>(h: Hub<V>, n: nat)
    requires Safe(h) && h.phase.Sending? && h.phase.next == 0 && n <= |h.slots|
    ensures SlotsAfter(h, VisitUpTo(h, n), n)
  {
    if n > 0 {
      VisitUpToSlots(h, n - 1);
      VisitsReach(h, n - 1);
      SlotsStep(h, VisitUpTo(h, n - 1), n - 1);
    }
  }

  lemma {:induction false} VisitsReach<V>(h: Hub<V>, n: nat)
    requires Safe(h) && h.phase.Sending? && h.phase.next == 0 && n <= |h.slots|
    ensures InRange(VisitUpTo(h, n)) && AfterVisits(h, VisitUpTo(h, n), n)
  {
    VisitUpToEach(h, n);
  }

  lemma SlotsStep<V>(h: Hub<V>, g: Hub<V>, n: nat)
    requires InRange(h) && InRange(g) && h.phase.Sending? && n < |h.slots|
    requires AfterVisits(h, g, n) && SlotsAfter(h, g, n)
    ensures SlotsAfter(h, Visit(g), n + 1)
  {
    VisitOneSlot(g);
    assert g.slots[n] == h.slots[n];
    if h.slots[n].Some? {
      CancelledKept(h, g, n, h.slots[n].value);
    }
  }

  lemma CancelledKept<V>(h: Hub<V>, g: Hub<V>, n: nat, r: nat)
    requires InRange(h) && h.phase.Sending? && n <= |h.slots| && AfterVisits(h, g, n) && r < |h.subs|
    ensures g.subs[r].cancelled == h.subs[r].cancelled
  {
  }

  lemma VisitOneSlot<V>(g: Hub<V>)
    requires InRange(g) && g.phase.Sending? && g.phase.next < |g.slots|
    ensures var n, slot := g.phase.next, g.slots[g.phase.next];
      Visit(g).slots == g.slots[n := if slot.Some? && g.subs[slot.value].cancelled then None else slot]
  {
  }

  predicate HalfNil(slots: seq<Option<nat>>)
  {
    Nils(slots) > 0 && Nils(slots) >= |slots| / 2
  }

  /** The slots are those of the receivers that had one and were not cancelled, in order. */
  ghost predicate OnlyTheOthers<V>(h: Hub<V>, slots: seq<Option<nat>>)
  {
    && None !in slots && Ordered(slots)
    && forall r :: 0 <= r < |h.subs| ==> (Some(r) in slots <==> Seated(h, r) && !h.subs[r].cancelled)
  }

  /** Cancelled receivers leave the list in the end: a broadcast makes their slots nil; if at least
      half of them are nil then, the next broadcast starts a clean-up, and when it runs no
      cancelled receiver and no nil slot is left, and the others stay in order. */
  lemma CancelledLeaveInTheEnd<V>(
      h: Hub<V>, data: Data<V>, keys: set<string>, action: Action, data': Data<V>, keys': set<string>,
      action': Action)
    requires Safe(h) && h.phase.Idle?
    requires HalfNil(BroadcastAll(h, data, keys, action).slots)
    ensures BroadcastAll(BroadcastAll(h, data, keys, action), data', keys', action').clears > 0
    ensures OnlyTheOthers(h,
              Next(BroadcastAll(BroadcastAll(h, data, keys, action), data', keys', action'), Clear).slots)
  {
    var first := BroadcastAll(h, data, keys, action);
    BroadcastEach(h, data, keys, action);
    SlotCountStays(h, data, keys, action);
    BroadcastSeats(h, data, keys, action);
    var last := BroadcastAll(first, data', keys', action');
    BroadcastEach(first, data', keys', action');
    BroadcastStartsCleanUp(first, data', keys', action');
    BroadcastSeats(first, data', keys', action');
    ClearKeepsReceivers(last.slots);
  }

  lemma SlotCountStays<V>(h: Hub<V>, data: Data<V>, keys: set<string>, action: Action)
    requires Safe(h) && h.phase.Idle?
    ensures |BroadcastAll(h, data, keys, action).slots| == |h.slots|
    ensures BroadcastAll(h, data, keys, action).phase.Idle?
  {
    BroadcastSlots(h, data, keys, action);
  }

  /** After a broadcast those have a slot that had one and were not cancelled. */
  lemma BroadcastSeats<V>(h: Hub<V>, data: Data<V>, keys: set<string>, action: Action)
    requires Safe(h) && h.phase.Idle?
    ensures var h' := BroadcastAll(h, data, keys, action);
      && |h'.subs| == |h.subs|
      && forall r :: 0 <= r < |h.subs| ==>
           && (Seated(h', r) <==> Seated(h, r) && !h.subs[r].cancelled)
           && h'.subs[r].cancelled == h.subs[r].cancelled
  {
    var h' := BroadcastAll(h, data, keys, action);
    BroadcastEach(h, data, keys, action);
    BroadcastSlots(h, data, keys, action);
    forall r | 0 <= r < |h.subs|
      ensures Seated(h', r) <==> Seated(h, r) && !h.subs[r].cancelled
    {
      if Seated(h, r) {
        var i :| 0 <= i < |h.slots| && h.slots[i] == Some(r);
        assert h'.slots[i] == if h.subs[r].cancelled then None else Some(r);
      }
    }
  }

  /** A cancelled context closes its channel only at the next broadcast, not before. */
  lemma CancelDoesNotClose<V>(h: Hub<V>, r: nat)
    requires Safe(h) && r < |h.subs|
    ensures Next(h, Cancel(r)).subs[r].closed == h.subs[r].closed
    ensures h.phase.Idle? ==>
      forall data: Data<V>, keys, action :: BroadcastAll(Next(h, Cancel(r)), data, keys, action).subs[r].closed
  {
    var c := Next(h, Cancel(r));
    OtherStepsSafe(h, Cancel(r));
    if h.phase.Idle? {
      forall data: Data<V>, keys, action
        ensures BroadcastAll(c, data, keys, action).subs[r].closed
      {
        BroadcastEach(c, data, keys, action);
      }
    }
  }
}
