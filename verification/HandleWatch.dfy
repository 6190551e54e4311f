/** A watch request: the first view, then one frame for every change of the view, until the
    channel closes or a view cannot be made or encoded. */
module HandleWatch {
  import opened Text
  import opened Store
  import opened Cacher
  import opened Broadcast
  import opened EventStream

  datatype Try<+T> = Ok(value: T) | Fail(error: string)

  /** An API: how a view is made from cached data, how it is encoded, and whether a new view
      counts as a change of the one before. Most views are compared by value; the list of
      containers always counts as changed. */
  datatype Api<!V, !W> = Api(make: Data<V> -> Try<W>, encode: W -> Try<string>, changed: (W, W) -> bool)

  class EventSource {
    var wire: string               // what was written to the connection
    ghost var sent: seq<Message>
    var closed: bool

    ghost predicate Valid()
      reads this
    {
      wire == PrintAll(sent)
    }

    constructor ()
      ensures Valid() && sent == [] && !closed
    {
      wire, sent, closed := "", [], false;
    }

    /** A write to a closed connection fails and is not reported. */
    method SendEvent(id: nat, event: string, content: string)
      requires Valid()
      modifies this`wire, this`sent
      ensures Valid() && sent == if closed then old(sent) else old(sent) + [Message(id, event, content)]
    {
      var text := GenerateMessage(id, event, content);
      if !closed {
        PrintAllAppend(sent, Message(id, event, content));
        wire := wire + text;
        sent := sent + [Message(id, event, content)];
      }
    }

    /** Closing twice is closing once; only the first call closes the connection. */
    method Close() returns (closesConnection: bool)
      modifies this`closed
      ensures closed && closesConnection == !old(closed)
    {
      closesConnection := !closed;
      closed := true;
    }
  }

  lemma {:induction false} ConcatAppend<T>(parts: seq<seq<T>>, p: seq<T>)
    ensures Concat(parts + [p]) == Concat(parts) + p
    decreases |parts|
  {
    if parts == [] {
      assert [p][1..] == [];
      assert p + [] == [] + p;
    } else {
      assert (parts + [p])[1..] == parts[1..] + [p];
      ConcatAppend(parts[1..], p);
      assert parts[0] + (Concat(parts[1..]) + p) == (parts[0] + Concat(parts[1..])) + p;
    }
  }

  lemma PrintAllAppend(ms: seq<Message>, m: Message)
    ensures PrintAll(ms + [m]) == PrintAll(ms) + Print(m)
  {
    assert Prints(ms + [m]) == Prints(ms) + [Print(m)];
    ConcatAppend(Prints(ms), Print(m));
  }

  function ErrorFrame(error: string): Message
  {
    Message(0, ERROR.Name(), error)
  }

  /** What is sent for a note, the view after it, and whether the request ends. */
  datatype Turn<W> = Turn(frames: seq<Message>, view: W, ends: bool)

  /** An ERROR note carries a map, which is not a kind of data that can be sent: nothing is
      written for it. */
  function TakeNote<V, W>(api: Api<V, W>, view: W, note: Note<V>): Turn<W>
  {
    if note.action.ERROR? then Turn([], view, false)
    else
      match api.make(note.data)
      case Fail(error) => Turn([ErrorFrame(error)], view, true)
      case Ok(next) =>
        if !api.changed(view, next) then Turn([], next, false)
        else
          match api.encode(next)
          case Fail(error) => Turn([ErrorFrame(error)], next, true)
          case Ok(content) => Turn([Message(note.id, note.action.Name(), content)], next, false)
  }

  /** The frames for the notes that follow a view. */
  function Frames<V, W>(api: Api<V, W>, view: W, notes: seq<Note<V>>): seq<Message>
  {
    if notes == [] then []
    else
      var turn := TakeNote(api, view, notes[0]);
      turn.frames + if turn.ends then [] else Frames(api, turn.view, notes[1..])
  }

  /** All frames of a request. data is the watcher's answer to the first query; None is its
      error. */
  function Stream<V, W>(api: Api<V, W>, data: Option<Data<V>>, notes: seq<Note<V>>): seq<Message>
  {
    match data
    case None => [ErrorFrame("empty key")]
    case Some(d) =>
      match api.make(d)
      case Fail(error) => [ErrorFrame(error)]
      case Ok(view) => FramesFrom(api, view, notes)
  }

  /** The first view's frame and those of the notes. */
  function FramesFrom<V, W>(api: Api<V, W>, view: W, notes: seq<Note<V>>): seq<Message>
  {
    match api.encode(view)
    case Fail(error) => [ErrorFrame(error)]
    case Ok(content) => [Message(1, INIT.Name(), content)] + Frames(api, view, notes)
  }

  method Serve<V, W>(api: Api<V, W>, data: Option<Data<V>>, notes: seq<Note<V>>, es: EventSource)
    requires es.Valid()
    modifies es`wire, es`sent
    ensures es.Valid() && es.sent == if es.closed then old(es.sent) else old(es.sent) + Stream(api, data, notes)
  {
    if data.None? {
      es.SendEvent(0, ERROR.Name(), "empty key");
      return;
    }
    var made := api.make(data.value);
    if made.Fail? {
      es.SendEvent(0, ERROR.Name(), made.error);
      return;
    }
    ServeView(api, made.value, notes, es);
  }

  /** From the first view on. */
  method ServeView<V, W>(api: Api<V, W>, instance: W, notes: seq<Note<V>>, es: EventSource)
    requires es.Valid()
    modifies es`wire, es`sent
    ensures es.Valid() && es.sent == if es.closed then old(es.sent)
            else old(es.sent) + FramesFrom(api, instance, notes)
  {
    var content := api.encode(instance);
    if content.Fail? {
      es.SendEvent(0, ERROR.Name(), content.error);
      return;
    }
    es.SendEvent(1, INIT.Name(), content.value);
    Follow(api, instance, notes, es);
    Associate(old(es.sent), [Message(1, INIT.Name(), content.value)], Frames(api, instance, notes));
  }

  /** The loop over the channel. */
  method Follow<V, W>(api: Api<V, W>, first: W, notes: seq<Note<V>>, es: EventSource)
    requires es.Valid()
    modifies es`wire, es`sent
    ensures es.Valid() && es.sent == if es.closed then old(es.sent) else old(es.sent) + Frames(api, first, notes)
  {
    var instance, rest := first, notes;
    ghost var all := es.sent + Frames(api, instance, notes);
    while rest != []
      invariant es.Valid()
      invariant if es.closed then es.sent == old(es.sent) else es.sent + Frames(api, instance, rest) == all
      decreases |rest|
    {
      FramesBegin(api, instance, rest, es.sent);
      var ends;
      instance, ends := ServeNote(api, instance, rest[0], es);
      rest := rest[1..];
      if ends {
        return;
      }
    }
  }

  lemma {:induction false} FramesBegin<V, W>(api: Api<V, W>, view: W, notes: seq<Note<V>>, sent: seq<Message>)
    requires notes != []
    ensures var turn := TakeNote(api, view, notes[0]);
      sent + Frames(api, view, notes) ==
      (sent + turn.frames) + if turn.ends then [] else Frames(api, turn.view, notes[1..])
  {
    var turn := TakeNote(api, view, notes[0]);
    Associate(sent, turn.frames, if turn.ends then [] else Frames(api, turn.view, notes[1..]));
  }

  lemma Associate<T>(a: seq<T>, b: seq<T>, c: seq<T>)
    ensures (a + b) + c == a + (b + c)
  {
  }

  /** One turn of the loop. */
  method ServeNote<V, W>(
      api: Api<V, W>, view: W, note: Note<V>, es: EventSource) returns (instance: W, ends: bool)
    requires es.Valid()
    modifies es`wire, es`sent
    ensures es.Valid()
    ensures var turn := TakeNote(api, view, note);
      && es.sent == (if es.closed then old(es.sent) else old(es.sent) + turn.frames)
      && instance == turn.view && ends == turn.ends
  {
    instance, ends := view, false;
    if note.action.ERROR? {
      return;
    }
    var made := api.make(note.data);
    if made.Fail? {
      es.SendEvent(0, ERROR.Name(), made.error);
      return view, true;
    }
    var changed := api.changed(instance, made.value);
    instance := made.value;
    if !changed {
      return;
    }
    var content := api.encode(instance);
    if content.Fail? {
      es.SendEvent(0, ERROR.Name(), content.error);
      return instance, true;
    }
    es.SendEvent(note.id, note.action.Name(), content.value);
  }

  // ----- the frames are the changes -----

  /** The views the notes lead to after a view, up to the first that cannot be made, or that
      counts as a change and cannot be encoded. */
  function Views<V, W>(api: Api<V, W>, view: W, notes: seq<Note<V>>): seq<W>
  {
    if notes == [] then []
    else if notes[0].action.ERROR? then Views(api, view, notes[1..])
    else
      match api.make(notes[0].data)
      case Fail(_) => []
      case Ok(next) =>
        if api.changed(view, next) && api.encode(next).Fail? then [] else [next] + Views(api, next, notes[1..])
  }

  /** A list without the elements that do not count as changes of the one before. */
  function Changes<W>(changed: (W, W) -> bool, s: seq<W>): seq<W>
  {
    if |s| <= 1 then s
    else if !changed(s[|s| - 2], s[|s| - 1]) then Changes(changed, s[..|s| - 1])
    else Changes(changed, s[..|s| - 1]) + [s[|s| - 1]]
  }

  /** Every difference counts as a change. */
  ghost predicate Reports<W(!new)>(changed: (W, W) -> bool)
  {
    forall v, w :: v != w ==> changed(v, w)
  }

  /** Only differences do. */
  ghost predicate ReportsOnly<W(!new)>(changed: (W, W) -> bool)
  {
    forall v, w :: changed(v, w) ==> v != w
  }

  /** The list of changes takes its elements from the list and begins as it does. If every
      difference counts, it loses no element and ends as the list does; if only differences
      count as well, no two neighbours are equal. */
  lemma {:induction false} ChangesDiffer<W(!new)>(changed: (W, W) -> bool, s: seq<W>)
    ensures var c := Changes(changed, s);
      && (forall i :: 0 <= i < |c| ==> c[i] in s)
      && (s != [] ==> c != [] && c[0] == s[0])
      && (Reports(changed) ==> (forall x :: x in s ==> x in c) && (s != [] ==> c[|c| - 1] == s[|s| - 1]))
      && (Reports(changed) && ReportsOnly(changed) ==> forall i :: 0 < i < |c| ==> c[i] != c[i - 1])
    decreases |s|
  {
    if |s| > 1 {
      var init := s[..|s| - 1];
      ChangesDiffer(changed, init);
      assert s == init + [s[|s| - 1]];
      assert init[|init| - 1] == s[|s| - 2];
    }
  }

  /** When everything counts as a change, nothing is left out. */
  lemma {:induction false} EverythingChanges<W>(changed: (W, W) -> bool, s: seq<W>)
    ensures Changes(changed, s) == s <==> forall i :: 0 < i < |s| ==> changed(s[i - 1], s[i])
    ensures |Changes(changed, s)| <= |s|
    decreases |s|
  {
    if |s| > 1 {
      var init := s[..|s| - 1];
      EverythingChanges(changed, init);
      assert s == init + [s[|s| - 1]];
      assert forall i :: 0 <= i < |init| ==> init[i] == s[i];
    }
  }

  lemma {:induction false} ChangesAhead<W>(changed: (W, W) -> bool, a: W, s: seq<W>)
    requires s != []
    ensures Changes(changed, s) != [] && Changes(changed, s)[0] == s[0]
    ensures Changes(changed, [a] + s) ==
            [a] + if changed(a, s[0]) then Changes(changed, s) else Changes(changed, s)[1..]
    decreases |s|
  {
    var all := [a] + s;
    if |s| == 1 {
      assert all[..1] == [a];
    } else {
      var init := s[..|s| - 1];
      ChangesAhead(changed, a, init);
      assert all[..|all| - 1] == [a] + init;
    }
  }

  /** The frames that carry data. */
  function DataFrames(frames: seq<Message>): seq<Message>
  {
    if frames == [] then []
    else (if frames[0].event == ERROR.Name() then [] else [frames[0]]) + DataFrames(frames[1..])
  }

  lemma NameIsNotError(action: Action)
    ensures action.Name() == ERROR.Name() <==> action.ERROR?
  {
    assert "update"[0] != "error"[0] && "delete"[0] != "error"[0] && "get"[0] != "error"[0]
           && "init"[0] != "error"[0];
  }

  lemma {:induction false} DataFramesFirst(m: Message, rest: seq<Message>)
    ensures DataFrames([m] + rest) == (if m.event == ERROR.Name() then [] else [m]) + DataFrames(rest)
  {
    assert ([m] + rest)[1..] == rest;
  }

  /** The contents of the data frames after a view, behind the encoded view. */
  function Shown<V, W>(api: Api<V, W>, view: W, notes: seq<Note<V>>): seq<Try<string>>
  {
    [api.encode(view)] + Oks(DataFrames(Frames(api, view, notes)))
  }

  function Oks(frames: seq<Message>): seq<Try<string>>
  {
    seq(|frames|, i requires 0 <= i < |frames| => Ok(frames[i].content))
  }

  function EncodeEach<V, W>(api: Api<V, W>, views: seq<W>): seq<Try<string>>
  {
    seq(|views|, i requires 0 <= i < |views| => api.encode(views[i]))
  }

  lemma ChangedNoteShows<V, W>(api: Api<V, W>, view: W, notes: seq<Note<V>>, next: W)
    requires notes != [] && !notes[0].action.ERROR? && api.make(notes[0].data) == Ok(next)
    requires api.changed(view, next) && api.encode(next).Ok?
    ensures Shown(api, view, notes) == [api.encode(view)] + Shown(api, next, notes[1..])
  {
    var m := Message(notes[0].id, notes[0].action.Name(), api.encode(next).value);
    NameIsNotError(notes[0].action);
    var rest := Frames(api, next, notes[1..]);
    assert Frames(api, view, notes) == [m] + rest;
    DataFramesFirst(m, rest);
    assert Oks([m] + DataFrames(rest)) == [api.encode(next)] + Oks(DataFrames(rest));
  }

  lemma {:induction false} UnchangedNoteShows<V, W>(api: Api<V, W>, view: W, notes: seq<Note<V>>, next: W)
    requires notes != [] && !notes[0].action.ERROR? && api.make(notes[0].data) == Ok(next) && !api.changed(view, next)
    ensures Frames(api, view, notes) == Frames(api, next, notes[1..])
    ensures Shown(api, view, notes) == [api.encode(view)] + Shown(api, next, notes[1..])[1..]
  {
    assert Frames(api, view, notes) == [] + Frames(api, next, notes[1..]);
  }

  lemma FailedNoteShows<V, W>(api: Api<V, W>, view: W, notes: seq<Note<V>>)
    requires notes != [] && TakeNote(api, view, notes[0]).ends
    ensures Shown(api, view, notes) == [api.encode(view)]
  {
    var turn := TakeNote(api, view, notes[0]);
    assert Frames(api, view, notes) == turn.frames;
    assert turn.frames == [turn.frames[0]] + [];
    DataFramesFirst(turn.frames[0], []);
  }

  /** The data frames after a view are the encoded changes of the views that follow it. */
  lemma {:induction false} FramesAreChanges<V, W>(api: Api<V, W>, view: W, notes: seq<Note<V>>)
    ensures Shown(api, view, notes) == EncodeEach(api, Changes(api.changed, [view] + Views(api, view, notes)))
  {
    if notes == [] {
      assert [view] + Views(api, view, notes) == [view];
    } else if notes[0].action.ERROR? {
      FramesAreChanges(api, view, notes[1..]);
      assert Frames(api, view, notes) == Frames(api, view, notes[1..]);
    } else if TakeNote(api, view, notes[0]).ends {
      FailedNoteShows(api, view, notes);
      assert [view] + Views(api, view, notes) == [view];
    } else {
      var next := api.make(notes[0].data).value;
      FramesAreChanges(api, next, notes[1..]);
      MadeNoteShows(api, view, notes, next);
    }
  }

  lemma {:induction false} MadeNoteShows<V, W>(api: Api<V, W>, view: W, notes: seq<Note<V>>, next: W)
    requires notes != [] && !notes[0].action.ERROR? && api.make(notes[0].data) == Ok(next)
    requires !TakeNote(api, view, notes[0]).ends
    requires Shown(api, next, notes[1..]) ==
             EncodeEach(api, Changes(api.changed, [next] + Views(api, next, notes[1..])))
    ensures Shown(api, view, notes) == EncodeEach(api, Changes(api.changed, [view] + Views(api, view, notes)))
  {
    var views := [next] + Views(api, next, notes[1..]);
    var changes := Changes(api.changed, views);
    ChangesAhead(api.changed, view, views);
    if api.changed(view, next) {
      ChangedNoteShows(api, view, notes, next);
      EncodeAhead(api, view, changes);
    } else {
      UnchangedNoteShows(api, view, notes, next);
      EncodeAhead(api, view, changes[1..]);
      assert EncodeEach(api, changes[1..]) == EncodeEach(api, changes)[1..];
    }
  }

  lemma EncodeAhead<V, W>(api: Api<V, W>, view: W, views: seq<W>)
    ensures EncodeEach(api, [view] + views) == [api.encode(view)] + EncodeEach(api, views)
  {
  }

  /** All views of a request, the initial one included. */
  function AllViews<V, W>(api: Api<V, W>, data: Option<Data<V>>, notes: seq<Note<V>>): seq<W>
  {
    if data.Some? && api.make(data.value).Ok? && api.encode(api.make(data.value).value).Ok?
    then (var view := api.make(data.value).value; [view] + Views(api, view, notes)) else []
  }

  /** The data frames of a request are exactly the changes of its views, encoded, in order. */
  lemma StreamIsChanges<V, W>(api: Api<V, W>, data: Option<Data<V>>, notes: seq<Note<V>>)
    ensures Oks(DataFrames(Stream(api, data, notes))) ==
            EncodeEach(api, Changes(api.changed, AllViews(api, data, notes)))
  {
    var views := AllViews(api, data, notes);
    var stream := Stream(api, data, notes);
    if views == [] {
      assert stream == [stream[0]] + [];
      DataFramesFirst(stream[0], []);
    } else {
      var first, rest := Message(1, INIT.Name(), api.encode(views[0]).value), Frames(api, views[0], notes);
      FramesAreChanges(api, views[0], notes);
      NameIsNotError(INIT);
      DataFramesFirst(first, rest);
      assert Oks([first] + DataFrames(rest)) == [api.encode(views[0])] + Oks(DataFrames(rest));
    }
  }

  /** So, when every difference of views counts, after any number of notes the last data frame
      shows the view the last of them led to; and when only differences count and encoding
      tells views apart, neighbouring data frames differ. */
  lemma FramesShowTheView<V, W(!new)>(api: Api<V, W>, data: Option<Data<V>>, notes: seq<Note<V>>)
    requires Reports(api.changed)
    ensures var views := AllViews(api, data, notes);
      var frames := DataFrames(Stream(api, data, notes));
      && (views != [] ==> frames != [] && api.encode(views[|views| - 1]) == Ok(frames[|frames| - 1].content))
      && (ReportsOnly(api.changed) && (forall v, w :: api.encode(v) == api.encode(w) ==> v == w) ==>
            forall i :: 0 < i < |frames| ==> frames[i].content != frames[i - 1].content)
  {
    StreamIsChanges(api, data, notes);
    var views := AllViews(api, data, notes);
    var changes := Changes(api.changed, views);
    var frames := DataFrames(Stream(api, data, notes));
    ChangesDiffer(api.changed, views);
    assert |Oks(frames)| == |EncodeEach(api, changes)|;
    forall i | 0 <= i < |frames|
      ensures api.encode(changes[i]) == Ok(frames[i].content)
    {
      assert Oks(frames)[i] == EncodeEach(api, changes)[i];
    }
    if ReportsOnly(api.changed) && forall v, w :: api.encode(v) == api.encode(w) ==> v == w {
      forall i | 0 < i < |frames|
        ensures frames[i].content != frames[i - 1].content
      {
        assert changes[i] != changes[i - 1];
        assert api.encode(changes[i]) != api.encode(changes[i - 1]);
      }
    }
  }

  /** Where everything counts as a change, every view is sent, repeated or not. */
  lemma EveryViewIsSent<V, W(!new)>(api: Api<V, W>, data: Option<Data<V>>, notes: seq<Note<V>>)
    requires forall v, w :: api.changed(v, w)
    ensures Oks(DataFrames(Stream(api, data, notes))) == EncodeEach(api, AllViews(api, data, notes))
  {
    StreamIsChanges(api, data, notes);
    EverythingChanges(api.changed, AllViews(api, data, notes));
  }

  // ----- the last frame -----

  /** The view of the data can be made and encoded. */
  ghost predicate Showable<V, W>(api: Api<V, W>, data: Data<V>)
  {
    api.make(data).Ok? && api.encode(api.make(data).value).Ok?
  }

  /** So can those of all these notes. */
  ghost predicate AllShowable<V, W>(api: Api<V, W>, notes: seq<Note<V>>)
  {
    forall i :: 0 <= i < |notes| ==> Showable(api, notes[i].data)
  }

  predicate NoErrors<V>(notes: seq<Note<V>>)
  {
    forall i :: 0 <= i < |notes| ==> !notes[i].action.ERROR?
  }

  lemma {:induction false} LastView<V, W>(api: Api<V, W>, view: W, notes: seq<Note<V>>)
    requires notes != [] && NoErrors(notes) && AllShowable(api, notes)
    ensures Views(api, view, notes) != []
    ensures api.make(notes[|notes| - 1].data) == Ok(Views(api, view, notes)[|Views(api, view, notes)| - 1])
  {
    var next := api.make(notes[0].data).value;
    assert Showable(api, notes[0].data);
    if |notes| > 1 {
      LastView(api, next, notes[1..]);
    } else {
      assert Views(api, next, notes[1..]) == [];
    }
  }

  /** The views made from a and b encode alike. */
  ghost predicate Alike<V, W>(api: Api<V, W>, a: Data<V>, b: Data<V>)
  {
    Showable(api, a) && Showable(api, b) && api.encode(api.make(a).value) == api.encode(api.make(b).value)
  }

  /** The last data frame of a request whose views can all be shown shows the view of any given
      data exactly when the data look like those of the last note, or without notes like the
      first answer. */
  lemma {:induction false} LastFrameShows<V, W(!new)>(
      api: Api<V, W>, data: Data<V>, notes: seq<Note<V>>, now: Data<V>)
    requires Reports(api.changed) && Showable(api, data) && NoErrors(notes) && AllShowable(api, notes)
    ensures var frames := DataFrames(Stream(api, Some(data), notes));
      && frames != []
      && (FrameShows(api, now, frames[|frames| - 1]) <==>
            Alike(api, if notes == [] then data else notes[|notes| - 1].data, now))
  {
    FramesShowTheView(api, Some(data), notes);
    var views := AllViews(api, Some(data), notes);
    if notes != [] {
      LastView(api, views[0], notes);
      assert Showable(api, notes[|notes| - 1].data);
      assert views[|views| - 1] == Views(api, views[0], notes)[|Views(api, views[0], notes)| - 1];
    }
  }

  /** The receiver is open and has read everything, its latest note was not dropped, and no
      broadcast has yet to reach it. */
  ghost predicate Settled<V>(h: Hub<V>, r: nat)
    requires InRange(h)
  {
    r < |h.subs| && !h.subs[r].closed && h.subs[r].pending == [] && !h.subs[r].missed && !Due(h, r)
  }

  /** From the cache to the client: what the last data frame of a request shows that has read
      everything, notes or none. If its receiver was not overlooked, the frame shows the present
      view exactly when there was a note, or the view did not change between the request's
      first query and its registration; whatever happened, exactly when the data last used
      look like the present ones. */
  lemma {:induction false} LastFrameIsCurrentExactly<V, W(!new)>(
      api: Api<V, W>, h: Hub<V>, overlooked: set<nat>, r: nat, data: Data<V>)
    requires Reports(api.changed) && InRange(h) && Coherent(h, overlooked) && Settled(h, r)
    requires Showable(api, data) && NoErrors(h.subs[r].taken) && AllShowable(api, h.subs[r].taken)
    ensures var s := h.subs[r];
      var now := Lookup(h.data, s.key);
      var frames := DataFrames(Stream(api, Some(data), s.taken));
      && frames != []
      && (r !in overlooked ==>
            (FrameShows(api, now, frames[|frames| - 1]) <==> s.taken != [] || Alike(api, data, s.start)))
      && (FrameShows(api, now, frames[|frames| - 1]) <==>
            Alike(api, if s.taken == [] then data else s.Held(), now))
  {
    var s := h.subs[r];
    var now := Lookup(h.data, s.key);
    assert s.Sent() == s.taken;
    LastFrameShows(api, data, s.taken, now);
    assert Accounted(s, h.data, r in overlooked);
    if s.taken != [] {
      assert Showable(api, s.taken[|s.taken| - 1].data);
    }
  }

  // ----- how a request ends -----

  /** How a request begins: with one frame of the first view, or with one error and nothing else
      when the first query, the view or its encoding fails. */
  lemma {:induction false} RequestBegins<V, W>(api: Api<V, W>, data: Option<Data<V>>, notes: seq<Note<V>>)
    ensures data.None? ==> Stream(api, data, notes) == [Message(0, "error", "empty key")]
    ensures data.Some? && api.make(data.value).Fail? ==>
              Stream(api, data, notes) == [Message(0, "error", api.make(data.value).error)]
    ensures data.Some? && api.make(data.value).Ok? ==>
              match api.encode(api.make(data.value).value)
              case Fail(error) => Stream(api, data, notes) == [Message(0, "error", error)]
              case Ok(content) =>
                Stream(api, data, notes) ==
                [Message(1, "init", content)] + Frames(api, api.make(data.value).value, notes)
  {
  }

  /** After the view shown the note cannot be served: its view cannot be made, or it counts as a
      change and cannot be encoded. */
  predicate Breaks<V, W>(api: Api<V, W>, view: W, note: Note<V>, error: string)
  {
    !note.action.ERROR? &&
    match api.make(note.data)
    case Fail(e) => e == error
    case Ok(next) => api.changed(view, next) && api.encode(next) == Fail(error)
  }

  /** The view a request has come to. */
  function ViewAfter<V, W>(api: Api<V, W>, view: W, notes: seq<Note<V>>): W
    requires forall i :: 0 <= i < |notes| ==> api.make(notes[i].data).Ok?
  {
    if notes == [] then view else api.make(notes[|notes| - 1].data).value
  }

  /** The first note that cannot be served ends the request: one error frame with id 0 and the
      error as its content is the last, whatever follows, and nothing before it is an error. */
  lemma {:induction false} FirstFailureEnds<V, W>(
      api: Api<V, W>, view: W, notes: seq<Note<V>>, n: nat, error: string)
    requires n < |notes| && NoErrors(notes[..n]) && AllShowable(api, notes[..n])
    requires Breaks(api, ViewAfter(api, view, notes[..n]), notes[n], error)
    ensures Frames(api, view, notes) == Frames(api, view, notes[..n]) + [Message(0, "error", error)]
    ensures DataFrames(Frames(api, view, notes[..n])) == Frames(api, view, notes[..n])
  {
    assert notes == notes[..n] + notes[n..];
    ShowableThenFails(api, view, notes[..n], notes[n..], error);
  }

  lemma {:induction false} ShowableThenFails<V, W>(
      api: Api<V, W>, view: W, init: seq<Note<V>>, more: seq<Note<V>>, error: string)
    requires NoErrors(init) && AllShowable(api, init) && more != []
    requires Breaks(api, ViewAfter(api, view, init), more[0], error)
    ensures Frames(api, view, init + more) == Frames(api, view, init) + [Message(0, "error", error)]
    ensures DataFrames(Frames(api, view, init)) == Frames(api, view, init)
  {
    if init == [] {
      assert init + more == more;
    } else {
      assert (init + more)[0] == init[0] && (init + more)[1..] == init[1..] + more;
      assert Showable(api, init[0].data);
      var turn := TakeNote(api, view, init[0]);
      ShowableThenFails(api, turn.view, init[1..], more, error);
      FirstNoteShows(api, view, init[0], Frames(api, turn.view, init[1..]));
    }
  }

  /** What is sent for a note whose view can be made and encoded is data. */
  lemma {:induction false} FirstNoteShows<V, W>(api: Api<V, W>, view: W, note: Note<V>, tail: seq<Message>)
    requires !note.action.ERROR? && Showable(api, note.data)
    requires DataFrames(tail) == tail
    ensures var frames := TakeNote(api, view, note).frames; DataFrames(frames + tail) == frames + tail
  {
    var frames := TakeNote(api, view, note).frames;
    NameIsNotError(note.action);
    if frames == [] {
      assert frames + tail == tail;
    } else {
      assert frames == [frames[0]];
      DataFramesFirst(frames[0], tail);
    }
  }

  /** The frame is the note's: it has its number, says what happened, and shows the view made from
      its data. */
  ghost predicate FrameOf<V, W>(api: Api<V, W>, note: Note<V>, f: Message)
  {
    && f.id == note.id && FrameShows(api, note.data, f)
    && (note.action.SET? || note.action.UPDATE? ==> f.event == "update")
    && (note.action.DELETE? ==> f.event == "delete")
  }

  lemma TurnIsOfNote<V, W>(api: Api<V, W>, view: W, note: Note<V>)
    ensures var turn := TakeNote(api, view, note);
      !turn.ends ==> forall f :: f in turn.frames ==> FrameOf(api, note, f)
  {
  }

  /** Every data frame after the first is that of a note. */
  lemma {:induction false} FramesAreMade<V, W>(api: Api<V, W>, view: W, notes: seq<Note<V>>)
    ensures forall f :: f in DataFrames(Frames(api, view, notes)) ==>
            exists i :: 0 <= i < |notes| && FrameOf(api, notes[i], f)
  {
    if notes != [] {
      var turn := TakeNote(api, view, notes[0]);
      var tail := if turn.ends then [] else Frames(api, turn.view, notes[1..]);
      FramesAreMade(api, turn.view, notes[1..]);
      TurnIsOfNote(api, view, notes[0]);
      if turn.frames == [] {
        assert turn.frames + tail == tail;
      } else {
        assert turn.frames == [turn.frames[0]];
        DataFramesFirst(turn.frames[0], tail);
      }
      forall f | f in DataFrames(Frames(api, view, notes))
        ensures exists i :: 0 <= i < |notes| && FrameOf(api, notes[i], f)
      {
        if f in DataFrames(tail) {
          var i :| 0 <= i < |notes[1..]| && FrameOf(api, notes[1..][i], f);
          assert notes[i + 1] == notes[1..][i];
        } else {
          assert FrameOf(api, notes[0], f);
        }
      }
    }
  }

  /** The frame shows the view made from the snapshot. */
  ghost predicate FrameShows<V, W>(api: Api<V, W>, snapshot: Data<V>, f: Message)
  {
    api.make(snapshot).Ok? && api.encode(api.make(snapshot).value) == Ok(f.content)
  }

  /** Every data frame of a request is the first, with number 1 and the event "init", or that of a
      note. */
  lemma {:induction false} StreamIsMade<V, W>(api: Api<V, W>, data: Option<Data<V>>, notes: seq<Note<V>>, f: Message)
    requires f in DataFrames(Stream(api, data, notes))
    ensures (data.Some? && f.id == 1 && f.event == "init" && FrameShows(api, data.value, f)) ||
            exists i :: 0 <= i < |notes| && FrameOf(api, notes[i], f)
  {
    RequestBegins(api, data, notes);
    if data.Some? && Showable(api, data.value) {
      var view := api.make(data.value).value;
      var first, rest := Message(1, "init", api.encode(view).value), Frames(api, view, notes);
      DataFramesFirst(first, rest);
      FramesAreMade(api, view, notes);
    }
  }

  // ----- to the client -----

  /** What the frames of a request must be for the client to read them back. */
  ghost predicate Sendable<V(!new), W(!new)>(api: Api<V, W>)
  {
    && (forall d :: api.make(d).Fail? ==> Line(api.make(d).error))
    && (forall w :: match api.encode(w) case Ok(content) => Line(content) case Fail(error) => Line(error))
  }

  predicate Line(s: string)
  {
    s != "" && OneLine(s)
  }

  lemma NamesAreLines(action: Action)
    ensures OneLine(action.Name()) && action.Name() != "heartbeat"
  {
    assert |"heartbeat"| == 9;
  }

  lemma {:induction false} FramesAreWellFormed<V(!new), W(!new)>(api: Api<V, W>, view: W, notes: seq<Note<V>>)
    requires Sendable(api) && forall i :: 0 <= i < |notes| ==> notes[i].id < INT64_LIMIT
    ensures forall f :: f in Frames(api, view, notes) ==> RoundTrips(f) && f.event != "heartbeat"
  {
    if notes != [] {
      NamesAreLines(notes[0].action);
      NamesAreLines(ERROR);
      FramesAreWellFormed(api, TakeNote(api, view, notes[0]).view, notes[1..]);
    }
  }

  lemma StreamIsWellFormed<V(!new), W(!new)>(api: Api<V, W>, data: Option<Data<V>>, notes: seq<Note<V>>)
    requires Sendable(api) && forall i :: 0 <= i < |notes| ==> notes[i].id < INT64_LIMIT
    ensures forall f :: f in Stream(api, data, notes) ==> RoundTrips(f) && f.event != "heartbeat"
  {
    NamesAreLines(ERROR);
    NamesAreLines(INIT);
    var views := AllViews(api, data, notes);
    if views != [] {
      FramesAreWellFormed(api, views[0], notes);
    }
    assert Line("empty key");
  }

  const HEARTBEAT := Message(0, "heartbeat", "")

  function WithoutHeartbeats(ms: seq<Message>): seq<Message>
  {
    if ms == [] then []
    else (if ms[0] == HEARTBEAT then [] else [ms[0]]) + WithoutHeartbeats(ms[1..])
  }

  /** The responses that are not heartbeats. */
  function Contents(rs: seq<Response>): seq<Response>
  {
    if rs == [] then []
    else (if rs[0].event == "heartbeat" then [] else [rs[0]]) + Contents(rs[1..])
  }

  lemma {:induction false} HeartbeatsRoundTrip(ms: seq<Message>)
    requires forall f :: f in WithoutHeartbeats(ms) ==> RoundTrips(f)
    ensures forall i :: 0 <= i < |ms| ==> RoundTrips(ms[i])
    decreases |ms|
  {
    if ms != [] {
      HeartbeatsRoundTrip(ms[1..]);
      if ms[0] != HEARTBEAT {
        assert ms[0] in WithoutHeartbeats(ms);
      }
      assert ms == [ms[0]] + ms[1..];
    }
  }

  lemma {:induction false} HeartbeatsAside(ms: seq<Message>)
    requires forall f :: f in WithoutHeartbeats(ms) ==> f.event != "heartbeat"
    ensures Contents(ExpectedAll(ms)) == ExpectedAll(WithoutHeartbeats(ms))
    decreases |ms|
  {
    if ms != [] {
      HeartbeatsAside(ms[1..]);
      FirstAside(ms);
      if ms[0] != HEARTBEAT {
        assert ms[0] in WithoutHeartbeats(ms);
        ExpectedFirst(ms[0], WithoutHeartbeats(ms[1..]));
      }
    }
  }

  lemma ExpectedFirst(m: Message, rest: seq<Message>)
    ensures ExpectedAll([m] + rest) == [Expected(m)] + ExpectedAll(rest)
  {
  }

  lemma {:induction false} FirstAside(ms: seq<Message>)
    requires ms != []
    ensures Contents(ExpectedAll(ms)) ==
            (if ms[0].event == "heartbeat" then [] else [Expected(ms[0])]) + Contents(ExpectedAll(ms[1..]))
  {
    assert ExpectedAll(ms)[1..] == ExpectedAll(ms[1..]);
  }

  /** From end to end: when views encode to single lines, the client reads from a request's
      connection exactly what the server sent, the heartbeats that another goroutine sends in
      between included; leaving those aside, exactly the frames of the request. */
  lemma {:induction false} ClientReadsTheStream<V(!new), W(!new)>(
      api: Api<V, W>, data: Option<Data<V>>, notes: seq<Note<V>>, sent: seq<Message>)
    requires Sendable(api) && forall i :: 0 <= i < |notes| ==> notes[i].id < INT64_LIMIT
    requires WithoutHeartbeats(sent) == Stream(api, data, notes)
    ensures Decode(FRESH, PrintAll(sent)) == ExpectedAll(sent)
    ensures Contents(Decode(FRESH, PrintAll(sent))) == ExpectedAll(Stream(api, data, notes))
  {
    StreamIsWellFormed(api, data, notes);
    HeartbeatsRoundTrip(sent);
    HeartbeatsAside(sent);
    RoundTripExactly(sent);
  }
}
