/** The numbers of a request's frames. */
module FrameIds {
  import opened Text
  import opened Store
  import opened Cacher
  import opened Broadcast
  import opened EventStream
  import opened HandleWatch

  /** A channel's notes, as the broadcast protocol numbers them. */
  predicate Numbered<V>(notes: seq<Note<V>>, first: nat)
  {
    forall i :: 0 <= i < |notes| ==> notes[i].id == first + i
  }

  ghost predicate Increasing(frames: seq<Message>, first: nat)
  {
    && (forall i :: 0 <= i < |frames| ==> first <= frames[i].id)
    && (forall i :: 0 < i < |frames| ==> frames[i - 1].id < frames[i].id)
  }

  lemma IncreasingFirst(m: Message, later: seq<Message>)
    requires Increasing(later, m.id + 1)
    ensures Increasing([m] + later, m.id)
  {
    var frames := [m] + later;
    forall i | 0 < i < |frames|
      ensures frames[i] == later[i - 1] && frames[i - 1].id < frames[i].id
    {
    }
  }

  /** A note gives nothing, one data frame with its number, or one error frame at the end. */
  lemma TurnFrames<V, W>(api: Api<V, W>, view: W, note: Note<V>)
    ensures var turn := TakeNote(api, view, note);
      if turn.frames == [] then !turn.ends
      else |turn.frames| == 1 && if turn.ends then turn.frames[0].event == ERROR.Name()
                                 else turn.frames[0].event != ERROR.Name() && turn.frames[0].id == note.id
  {
    NameIsNotError(note.action);
  }

  /** The numbers of a request's data frames increase, from the note they begin with. */
  lemma {:induction false} IdsIncrease<V, W>(api: Api<V, W>, view: W, notes: seq<Note<V>>, first: nat)
    requires Numbered(notes, first)
    ensures Increasing(DataFrames(Frames(api, view, notes)), first)
  {
    if notes != [] {
      var turn := TakeNote(api, view, notes[0]);
      var tail := if turn.ends then [] else Frames(api, turn.view, notes[1..]);
      IdsIncrease(api, turn.view, notes[1..], first + 1);
      TurnFrames(api, view, notes[0]);
      assert Frames(api, view, notes) == turn.frames + tail;
      IncreasingAhead(turn.frames, tail, turn.ends, first);
    }
  }

  lemma {:induction false} IncreasingAhead(frames: seq<Message>, tail: seq<Message>, ends: bool, first: nat)
    requires if ends then tail == [] else Increasing(DataFrames(tail), first + 1)
    requires frames == []
             || (|frames| == 1 && if frames[0].event == ERROR.Name() then ends else frames[0].id == first)
    ensures Increasing(DataFrames(frames + tail), first)
  {
    if frames == [] {
      assert frames + tail == tail;
    } else {
      assert frames == [frames[0]];
      DataFramesFirst(frames[0], tail);
      IncreasingFirst(frames[0].(id := first), DataFrames(tail));
    }
  }

  /** In every safe state of the broadcast protocol the data frames of a request are numbered in
      increasing order, from 1 for the initial one. */
  lemma SafeStatesNumberFrames<V, W>(api: Api<V, W>, h: Hub<V>, r: nat, data: Option<Data<V>>)
    requires Safe(h) && r < |h.subs|
    ensures Increasing(DataFrames(Stream(api, data, h.subs[r].taken)), 1)
  {
    var s := h.subs[r];
    forall i | 0 <= i < |s.taken|
      ensures s.taken[i].id == 2 + i
    {
      assert s.taken[i] == s.Sent()[i];
    }
    StreamIdsIncrease(api, data, s.taken);
  }

  /** So under every interleaving. */
  lemma {:induction false} EveryRunNumbersFrames<V, W>(
      api: Api<V, W>, cached: Data<V>, steps: seq<Step<V>>, r: nat, data: Option<Data<V>>)
    ensures var h := Run(Start(cached), steps);
      r < |h.subs| ==> Increasing(DataFrames(Stream(api, data, h.subs[r].taken)), 1)
  {
    var h := Run(Start(cached), steps);
    EveryRunIsSafe(cached, steps);
    if r < |h.subs| {
      SafeStatesNumberFrames(api, h, r, data);
    }
  }

  lemma {:induction false} StreamIdsIncrease<V, W>(api: Api<V, W>, data: Option<Data<V>>, notes: seq<Note<V>>)
    requires Numbered(notes, 2)
    ensures Increasing(DataFrames(Stream(api, data, notes)), 1)
  {
    var views := AllViews(api, data, notes);
    var stream := Stream(api, data, notes);
    if views == [] {
      assert stream == [stream[0]] + [];
      DataFramesFirst(stream[0], []);
    } else {
      var first, rest := Message(1, INIT.Name(), api.encode(views[0]).value), Frames(api, views[0], notes);
      IdsIncrease(api, views[0], notes, 2);
      NameIsNotError(INIT);
      DataFramesFirst(first, rest);
      IncreasingFirst(first, DataFrames(rest));
    }
  }

  /** The view at i counts as a change of the one before. */
  predicate ChangeAt<W>(changed: (W, W) -> bool, views: seq<W>, i: int)
    requires 0 < i < |views|
  {
    changed(views[i - 1], views[i])
  }

  /** No view that counts as a change comes after one that does not. */
  ghost predicate ChangesFirst<W>(changed: (W, W) -> bool, views: seq<W>)
  {
    forall i, j :: 0 < i < j < |views| && !ChangeAt(changed, views, i) ==> !ChangeAt(changed, views, j)
  }

  /** No view counts as a change of the one before. */
  ghost predicate NoChange<W>(changed: (W, W) -> bool, views: seq<W>)
  {
    forall i :: 0 < i < |views| ==> !ChangeAt(changed, views, i)
  }

  ghost predicate Consecutive(frames: seq<Message>, first: nat)
  {
    forall i :: 0 <= i < |frames| ==> frames[i].id == first + i
  }

  lemma {:induction false} OneChange<W>(changed: (W, W) -> bool, views: seq<W>)
    requires views != []
    ensures Changes(changed, views) != []
    ensures |Changes(changed, views)| == 1 <==> NoChange(changed, views)
    decreases |views|
  {
    if |views| > 1 {
      var init := views[..|views| - 1];
      OneChange(changed, init);
      assert NoChange(changed, views) <==> NoChange(changed, init) && !ChangeAt(changed, views, |views| - 1) by {
        assert forall i :: 0 < i < |init| ==> ChangeAt(changed, views, i) == ChangeAt(changed, init, i);
      }
      assert forall i :: 0 < i < |init| ==> ChangeAt(changed, init, i) == ChangeAt(changed, views, i);
    }
  }

  lemma {:induction false} NoFramesWithoutChange<V, W>(api: Api<V, W>, view: W, notes: seq<Note<V>>)
    ensures DataFrames(Frames(api, view, notes)) == [] <==> NoChange(api.changed, [view] + Views(api, view, notes))
  {
    var views := [view] + Views(api, view, notes);
    FramesAreChanges(api, view, notes);
    OneChange(api.changed, views);
    assert |Shown(api, view, notes)| == |EncodeEach(api, Changes(api.changed, views))|;
  }

  lemma OneViewMore<W>(changed: (W, W) -> bool, view: W, later: seq<W>)
    requires later != []
    ensures ChangesFirst(changed, [view] + later) <==>
            if changed(view, later[0]) then ChangesFirst(changed, later) else NoChange(changed, later)
  {
    var all := [view] + later;
    assert ChangeAt(changed, all, 1) == changed(view, later[0]);
    forall i | 0 < i < |later|
      ensures ChangeAt(changed, later, i) == ChangeAt(changed, all, i + 1)
    {
    }
    forall i | 1 < i < |all|
      ensures ChangeAt(changed, all, i) == ChangeAt(changed, later, i - 1)
    {
    }
  }

  /** The data frames are numbered without gaps, as the API's documentation says, exactly when
      no note that changes nothing comes before one that changes the view. */
  lemma {:induction false} IdsAreConsecutiveExactly<V, W>(api: Api<V, W>, view: W, notes: seq<Note<V>>, first: nat)
    requires Numbered(notes, first) && NoErrors(notes)
    ensures Consecutive(DataFrames(Frames(api, view, notes)), first) <==>
            ChangesFirst(api.changed, [view] + Views(api, view, notes))
  {
    if notes != [] {
      if TakeNote(api, view, notes[0]).ends {
        FailedNoteShows(api, view, notes);
        assert |Shown(api, view, notes)| == 1;
      } else {
        var next := api.make(notes[0].data).value;
        if api.changed(view, next) {
          ChangedIds(api, view, notes, next, first);
          IdsAreConsecutiveExactly(api, next, notes[1..], first + 1);
        } else {
          UnchangedIds(api, view, notes, next, first);
        }
        OneViewMore(api.changed, view, [next] + Views(api, next, notes[1..]));
        assert Views(api, view, notes) == [next] + Views(api, next, notes[1..]);
      }
    }
  }

  lemma {:induction false} UnchangedIds<V, W>(api: Api<V, W>, view: W, notes: seq<Note<V>>, next: W, first: nat)
    requires Numbered(notes, first) && notes != [] && !notes[0].action.ERROR?
    requires api.make(notes[0].data) == Ok(next) && !api.changed(view, next)
    ensures Consecutive(DataFrames(Frames(api, view, notes)), first) <==>
            NoChange(api.changed, [next] + Views(api, next, notes[1..]))
  {
    var rest := notes[1..];
    UnchangedNoteShows(api, view, notes, next);
    IdsIncrease(api, next, rest, first + 1);
    NoFramesWithoutChange(api, next, rest);
    var frames := DataFrames(Frames(api, next, rest));
    if frames != [] {
      assert frames[0].id > first;
    }
  }

  lemma {:induction false} ChangedIds<V, W>(api: Api<V, W>, view: W, notes: seq<Note<V>>, next: W, first: nat)
    requires Numbered(notes, first) && notes != [] && !notes[0].action.ERROR?
    requires api.make(notes[0].data) == Ok(next) && api.changed(view, next) && api.encode(next).Ok?
    ensures Consecutive(DataFrames(Frames(api, view, notes)), first) <==>
            Consecutive(DataFrames(Frames(api, next, notes[1..])), first + 1)
  {
    var m := Message(notes[0].id, notes[0].action.Name(), api.encode(next).value);
    NameIsNotError(notes[0].action);
    var tail := Frames(api, next, notes[1..]);
    assert Frames(api, view, notes) == [m] + tail;
    DataFramesFirst(m, tail);
    ConsecutiveFirst(m, DataFrames(tail));
  }

  lemma ConsecutiveFirst(m: Message, later: seq<Message>)
    ensures Consecutive([m] + later, m.id) <==> Consecutive(later, m.id + 1)
  {
    var frames := [m] + later;
    assert forall i :: 0 <= i < |later| ==> later[i] == frames[i + 1];
    if Consecutive(later, m.id + 1) {
      forall i | 0 <= i < |frames|
        ensures frames[i].id == m.id + i
      {
        if i > 0 {
          assert frames[i] == later[i - 1];
        }
      }
    }
  }
}
