/** What a standard event-stream reader makes of the printed messages: sections 9.2.5 and 9.2.6
    of the WHATWG HTML Living Standard, without reconnection. */
module ServerSentEvents {
  import opened Text
  import opened EventStream

  /** A dispatched event: its type, data and last event ID. */
  datatype Dispatched = Dispatched(kind: string, data: string, lastEventId: string)

  /** The reader's buffers. */
  datatype Buffers = Buffers(kind: string, data: string, id: string)

  predicate EndsLine(c: char)
  {
    c == '\r' || c == '\n'
  }

  /** The length of the first line without its ending; none if the line is not ended. */
  function LineEnd(s: string): (n: Option<nat>)
    ensures n.Some? ==> n.value < |s| && EndsLine(s[n.value])
  {
    if s == "" then None
    else if EndsLine(s[0]) then Some(0)
    else match LineEnd(s[1..]) case Some(n) => Some(n + 1) case None => None
  }

  /** Where the line after one that ends at n begins: a CR LF pair is one ending. */
  function AfterLine(s: string, n: nat): (k: nat)
    requires n < |s|
    ensures n < k <= |s|
  {
    if s[n] == '\r' && n + 1 < |s| && s[n + 1] == '\n' then n + 2 else n + 1
  }

  /** A field's value without one leading space. */
  function Unspaced(value: string): string
  {
    if value != "" && value[0] == ' ' then value[1..] else value
  }

  /** A line that is not blank. */
  function ProcessLine(b: Buffers, line: string): Buffers
  {
    match ColonAt(line)
    case Some(0) => b
    case Some(n) => ProcessField(b, line[..n], Unspaced(line[n + 1..]))
    case None => ProcessField(b, line, "")
  }

  function ProcessField(b: Buffers, field: string, value: string): Buffers
  {
    if field == "event" then b.(kind := value)
    else if field == "data" then b.(data := b.data + value + "\n")
    else if field == "id" then (if '\0' in value then b else b.(id := value))
    else b
  }

  /** A blank line: the event dispatched, if there is data. */
  function Dispatch(b: Buffers): seq<Dispatched>
  {
    if b.data == "" then []
    else
      var n := |b.data| - 1;
      var data := if b.data[n] == '\n' then b.data[..n] else b.data;
      [Dispatched(if b.kind == "" then "message" else b.kind, data, b.id)]
  }

  function Interpret(b: Buffers, s: string): seq<Dispatched>
    decreases |s|
  {
    match LineEnd(s)
    case None => []  // what is left of the stream is discarded
    case Some(n) =>
      var rest := s[AfterLine(s, n)..];
      if n == 0 then Dispatch(b) + Interpret(b.(kind := "", data := ""), rest)
      else Interpret(ProcessLine(b, s[..n]), rest)
  }

  predicate NoReturn(s: string)
  {
    '\r' !in s
  }

  // ----- reading lines -----

  lemma {:induction false} FirstLineEnds(line: string, rest: string)
    requires '\n' !in line && NoReturn(line)
    ensures LineEnd(line + "\n" + rest) == Some(|line|)
    ensures (line + "\n" + rest)[..|line|] == line
    ensures AfterLine(line + "\n" + rest, |line|) == |line| + 1
    ensures (line + "\n" + rest)[|line| + 1..] == rest
  {
    if line != "" {
      assert (line + "\n" + rest)[1..] == line[1..] + "\n" + rest;
      FirstLineEnds(line[1..], rest);
    }
  }

  /** A printed field reaches the reader as it is. */
  lemma {:induction false} InterpretField(b: Buffers, name: string, value: string, rest: string)
    requires name != "" && ':' !in name && '\n' !in name && NoReturn(name)
    requires '\n' !in value && NoReturn(value)
    ensures Interpret(b, Field(name, value) + rest) == Interpret(ProcessField(b, name, value), rest)
  {
    var line := name + ": " + value;
    assert Field(name, value) + rest == line + "\n" + rest;
    FirstLineEnds(line, rest);
    assert line == name + ":" + (" " + value);
    FirstColon(name, " " + value);
    assert line[..|name|] == name && line[|name| + 1..] == " " + value;
    assert Unspaced(" " + value) == value;
  }

  lemma {:induction false} InterpretBlank(b: Buffers, rest: string)
    ensures Interpret(b, "\n" + rest) == Dispatch(b) + Interpret(b.(kind := "", data := ""), rest)
  {
    assert "\n" + rest == "" + "\n" + rest;
    FirstLineEnds("", rest);
  }

  function Terminated(lines: seq<string>): string
  {
    if lines == [] then "" else lines[0] + "\n" + Terminated(lines[1..])
  }

  lemma {:induction false} InterpretDataLines(b: Buffers, lines: seq<string>, rest: string)
    requires forall i :: 0 <= i < |lines| ==> '\n' !in lines[i] && NoReturn(lines[i])
    ensures Interpret(b, DataLines(lines) + rest) == Interpret(b.(data := b.data + Terminated(lines)), rest)
    decreases |lines|
  {
    if lines == [] {
      assert DataLines(lines) + rest == rest;
      assert b.data + "" == b.data;
    } else {
      var more := DataLines(lines[1..]) + rest;
      assert DataLines(lines) + rest == Field("data", lines[0]) + more;
      InterpretField(b, "data", lines[0], more);
      InterpretDataLines(b.(data := b.data + lines[0] + "\n"), lines[1..], rest);
      assert b.data + lines[0] + "\n" + Terminated(lines[1..]) == b.data + (lines[0] + "\n" + Terminated(lines[1..]));
    }
  }

  /** Ending every line is joining the lines and ending the last. */
  lemma {:induction false} TerminatedJoins(lines: seq<string>)
    requires lines != []
    ensures Terminated(lines) == Join(lines, '\n') + "\n"
  {
    if |lines| == 1 {
      assert lines[1..] == [];
    } else {
      TerminatedJoins(lines[1..]);
      assert lines[0] + "\n" + (Join(lines[1..], '\n') + "\n") == lines[0] + ['\n'] + Join(lines[1..], '\n') + "\n";
    }
  }

  lemma {:induction false} PiecesFrom(s: string, sep: char, c: char)
    requires c !in s
    ensures forall i :: 0 <= i < |Split(s, sep)| ==> c !in Split(s, sep)[i]
  {
    if s != "" {
      PiecesFrom(s[1..], sep, c);
    }
  }

  // ----- one message -----

  /** The type of a printed message. */
  function Kind(m: Message): string
  {
    if Strip(m.event) == "" then "message" else Strip(m.event)
  }

  function Interpreted(m: Message): seq<Dispatched>
  {
    if m.content == "" then [] else [Dispatched(Kind(m), m.content, Decimal(m.id))]
  }

  lemma {:induction false} InterpretId(b: Buffers, id: nat, rest: string)
    ensures Interpret(b, Field("id", Decimal(id)) + rest) == Interpret(b.(id := Decimal(id)), rest)
  {
    DecimalReads(id);
    InterpretField(b, "id", Decimal(id), rest);
  }

  lemma {:induction false} InterpretEvent(b: Buffers, event: string, rest: string)
    requires NoReturn(event) && b.kind == ""
    ensures Interpret(b, EventPart(event) + rest) == Interpret(b.(kind := Strip(event)), rest)
  {
    StripNoNewline(event);
    if |event| > 0 {
      InterpretField(b, "event", Strip(event), rest);
    } else {
      assert EventPart(event) + rest == rest;
    }
  }

  /** All lines of the content arrive, with the newlines between them. */
  lemma {:induction false} InterpretContent(b: Buffers, content: string, rest: string)
    requires NoReturn(content) && b.data == ""
    ensures Interpret(b, DataPart(content) + rest) ==
            Interpret(b.(data := if content == "" then "" else content + "\n"), rest)
  {
    if |content| > 0 {
      var lines := Split(content, '\n');
      PiecesFrom(content, '\n', '\r');
      InterpretDataLines(b, lines, rest);
      TerminatedJoins(lines);
      JoinSplit(content, '\n');
      assert "" + Terminated(lines) == Terminated(lines);
    } else {
      assert DataPart(content) + rest == rest;
    }
  }

  lemma DispatchContent(kind: string, content: string, id: string)
    ensures Dispatch(Buffers(kind, if content == "" then "" else content + "\n", id)) ==
            if content == "" then [] else [Dispatched(if kind == "" then "message" else kind, content, id)]
  {
    assert (content + "\n")[..|content|] == content;
  }

  /** A printed message without carriage returns dispatches its content, every newline
      preserved, under its id; it dispatches nothing exactly when the content is empty. */
  lemma {:induction false} InterpretMessage(id: string, m: Message, rest: string)
    requires NoReturn(m.event) && NoReturn(m.content)
    ensures Interpret(Buffers("", "", id), Print(m) + rest)
         == Interpreted(m) + Interpret(Buffers("", "", Decimal(m.id)), rest)
  {
    PrintParts(m, rest);
    var tail := "\n" + rest;
    InterpretId(Buffers("", "", id), m.id, EventPart(m.event) + (DataPart(m.content) + tail));
    InterpretEvent(Buffers("", "", Decimal(m.id)), m.event, DataPart(m.content) + tail);
    InterpretContent(Buffers(Strip(m.event), "", Decimal(m.id)), m.content, tail);
    var data := if m.content == "" then "" else m.content + "\n";
    InterpretBlank(Buffers(Strip(m.event), data, Decimal(m.id)), rest);
    DispatchContent(Strip(m.event), m.content, Decimal(m.id));
  }

  function InterpretedAll(ms: seq<Message>): seq<Dispatched>
  {
    if ms == [] then [] else Interpreted(ms[0]) + InterpretedAll(ms[1..])
  }

  function LastId(id: string, ms: seq<Message>): string
  {
    if ms == [] then id else Decimal(ms[|ms| - 1].id)
  }

  /** The standard reading of a printed list of messages without carriage returns gives every
      message with content, in order and unchanged. */
  lemma {:induction false} InterpretAll(id: string, ms: seq<Message>, rest: string)
    requires forall i :: 0 <= i < |ms| ==> NoReturn(ms[i].event) && NoReturn(ms[i].content)
    ensures Interpret(Buffers("", "", id), PrintAll(ms) + rest)
         == InterpretedAll(ms) + Interpret(Buffers("", "", LastId(id, ms)), rest)
    decreases |ms|
  {
    if ms == [] {
      assert PrintAll(ms) + rest == rest;
    } else {
      var more := ms[1..];
      PrintAppend(ms, rest);
      InterpretMessage(id, ms[0], PrintAll(more) + rest);
      InterpretAll(Decimal(ms[0].id), more, rest);
      InterpretedMore(ms, Interpret(Buffers("", "", LastId(id, ms)), rest));
    }
  }

  lemma {:induction false} InterpretedMore(ms: seq<Message>, after: seq<Dispatched>)
    requires ms != []
    ensures InterpretedAll(ms) + after == Interpreted(ms[0]) + (InterpretedAll(ms[1..]) + after)
  {
  }

  // ----- exactly -----

  lemma {:induction false} EndedLine(s: string)
    requires LineEnd(s).Some?
    ensures NoReturn(s[..LineEnd(s).value])
  {
    if !EndsLine(s[0]) {
      EndedLine(s[1..]);
      assert s[..LineEnd(s).value] == [s[0]] + s[1..][..LineEnd(s[1..]).value];
    }
  }

  /** No dispatched event contains a carriage return. */
  lemma {:induction false} NothingReturns(b: Buffers, s: string)
    requires NoReturn(b.kind) && NoReturn(b.data)
    ensures forall d :: d in Interpret(b, s) ==> NoReturn(d.kind) && NoReturn(d.data)
    decreases |s|
  {
    match LineEnd(s)
    case None =>
    case Some(n) =>
      EndedLine(s);
      var rest := s[AfterLine(s, n)..];
      if n == 0 {
        NothingReturns(b.(kind := "", data := ""), rest);
      } else {
        NothingReturns(ProcessLine(b, s[..n]), rest);
      }
  }

  /** A message with content reaches a standard reader unchanged exactly when neither its
      event nor its content has a carriage return. */
  lemma StandardReadsExactly(m: Message)
    requires m.content != ""
    ensures Interpret(Buffers("", "", ""), Print(m)) == Interpreted(m) <==> NoReturn(m.event) && NoReturn(m.content)
  {
    var read := Interpret(Buffers("", "", ""), Print(m));
    if NoReturn(m.event) && NoReturn(m.content) {
      InterpretMessage("", m, "");
      assert Print(m) + "" == Print(m);
      assert Interpret(Buffers("", "", Decimal(m.id)), "") == [];
    }
    if read == Interpreted(m) {
      NothingReturns(Buffers("", "", ""), Print(m));
      assert Interpreted(m)[0] in read;
      StripNoNewline(m.event);
      assert NoReturn(Kind(m));
    }
  }

  lemma {:induction false} PrintTwoLines(id: nat, event: string, a: string, b: string)
    requires '\n' !in a && '\n' !in b
    ensures Print(Message(id, event, a + "\n" + b)) ==
            Field("id", Decimal(id)) + (EventPart(event) + (Field("data", a) + (Field("data", b) + "\n")))
  {
    var content := a + "\n" + b;
    assert content == a + ['\n'] + b;
    SplitAtSeparator(a, '\n', b);
    SplitOne(a, '\n');
    SplitOne(b, '\n');
    DataLinesAppend([], a);
    DataLinesAppend([a], b);
    assert [] + [a] == [a] && [a] + [b] == [a, b];
    assert DataLines([a, b]) == "" + Field("data", a) + Field("data", b);
    PrintParts(Message(id, event, content), "");
    assert Print(Message(id, event, content)) + "" == Print(Message(id, event, content));
    assert ("" + Field("data", a) + Field("data", b)) + ("\n" + "") == Field("data", a) + (Field("data", b) + "\n");
  }

  lemma {:induction false} OneDataLine(resp: Response, line: string, rest: string)
    requires OneLine(line)
    ensures Decode(resp, Field("data", line) + rest) == [resp.(data := line)] + Decode(FRESH, rest)
  {
    FeedData(resp, line);
    DecodeField(resp, "data", line, rest);
  }

  /** Where the bundled client parts from the standard: it splits content of two lines into two
      responses, the second one without id and event name. */
  lemma ClientSplitsLines(id: nat, event: string, a: string, b: string)
    requires id < INT64_LIMIT && OneLine(event) && event != "heartbeat" && OneLine(a) && OneLine(b)
    ensures Decode(FRESH, Print(Message(id, event, a + "\n" + b))) == [Response(id, event, a), Response(0, "", b)]
  {
    PrintTwoLines(id, event, a, b);
    var first, second := Field("data", a), Field("data", b);
    DecodeId(FRESH, id, EventPart(event) + (first + (second + "\n")));
    DecodeEvent(Response(id, "", ""), event, first + (second + "\n"));
    OneDataLine(Response(id, event, ""), a, second + "\n");
    OneDataLine(FRESH, b, "\n");
    BlankIsNothing();
  }

  lemma BlankIsNothing()
    ensures Decode(FRESH, "\n") == []
  {
    DecodeBlank(FRESH, "");
    assert "\n" + "" == "\n";
  }
}
