/** The event stream: what the server prints for an event, and what the bundled client reads
    from a stream. Text is a sequence of Unicode scalar values. */
module EventStream {
  import opened Text

  datatype Message = Message(id: nat, event: string, content: string)

  // ----- the printer -----

  /** strings.Replace(s, "\n", "", -1) */
  function Strip(s: string): string
  {
    if s == "" then "" else (if s[0] == '\n' then "" else [s[0]]) + Strip(s[1..])
  }

  function Field(name: string, value: string): string
  {
    name + ": " + value + "\n"
  }

  function DataLines(lines: seq<string>): string
  {
    if lines == [] then "" else Field("data", lines[0]) + DataLines(lines[1..])
  }

  function EventPart(event: string): string
  {
    if |event| > 0 then Field("event", Strip(event)) else ""
  }

  function DataPart(content: string): string
  {
    if |content| > 0 then DataLines(Split(content, '\n')) else ""
  }

  function Print(m: Message): string
  {
    Field("id", Decimal(m.id)) + EventPart(m.event) + DataPart(m.content) + "\n"
  }

  method GenerateMessage(id: nat, event: string, content: string) returns (data: string)
    ensures data == Print(Message(id, event, content))
  {
    data := Field("id", Decimal(id));
    if |event| > 0 {
      data := data + Field("event", Strip(event));
    }
    assert data == Field("id", Decimal(id)) + EventPart(event);
    if |content| > 0 {
      var lines := Split(content, '\n');
      data := WriteLines(data, lines);
    }
    assert data == Field("id", Decimal(id)) + EventPart(event) + DataPart(content);
    data := data + "\n";
  }

  method WriteLines(data: string, lines: seq<string>) returns (r: string)
    ensures r == data + DataLines(lines)
  {
    r := data;
    for i := 0 to |lines|
      invariant r == data + DataLines(lines[..i])
    {
      DataLinesAppend(lines[..i], lines[i]);
      assert lines[..i + 1] == lines[..i] + [lines[i]];
      r := r + Field("data", lines[i]);
    }
    assert lines[..|lines|] == lines;
  }

  lemma {:induction false} DataLinesAppend(lines: seq<string>, line: string)
    ensures DataLines(lines + [line]) == DataLines(lines) + Field("data", line)
  {
    if lines == [] {
      assert [line][1..] == [];
    } else {
      assert (lines + [line])[1..] == lines[1..] + [line];
      DataLinesAppend(lines[1..], line);
    }
  }

  function Concat<T>(parts: seq<seq<T>>): seq<T>
  {
    if parts == [] then [] else parts[0] + Concat(parts[1..])
  }

  function Prints(ms: seq<Message>): seq<string>
  {
    seq(|ms|, i requires 0 <= i < |ms| => Print(ms[i]))
  }

  function PrintAll(ms: seq<Message>): string
  {
    Concat(Prints(ms))
  }

  // ----- the client -----

  datatype Response = Response(id: int, event: string, data: string)

  const FRESH := Response(0, "", "")

  /** The length of the first line, its newline included. */
  function LineLength(s: string): (n: nat)
    ensures n <= |s| && (s != "" ==> n > 0)
  {
    if s == "" then 0 else if s[0] == '\n' then 1 else 1 + LineLength(s[1..])
  }

  /** The first of the two pieces around the first colon has this length, if there is one. */
  function ColonAt(s: string): (n: Option<nat>)
    ensures n.Some? ==> n.value < |s| && s[n.value] == ':' && ':' !in s[..n.value]
    ensures n.None? ==> ':' !in s
  {
    if s == "" then None
    else if s[0] == ':' then Some(0)
    else match ColonAt(s[1..]) case Some(n) => Some(n + 1) case None => None
  }

  /** A line's key and value, if it has a colon. */
  function KeyValue(line: string): Option<(string, string)>
  {
    var pureLine := TrimSpace(line);
    match ColonAt(pureLine)
    case None => None
    case Some(n) => Some((TrimSpace(pureLine[..n]), TrimSpace(pureLine[n + 1..])))
  }

  /** The response after a line, and whether it is finished. */
  function Feed(resp: Response, line: string): (Response, bool)
  {
    match KeyValue(line)
    case None => (resp, false)
    case Some((key, value)) =>
      if key == "id" then
        (match ParseInt(value) case Some(id) => (resp.(id := id), false) case None => (resp, false))
      else if key == "event" then (resp.(event := value), value == "heartbeat")
      else if key == "data" then (resp.(data := value), true)
      else (resp, false)
  }

  function Decode(resp: Response, s: string): seq<Response>
    decreases |s|
  {
    if s == "" then []
    else
      var n := LineLength(s);
      var (next, finished) := Feed(resp, s[..n]);
      if finished then [next] + Decode(FRESH, s[n..]) else Decode(next, s[n..])
  }

  /** The client's loop over a stream that ends after the given text. */
  method Watch(stream: string) returns (responses: seq<Response>)
    ensures responses == Decode(FRESH, stream)
  {
    responses := [];
    var newone, resp, finished := true, FRESH, false;
    var rest := stream;
    while true
      invariant !newone ==> !finished
      invariant responses + Decode(if newone then FRESH else resp, rest) == Decode(FRESH, stream)
      decreases |rest|
    {
      if newone {
        resp, finished, newone := Response(0, "", ""), false, false;
      }
      var n := LineLength(rest);
      var line := rest[..n];
      if |line| == 0 {
        return;
      }
      rest := rest[n..];
      resp, finished := ReadField(resp, line);
      if finished {
        responses := responses + [resp];
        newone := true;
      }
    }
  }

  /** One turn of the loop: what a line does to the response being read. */
  method ReadField(resp: Response, line: string) returns (next: Response, finished: bool)
    ensures (next, finished) == Feed(resp, line)
  {
    next, finished := resp, false;
    var pureLine := TrimSpace(line);
    if |pureLine| == 0 {
      return;
    }
    var colon := ColonAt(pureLine);
    if colon.None? {
      return;
    }
    var key, value := TrimSpace(pureLine[..colon.value]), TrimSpace(pureLine[colon.value + 1..]);
    if key == "id" {
      var id := ParseInt(value);
      if id.Some? {
        next := next.(id := id.value);
      }
    } else if key == "event" {
      next := next.(event := value);
      if next.event == "heartbeat" {
        finished := true;
      }
    } else if key == "data" {
      next := next.(data := value);
      finished := true;
    }
  }

  // ----- one line -----

  lemma {:induction false} FirstLine(line: string, rest: string)
    requires '\n' !in line
    ensures LineLength(line + "\n" + rest) == |line| + 1
    ensures (line + "\n" + rest)[..|line| + 1] == line + "\n"
    ensures (line + "\n" + rest)[|line| + 1..] == rest
  {
    if line != "" {
      assert (line + "\n" + rest)[1..] == line[1..] + "\n" + rest;
      FirstLine(line[1..], rest);
    }
  }

  lemma {:induction false} FirstColon(name: string, rest: string)
    requires ':' !in name
    ensures ColonAt(name + ":" + rest) == Some(|name|)
  {
    if name != "" {
      assert (name + ":" + rest)[1..] == name[1..] + ":" + rest;
      FirstColon(name[1..], rest);
    }
  }

  /** A line with a colon and nothing but white space around. */
  lemma PureLineSplits(name: string, tail: string, pad: string)
    requires name != "" && ':' !in name && Trimmed(name) && AllSpace(pad)
    requires tail == "" || !IsSpace(tail[|tail| - 1])
    ensures KeyValue(name + ":" + tail + pad) == Some((name, TrimSpace(tail)))
  {
    var pure := name + ":" + tail;
    assert name + ":" + tail + pad == "" + pure + pad;
    assert !IsSpace(':');
    TrimPadded("", pure, pad);
    FirstColon(name, tail);
    assert pure[..|name|] == name && pure[|name| + 1..] == tail;
    TrimSpaceResult(name);
  }

  /** The client reads back a printed field, its value trimmed. */
  lemma FieldReadsBack(name: string, value: string)
    requires name != "" && ':' !in name && Trimmed(name)
    ensures KeyValue(Field(name, value)) == Some((name, TrimSpace(value)))
  {
    TrimSpaceResult(value);
    var t := TrimSpace(value);
    var l, r :| AllSpace(l) && AllSpace(r) && value == l + t + r;
    if t == "" {
      assert Field(name, value) == name + ":" + "" + (" " + l + r + "\n");
      PureLineSplits(name, "", " " + l + r + "\n");
    } else {
      var tail := " " + l + t;
      assert Field(name, value) == name + ":" + tail + (r + "\n");
      PureLineSplits(name, tail, r + "\n");
      assert tail == (" " + l) + t + "";
      TrimPadded(" " + l, t, "");
    }
  }

  /** A field at the front of a stream, and what follows it. */
  lemma {:induction false} DecodeField(resp: Response, name: string, value: string, rest: string)
    requires '\n' !in name && '\n' !in value
    ensures var (next, finished) := Feed(resp, Field(name, value));
      Decode(resp, Field(name, value) + rest) ==
      if finished then [next] + Decode(FRESH, rest) else Decode(next, rest)
  {
    var line := name + ": " + value;
    assert Field(name, value) + rest == line + "\n" + rest;
    FirstLine(line, rest);
  }

  lemma {:induction false} DecodeBlank(resp: Response, rest: string)
    ensures Decode(resp, "\n" + rest) == Decode(resp, rest)
  {
    assert "\n" + rest == "" + "\n" + rest;
    FirstLine("", rest);
    assert "" + "" + "\n" == "\n";
    TrimPadded("", "", "\n");
  }

  // ----- one message -----

  lemma {:induction false} StripNoNewline(s: string)
    ensures '\n' !in Strip(s) && |Strip(s)| <= |s|
    ensures Strip(s) == s <==> '\n' !in s
    ensures forall c :: c in Strip(s) <==> c in s && c != '\n'
  {
    if s != "" {
      assert s == [s[0]] + s[1..];
      StripNoNewline(s[1..]);
    }
  }

  predicate OneLine(s: string)
  {
    '\n' !in s && Trimmed(s)
  }

  /** What can come back from the client unchanged, apart from a message without content. */
  predicate Readable(m: Message)
  {
    && m.id < INT64_LIMIT && OneLine(m.event) && OneLine(m.content)
    && (m.event == "heartbeat" ==> m.content == "")
  }

  /** The messages that come back as they were sent. */
  predicate RoundTrips(m: Message)
  {
    Readable(m) && (m.event != "heartbeat" ==> m.content != "")
  }

  lemma {:induction false} DecimalReads(n: nat)
    ensures '\n' !in Decimal(n) && Trimmed(Decimal(n)) && TrimSpace(Decimal(n)) == Decimal(n)
  {
    TrimSpaceResult(Decimal(n));
  }

  function Expected(m: Message): Response
  {
    Response(m.id, m.event, m.content)
  }

  lemma {:induction false} DecodeId(resp: Response, id: nat, rest: string)
    requires id < INT64_LIMIT
    ensures Decode(resp, Field("id", Decimal(id)) + rest) == Decode(resp.(id := id), rest)
  {
    DecimalReads(id);
    ParseIntDecimal(id);
    FieldReadsBack("id", Decimal(id));
    DecodeField(resp, "id", Decimal(id), rest);
  }

  lemma FeedData(resp: Response, line: string)
    requires OneLine(line)
    ensures Feed(resp, Field("data", line)) == (resp.(data := line), true)
  {
    TrimSpaceResult(line);
    FieldReadsBack("data", line);
  }

  lemma {:induction false} DecodeEvent(resp: Response, event: string, rest: string)
    requires OneLine(event)
    ensures Decode(resp, EventPart(event) + rest) ==
            if event == "heartbeat" then [resp.(event := event)] + Decode(FRESH, rest)
            else Decode(if event == "" then resp else resp.(event := event), rest)
  {
    if |event| > 0 {
      StripNoNewline(event);
      FeedEvent(resp, event);
      DecodeField(resp, "event", event, rest);
    } else {
      assert EventPart(event) + rest == rest;
    }
  }

  lemma FeedEvent(resp: Response, event: string)
    requires OneLine(event)
    ensures Feed(resp, Field("event", event)) == (resp.(event := event), event == "heartbeat")
  {
    TrimSpaceResult(event);
    FieldReadsBack("event", event);
  }

  lemma {:induction false} DecodeContent(resp: Response, content: string, rest: string)
    requires OneLine(content)
    ensures Decode(resp, DataPart(content) + rest) ==
            if content != "" then [resp.(data := content)] + Decode(FRESH, rest) else Decode(resp, rest)
  {
    if |content| > 0 {
      SplitOne(content, '\n');
      assert DataPart(content) == Field("data", content) by {
        assert [content][1..] == [];
        assert DataLines([content]) == Field("data", content) + "";
      }
      FeedData(resp, content);
      DecodeField(resp, "data", content, rest);
    } else {
      assert DataPart(content) + rest == rest;
    }
  }

  lemma PrintParts(m: Message, rest: string)
    ensures Print(m) + rest ==
            Field("id", Decimal(m.id)) + (EventPart(m.event) + (DataPart(m.content) + ("\n" + rest)))
  {
    var a, b, c := Field("id", Decimal(m.id)), EventPart(m.event), DataPart(m.content);
    assert (a + b + c + "\n") + rest == a + (b + (c + ("\n" + rest)));
  }

  /** Reading the lines of a readable message: it gives one response, or none when there is
      nothing to deliver; then its id and event leak into the next one. */
  lemma {:induction false} DecodeMessage(resp: Response, m: Message, rest: string)
    requires Readable(m) && resp.data == ""
    ensures var event := if m.event == "" then resp.event else m.event;
      Decode(resp, Print(m) + rest) ==
      if m.event == "heartbeat" || m.content != "" then [Response(m.id, event, m.content)] + Decode(FRESH, rest)
      else Decode(Response(m.id, event, ""), rest)
  {
    var event := if m.event == "" then resp.event else m.event;
    PrintParts(m, rest);
    DecodeId(resp, m.id, EventPart(m.event) + (DataPart(m.content) + ("\n" + rest)));
    DecodeEvent(resp.(id := m.id), m.event, DataPart(m.content) + ("\n" + rest));
    var resp2 := if m.event == "heartbeat" then FRESH else Response(m.id, event, "");
    DecodeContent(resp2, m.content, "\n" + rest);
    DecodeBlank(FRESH, rest);
    DecodeBlank(resp2, rest);
  }

  /** The text of a message, in so many words: the id line; the event line unless the event is
      empty; one data line for each line of the content, unless it is empty; a blank line. */
  lemma {:induction false} PrintedText(id: nat, event: string, content: string)
    requires '\n' !in event
    ensures var start, named := "id: " + Decimal(id) + "\n", "event: " + event + "\n";
      Print(Message(id, event, content)) ==
      start + (if event == "" then "" else named) + (if content == "" then "" else DataPart(content)) + "\n"
  {
    StripNoNewline(event);
    FieldText("id", Decimal(id));
    FieldText("event", event);
  }

  lemma FieldText(name: string, value: string)
    ensures Field(name, value) == name + ": " + value + "\n"
    ensures Field("id", value) == "id: " + value + "\n"
    ensures Field("event", value) == "event: " + value + "\n"
    ensures Field("data", value) == "data: " + value + "\n"
  {
    assert "id" + ": " == "id: ";
    assert "event" + ": " == "event: ";
    assert "data" + ": " == "data: ";
  }

  lemma {:induction false} PrintedLines(line: string, more: string)
    requires '\n' !in line
    ensures line != "" ==> DataPart(line) == "data: " + line + "\n"
    ensures DataPart(line + "\n" + more) == "data: " + line + "\n" + DataLines(Split(more, '\n'))
  {
    SplitOne(line, '\n');
    assert [line][1..] == [];
    FieldText("data", line);
    assert DataLines([line]) == Field("data", line) + DataLines([]) == Field("data", line);
    SplitAtSeparator(line, '\n', more);
    assert line + "\n" + more == line + ['\n'] + more;
    var lines := [line] + Split(more, '\n');
    assert lines[0] == line && lines[1..] == Split(more, '\n');
  }

  lemma {:induction false} StripJoins(a: string, b: string)
    ensures Strip(a + b) == Strip(a) + Strip(b)
  {
    if a == "" {
      assert a + b == b;
    } else {
      assert (a + b)[0] == a[0] && (a + b)[1..] == a[1..] + b;
      StripJoins(a[1..], b);
    }
  }

  /** The client ignores lines without a colon, fields with other names, and ids that are no
      numbers. */
  lemma {:induction false} LinesIgnored(resp: Response, name: string, value: string)
    requires name != "" && ':' !in name && Trimmed(name) && name != "event" && name != "data"
    ensures Feed(resp, name + "\n") == (resp, false)
    ensures name != "id" ==> Feed(resp, Field(name, value)) == (resp, false)
    ensures ParseInt(TrimSpace(value)).None? ==> Feed(resp, Field(name, value)) == (resp, false)
  {
    FieldReadsBack(name, value);
    assert "" + name + "\n" == name + "\n";
    TrimPadded("", name, "\n");
    NoColon(name);
  }

  lemma {:induction false} NoColon(s: string)
    requires ':' !in s
    ensures ColonAt(s).None?
  {
  }

  /** A last line without its newline counts as a line. */
  lemma {:induction false} LastLineCounts(resp: Response, line: string)
    requires OneLine(line)
    ensures Decode(resp, "data: " + line) == [resp.(data := line)]
  {
    var s := "data: " + line;
    NoNewlineIsOneLine(s);
    assert s[..|s|] == s && s[|s|..] == "";
    assert Decode(FRESH, "") == [];
    UnendedField(line);
    assert Feed(resp, s) == (resp.(data := line), true);
  }

  lemma UnendedField(line: string)
    requires OneLine(line)
    ensures KeyValue("data: " + line) == Some(("data", line))
  {
    if line == "" {
      EmptyField();
      assert "data: " + line == "data: ";
    } else {
      PaddedLine(line);
      assert "data: " + line == "data" + ":" + (" " + line) + "";
      PureLineSplits("data", " " + line, "");
    }
  }

  lemma EmptyField()
    ensures KeyValue("data: ") == Some(("data", ""))
  {
    assert "data: " == "data" + ":" + "" + " ";
    PureLineSplits("data", "", " ");
  }

  lemma PaddedLine(line: string)
    requires OneLine(line)
    ensures TrimSpace(" " + line) == line
  {
    assert " " + line + "" == " " + line;
    TrimPadded(" ", line, "");
  }

  lemma {:induction false} NoNewlineIsOneLine(s: string)
    requires '\n' !in s
    ensures LineLength(s) == |s|
  {
    if s != "" {
      NoNewlineIsOneLine(s[1..]);
    }
  }

  // ----- streams of messages -----

  function ExpectedAll(ms: seq<Message>): seq<Response>
  {
    seq(|ms|, i requires 0 <= i < |ms| => Expected(ms[i]))
  }

  lemma PrintMore(ms: seq<Message>)
    requires ms != []
    ensures PrintAll(ms) == Print(ms[0]) + PrintAll(ms[1..])
  {
    assert Prints(ms)[1..] == Prints(ms[1..]);
  }

  lemma {:induction false} DecodeWellFormed(m: Message, rest: string)
    requires RoundTrips(m)
    ensures Decode(FRESH, Print(m) + rest) == [Expected(m)] + Decode(FRESH, rest)
  {
    DecodeMessage(FRESH, m, rest);
    assert (if m.event == "" then FRESH.event else m.event) == m.event;
  }

  /** Well-formed messages come back in order, each once, followed by whatever the rest of
      the stream holds. */
  lemma {:induction false} RoundTrip(ms: seq<Message>, rest: string)
    requires forall i :: 0 <= i < |ms| ==> RoundTrips(ms[i])
    ensures Decode(FRESH, PrintAll(ms) + rest) == ExpectedAll(ms) + Decode(FRESH, rest)
  {
    if ms == [] {
      assert PrintAll(ms) + rest == rest;
    } else {
      RoundTrip(ms[1..], rest);
      DecodeFirst(ms, rest);
      ExpectedMore(ms, Decode(FRESH, rest));
    }
  }

  lemma ExpectedMore(ms: seq<Message>, after: seq<Response>)
    requires ms != []
    ensures ExpectedAll(ms) + after == [Expected(ms[0])] + (ExpectedAll(ms[1..]) + after)
  {
  }

  lemma {:induction false} PrintAppend(ms: seq<Message>, rest: string)
    requires ms != []
    ensures PrintAll(ms) + rest == Print(ms[0]) + (PrintAll(ms[1..]) + rest)
  {
    PrintMore(ms);
    Regrouped(Print(ms[0]), PrintAll(ms[1..]), rest);
  }

  lemma Regrouped(a: string, b: string, c: string)
    ensures (a + b) + c == a + (b + c)
  {
  }

  lemma {:induction false} DecodeFirst(ms: seq<Message>, rest: string)
    requires ms != [] && RoundTrips(ms[0])
    ensures Decode(FRESH, PrintAll(ms) + rest) == [Expected(ms[0])] + Decode(FRESH, PrintAll(ms[1..]) + rest)
  {
    PrintAppend(ms, rest);
    DecodeWellFormed(ms[0], PrintAll(ms[1..]) + rest);
  }

  function Delivered(ms: seq<Message>): nat
  {
    if ms == [] then 0
    else (if ms[0].event == "heartbeat" || ms[0].content != "" then 1 else 0) + Delivered(ms[1..])
  }

  lemma {:induction false} DeliveredAll(ms: seq<Message>)
    ensures Delivered(ms) <= |ms|
    ensures Delivered(ms) == |ms| <==> forall i :: 0 <= i < |ms| ==> ms[i].event == "heartbeat" || ms[i].content != ""
  {
    if ms != [] {
      DeliveredAll(ms[1..]);
      assert forall i :: 1 <= i < |ms| ==> ms[i] == ms[1..][i - 1];
    }
  }

  lemma {:induction false} ReadableCount(resp: Response, ms: seq<Message>)
    requires resp.data == "" && forall i :: 0 <= i < |ms| ==> Readable(ms[i])
    ensures |Decode(resp, PrintAll(ms))| == Delivered(ms)
    decreases |ms|
  {
    if ms != [] {
      var m, more := ms[0], PrintAll(ms[1..]);
      PrintMore(ms);
      DecodeMessage(resp, m, more);
      if m.event == "heartbeat" || m.content != "" {
        ReadableCount(FRESH, ms[1..]);
      } else {
        ReadableCount(Response(m.id, if m.event == "" then resp.event else m.event, ""), ms[1..]);
      }
    }
  }

  /** Whatever the stream, a response is one line in each field, its id fits 63 bits, and a
      heartbeat carries no data. */
  predicate ResponseOk(r: Response)
  {
    r.id < INT64_LIMIT && OneLine(r.event) && OneLine(r.data) && (r.event == "heartbeat" ==> r.data == "")
  }

  lemma {:induction false} LineIsALine(s: string)
    ensures forall i :: 0 <= i < LineLength(s) - 1 ==> s[i] != '\n'
  {
    if s != "" && s[0] != '\n' {
      LineIsALine(s[1..]);
    }
  }

  lemma {:induction false} ValueIsOneLine(s: string)
    requires s != "" && KeyValue(s[..LineLength(s)]).Some?
    ensures OneLine(KeyValue(s[..LineLength(s)]).value.1)
  {
    var pure := TrimSpace(s[..LineLength(s)]);
    LineIsALine(s);
    TrimmedLine(s[..LineLength(s)]);
    var n := ColonAt(pure).value;
    TrimSpaceResult(pure[n + 1..]);
  }

  lemma TrimmedLine(line: string)
    requires forall i :: 0 <= i < |line| - 1 ==> line[i] != '\n'
    ensures '\n' !in TrimSpace(line)
  {
    TrimSpaceResult(line);
    var pure := TrimSpace(line);
    var l, r :| AllSpace(l) && AllSpace(r) && line == l + pure + r;
    forall i | 0 <= i < |pure|
      ensures pure[i] != '\n'
    {
      assert pure[i] == line[|l| + i];
      assert IsSpace('\n');
    }
  }

  lemma {:induction false} ResponsesAreOk(resp: Response, s: string)
    requires resp.id < INT64_LIMIT && OneLine(resp.event) && resp.event != "heartbeat" && resp.data == ""
    ensures forall r :: r in Decode(resp, s) ==> ResponseOk(r)
    decreases |s|
  {
    if s != "" {
      var n := LineLength(s);
      var (next, finished) := Feed(resp, s[..n]);
      if KeyValue(s[..n]).Some? {
        ValueIsOneLine(s);
      }
      ResponsesAreOk(if finished then FRESH else next, s[n..]);
    }
  }

  /** The printer and the client's parser undo each other on a list of messages exactly when
      every message is well formed: a heartbeat without content, or any other event with
      one-line trimmed content, and in both cases a one-line trimmed event name and an id
      that fits a signed 64-bit number. One bad message is never made up for by another. */
  lemma RoundTripExactly(ms: seq<Message>)
    ensures Decode(FRESH, PrintAll(ms)) == ExpectedAll(ms) <==> forall i :: 0 <= i < |ms| ==> RoundTrips(ms[i])
  {
    if forall i :: 0 <= i < |ms| ==> RoundTrips(ms[i]) {
      RoundTrip(ms, "");
      assert PrintAll(ms) + "" == PrintAll(ms);
    }
    if Decode(FRESH, PrintAll(ms)) == ExpectedAll(ms) {
      ResponsesAreOk(FRESH, PrintAll(ms));
      forall i | 0 <= i < |ms|
        ensures Readable(ms[i])
      {
        assert ExpectedAll(ms)[i] in Decode(FRESH, PrintAll(ms));
      }
      ReadableCount(FRESH, ms);
      DeliveredAll(ms);
    }
  }
}
