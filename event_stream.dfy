/**
 * The `text/event-stream` framing that the chat reply uses, following the
 * event-stream format of section 9.2 of the WHATWG HTML Standard: the frames
 * the server writes, and the browser's interpretation of a stream into
 * dispatched events (section 9.2.6), restricted to LF line endings.
 */
module EventStream {
  import opened Wrappers
  import opened Text

  /** Text that `JSON.stringify` copies unchanged between the quotes of a string. */
  predicate PlainChar(c: char)
  {
    c != '"' && c != '\\' && c as int >= 0x20
  }

  predicate PlainText(s: string)
  {
    forall c | c in s :: PlainChar(c)
  }

  const DeltaPrefix: string := "{\"delta\":\""
  const DeltaSuffix: string := "\"}"

  /** `JSON.stringify({ delta: chunk })` for a chunk with no character that needs escaping. */
  function JsonDelta(chunk: string): string
    requires PlainText(chunk)
  {
    DeltaPrefix + chunk + DeltaSuffix
  }

  /** The `delta` string of a `{"delta":"..."}` payload, as `JSON.parse(data).delta` reads it. */
  function DeltaOf(data: string): (r: Option<string>)
    ensures r.Some? ==> PlainText(r.value)
  {
    if |data| >= |DeltaPrefix| + |DeltaSuffix| && data[..|DeltaPrefix|] == DeltaPrefix
       && data[|data| - |DeltaSuffix|..] == DeltaSuffix
       && PlainText(data[|DeltaPrefix|..|data| - |DeltaSuffix|])
    then Some(data[|DeltaPrefix|..|data| - |DeltaSuffix|])
    else None
  }

  /** Decoding the payload recovers the chunk that was encoded. */
  lemma DeltaRoundTrip(chunk: string)
    requires PlainText(chunk)
    ensures DeltaOf(JsonDelta(chunk)) == Some(chunk)
  {
    var d := JsonDelta(chunk);
    assert d[..|DeltaPrefix|] == DeltaPrefix;
    assert d[|d| - |DeltaSuffix|..] == DeltaSuffix;
    assert d[|DeltaPrefix|..|d| - |DeltaSuffix|] == chunk;
  }

  /** One `data: {"delta":"<chunk>"}` frame, terminated by a blank line. */
  function DeltaFrame(chunk: string): string
    requires PlainText(chunk)
  {
    "data: " + JsonDelta(chunk) + "\n\n"
  }

  const CompleteData: string := "{\"reason\": \"stop\"}"

  /** A frame naming its event type, with a one-line data field. */
  function TypedFrame(eventType: string, data: string): string
  {
    "event: " + eventType + "\n" + "data: " + data + "\n\n"
  }

  /** The frame that ends every reply: `event: message_complete` with data `{"reason": "stop"}`. */
  const CompleteFrame: string := TypedFrame("message_complete", CompleteData)

  // ---------------------------------------------------------------- interpretation

  /** A dispatched event: its type and its data buffer. */
  datatype Event = Event(eventType: string, data: string)

  /** The line being read and the event-type and data buffers. */
  datatype ParserState = ParserState(line: string, eventType: string, data: string)

  const Initial: ParserState := ParserState("", "", "")

  /** The position of the first colon of a line. */
  function FirstColon(line: string): (r: Option<nat>)
    ensures r.Some? ==> r.value < |line| && line[r.value] == ':'
    ensures r.Some? ==> forall i :: 0 <= i < r.value ==> line[i] != ':'
    ensures r.None? ==> forall i :: 0 <= i < |line| ==> line[i] != ':'
  {
    if line == [] then None
    else if line[0] == ':' then Some(0)
    else match FirstColon(line[1..])
      case None => None
      case Some(k) => Some(k + 1)
  }

  /** "Process the field": `event` sets the type, `data` appends a line to the data buffer. */
  function ProcessField(st: ParserState, field: string, value: string): ParserState
  {
    if field == "event" then st.(eventType := value)
    else if field == "data" then st.(data := st.data + value + "\n")
    else st
  }

  /** Interprets one complete line; a blank line dispatches the event gathered so far. */
  function ProcessLine(st: ParserState, line: string): (ParserState, seq<Event>)
  {
    if line == [] then
      if st.data == [] then (st.(eventType := "", data := ""), [])
      else
        var data := if st.data[|st.data| - 1] == '\n' then st.data[..|st.data| - 1] else st.data;
        (st.(eventType := "", data := ""), [Event(if st.eventType == [] then "message" else st.eventType, data)])
    else if line[0] == ':' then (st, [])
    else match FirstColon(line)
      case None => (ProcessField(st, line, ""), [])
      case Some(c) =>
        var value := line[c + 1..];
        var value := if value != [] && value[0] == ' ' then value[1..] else value;
        (ProcessField(st, line[..c], value), [])
  }

  /** Consumes one character; a line feed ends the current line. */
  function Step(st: ParserState, c: char): (ParserState, seq<Event>)
  {
    if c == '\n' then ProcessLine(st.(line := ""), st.line)
    else (st.(line := st.line + [c]), [])
  }

  /** Interprets a stream from a parser state: the final state and the events dispatched. */
  function Feed(st: ParserState, s: string): (ParserState, seq<Event>)
    decreases |s|
  {
    if s == [] then (st, [])
    else
      var first := Step(st, s[0]);
      var rest := Feed(first.0, s[1..]);
      (rest.0, first.1 + rest.1)
  }

  lemma {:induction false} FeedConcat(st: ParserState, a: string, b: string)
    ensures Feed(st, a + b) == (Feed(Feed(st, a).0, b).0, Feed(st, a).1 + Feed(Feed(st, a).0, b).1)
    decreases |a|
  {
    if a == [] {
      assert a + b == b;
      assert Feed(st, a) == (st, []);
      var r := Feed(st, b);
      assert [] + r.1 == r.1;
    } else {
      assert (a + b)[0] == a[0] && (a + b)[1..] == a[1..] + b;
      var first := Step(st, a[0]);
      FeedConcat(first.0, a[1..], b);
      var mid := Feed(first.0, a[1..]);
      assert first.1 + (mid.1 + Feed(mid.0, b).1) == (first.1 + mid.1) + Feed(mid.0, b).1;
    }
  }

  lemma {:induction false} FeedWithinLine(st: ParserState, s: string)
    requires forall i :: 0 <= i < |s| ==> s[i] != '\n'
    ensures Feed(st, s) == (st.(line := st.line + s), [])
    decreases |s|
  {
    if s != [] {
      var st1 := st.(line := st.line + [s[0]]);
      assert Step(st, s[0]) == (st1, []);
      FeedWithinLine(st1, s[1..]);
      assert st.line + [s[0]] + s[1..] == st.line + s;
      assert st1.(line := st1.line + s[1..]) == st.(line := st.line + s);
      var e: seq<Event> := [];
      assert e + e == e;
    } else {
      assert st.line + s == st.line;
    }
  }

  /** Reading a whole line from the start of a line is `ProcessLine` on it. */
  lemma FeedLine(st: ParserState, line: string)
    requires st.line == [] && forall i :: 0 <= i < |line| ==> line[i] != '\n'
    ensures Feed(st, line + "\n") == ProcessLine(st, line)
  {
    FeedConcat(st, line, "\n");
    FeedWithinLine(st, line);
    var st1 := st.(line := st.line + line);
    assert st1.line == line;
    assert st1.(line := "") == st;
    FeedNewline(st1);
    var p := ProcessLine(st, line);
    var e: seq<Event> := [];
    assert e + p.1 == p.1;
  }

  lemma FeedNewline(st: ParserState)
    ensures Feed(st, "\n") == ProcessLine(st.(line := ""), st.line)
  {
    var nl := "\n";
    assert nl[0] == '\n' && nl[1..] == [];
    var p := Step(st, '\n');
    assert Feed(p.0, []) == (p.0, []);
    assert p.1 + [] == p.1;
  }

  lemma FirstColonAfter(p: string, x: string)
    requires forall i :: 0 <= i < |p| ==> p[i] != ':'
    requires x != [] && x[0] == ':'
    ensures FirstColon(p + x) == Some(|p|)
  {
    var r := FirstColon(p + x);
    assert (p + x)[|p|] == ':';
  }

  /** A `name: value` field line, with no line feed in the value. */
  lemma FieldLine(st: ParserState, name: string, value: string)
    requires st.line == [] && name != [] && name[0] != ':'
    requires forall i :: 0 <= i < |name| ==> name[i] != ':' && name[i] != '\n'
    requires forall i :: 0 <= i < |value| ==> value[i] != '\n'
    ensures Feed(st, name + ": " + value + "\n") == (ProcessField(st, name, value), [])
  {
    FieldLineSingle(name, value);
    FeedLine(st, name + ": " + value);
    FieldLineProcessed(st, name, value);
  }

  lemma FieldLineSingle(name: string, value: string)
    requires forall i :: 0 <= i < |name| ==> name[i] != '\n'
    requires forall i :: 0 <= i < |value| ==> value[i] != '\n'
    ensures forall i :: 0 <= i < |name + ": " + value| ==> (name + ": " + value)[i] != '\n'
  {
    var line := name + ": " + value;
    forall i | 0 <= i < |line| ensures line[i] != '\n' {
      if i >= |name| + 2 {
        assert line[i] == value[i - |name| - 2];
      } else if i >= |name| {
        assert line[i] == ": "[i - |name|];
      } else {
        assert line[i] == name[i];
      }
    }
  }

  lemma FieldLineProcessed(st: ParserState, name: string, value: string)
    requires name != [] && name[0] != ':'
    requires forall i :: 0 <= i < |name| ==> name[i] != ':'
    ensures ProcessLine(st, name + ": " + value) == (ProcessField(st, name, value), [])
  {
    var rest := ": " + value;
    var line := name + rest;
    assert line == name + ": " + value;
    FirstColonAfter(name, rest);
    assert line[0] == name[0];
    assert line[..|name|] == name;
    assert line[|name| + 1..] == " " + value;
    assert (" " + value)[1..] == value;
  }

  /** The frames that `DeltaFrame` writes are dispatched as `message` events carrying the payload. */
  lemma DeltaFrameDispatch(chunk: string)
    requires PlainText(chunk)
    ensures Feed(Initial, DeltaFrame(chunk)) == (Initial, [Event("message", JsonDelta(chunk))])
  {
    var payload := JsonDelta(chunk);
    assert forall i :: 0 <= i < |payload| ==> payload[i] != '\n' by {
      forall i | 0 <= i < |payload| ensures payload[i] != '\n' {
        if |DeltaPrefix| <= i < |DeltaPrefix| + |chunk| {
          assert payload[i] == chunk[i - |DeltaPrefix|];
          assert PlainChar(chunk[i - |DeltaPrefix|]);
        }
      }
    }
    assert DeltaFrame(chunk) == "data" + ": " + payload + "\n" + "\n";
    FeedConcat(Initial, "data" + ": " + payload + "\n", "\n");
    FieldLine(Initial, "data", payload);
    var st := ProcessField(Initial, "data", payload);
    assert st == Initial.(data := payload + "\n");
    BlankLineDispatch(st, "message", payload);
    var e: seq<Event> := [];
    assert e + [Event("message", payload)] == [Event("message", payload)];
  }

  /** The blank line ending a frame dispatches the gathered event and clears the buffers. */
  lemma BlankLineDispatch(st: ParserState, eventType: string, data: string)
    requires st.line == [] && st.data == data + "\n"
    requires eventType == (if st.eventType == [] then "message" else st.eventType)
    ensures Feed(st, "\n") == (Initial, [Event(eventType, data)])
  {
    FeedNewline(st);
    assert st.(line := "") == st;
    assert st.data[..|st.data| - 1] == data;
  }

  predicate SingleLine(s: string)
  {
    forall i :: 0 <= i < |s| ==> s[i] != '\n'
  }

  /** A typed frame is dispatched as one event of that type carrying its data. */
  lemma TypedFrameDispatch(eventType: string, data: string)
    requires eventType != [] && SingleLine(eventType) && SingleLine(data)
    ensures Feed(Initial, TypedFrame(eventType, data)) == (Initial, [Event(eventType, data)])
  {
    var l1 := "event" + ": " + eventType + "\n";
    var l2 := "data" + ": " + data + "\n";
    assert TypedFrame(eventType, data) == (l1 + l2) + "\n";
    FeedConcat(Initial, l1 + l2, "\n");
    var st2 := Initial.(eventType := eventType, data := data + "\n");
    TypedFields(eventType, data);
    BlankLineDispatch(st2, eventType, data);
    var e: seq<Event> := [];
    assert e + [Event(eventType, data)] == [Event(eventType, data)];
  }

  /** The `event` and `data` lines of a typed frame fill the two buffers and dispatch nothing. */
  lemma TypedFields(eventType: string, data: string)
    requires SingleLine(eventType) && SingleLine(data)
    ensures Feed(Initial, ("event" + ": " + eventType + "\n") + ("data" + ": " + data + "\n"))
      == (Initial.(eventType := eventType, data := data + "\n"), [])
  {
    var l1 := "event" + ": " + eventType + "\n";
    var l2 := "data" + ": " + data + "\n";
    FeedConcat(Initial, l1, l2);
    FieldLine(Initial, "event", eventType);
    var st1 := ProcessField(Initial, "event", eventType);
    assert st1 == Initial.(eventType := eventType);
    FieldLine(st1, "data", data);
    var st2 := ProcessField(st1, "data", data);
    assert st2 == Initial.(eventType := eventType, data := data + "\n");
    var e: seq<Event> := [];
    assert e + e == e;
  }

  /** The closing frame is dispatched as one `message_complete` event. */
  lemma CompleteFrameDispatch()
    ensures Feed(Initial, CompleteFrame) == (Initial, [Event("message_complete", CompleteData)])
  {
    assert SingleLine("message_complete") && SingleLine(CompleteData);
    TypedFrameDispatch("message_complete", CompleteData);
  }

  /** A stream of frames, each dispatching one event from a clean state, dispatches those events in order. */
  lemma {:induction false} FeedFrames(frames: seq<string>, events: seq<Event>)
    requires |frames| == |events|
    requires forall i :: 0 <= i < |frames| ==> Feed(Initial, frames[i]) == (Initial, [events[i]])
    ensures Feed(Initial, Concat(frames)) == (Initial, events)
    decreases |frames|
  {
    if frames != [] {
      FeedFrames(frames[1..], events[1..]);
      FeedConcat(Initial, frames[0], Concat(frames[1..]));
      assert [events[0]] + events[1..] == events;
    }
  }
}
