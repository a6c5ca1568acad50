/**
 * The chat panel of the participation page: sending a message appends the
 * participant's text and an empty AI bubble, and the reply's `message`
 * events fill that bubble delta by delta until `message_complete` or an
 * error closes the event source.
 */
module ChatInterface {
  import opened Wrappers
  import opened Text
  import opened EventStream
  import ChatService

  datatype Sender = User | Ai

  datatype Message = Message(sender: Sender, text: string)

  /**
   * The panel's state, with `aiResponse`, the text the current reply has
   * gathered so far, and `open`, whether the current event source still
   * delivers events.
   */
  datatype ChatState = ChatState(messages: seq<Message>, input: string, isStreaming: bool, aiResponse: string, open: bool)

  const Empty: ChatState := ChatState([], "", false, "", false)

  /** What sending did: the new state and the text the handler puts in the request options, if any. */
  datatype Sent = Sent(state: ChatState, request: Option<string>)

  /** `handleSendMessage`. */
  function Send(st: ChatState): (r: Sent)
    ensures AllWhitespace(st.input) ==> r == Sent(st, None)
    ensures !AllWhitespace(st.input) ==>
      r == Sent(ChatState(st.messages + [Message(User, st.input), Message(Ai, "")], "", true, "", true), Some(st.input))
  {
    TrimEmptyIff(st.input);
    if Trim(st.input) == [] then Sent(st, None)
    else Sent(ChatState(st.messages + [Message(User, st.input), Message(Ai, "")], "", true, "", true), Some(st.input))
  }

  /** The messages with the last one's text replaced by the current reply, as `onmessage` writes it. */
  function ShowReply(messages: seq<Message>, text: string): (r: seq<Message>)
    ensures |r| == |messages|
    ensures |messages| > 0 ==> r[..|r| - 1] == messages[..|messages| - 1] && r[|r| - 1] == Message(Ai, text)
  {
    if messages == [] then messages else messages[|messages| - 1 := Message(Ai, text)]
  }

  /** One event of the open source: `message` events carry deltas; `message_complete` closes the source. */
  function OnEvent(st: ChatState, ev: Event): (r: ChatState)
  {
    if !st.open then st
    else if ev.eventType == "message" then
      match DeltaOf(ev.data)
      case Some(delta) =>
        if delta == [] then st
        else st.(aiResponse := st.aiResponse + delta, messages := ShowReply(st.messages, st.aiResponse + delta))
      case None => st
    else if ev.eventType == "message_complete" then st.(open := false, isStreaming := false)
    else st
  }

  /** `onerror`: the source is closed and streaming stops. */
  function OnError(st: ChatState): (r: ChatState)
    ensures st.open ==> !r.open && !r.isStreaming
    ensures r.messages == st.messages && r.input == st.input && r.aiResponse == st.aiResponse
    ensures !st.open ==> r == st
  {
    if st.open then st.(open := false, isStreaming := false) else st
  }

  /** The events of one stream, delivered in order. */
  function Deliver(st: ChatState, evs: seq<Event>): ChatState
    decreases |evs|
  {
    if evs == [] then st else Deliver(OnEvent(st, evs[0]), evs[1..])
  }

  /** An event whose `delta` is absent or empty changes nothing. */
  lemma EventWithoutDelta(st: ChatState, ev: Event)
    requires ev.eventType == "message" && (DeltaOf(ev.data).None? || DeltaOf(ev.data) == Some(""))
    ensures OnEvent(st, ev) == st
  {
  }

  /** After `message_complete` the source is closed, and nothing it might still send is shown. */
  lemma CompleteCloses(st: ChatState, data: string, later: seq<Event>)
    requires st.open
    ensures var closed := OnEvent(st, Event("message_complete", data));
      && !closed.isStreaming && closed.messages == st.messages
      && Deliver(closed, later) == closed
  {
    var closed := OnEvent(st, Event("message_complete", data));
    ClosedIgnores(closed, later);
  }

  lemma {:induction false} ClosedIgnores(st: ChatState, evs: seq<Event>)
    requires !st.open
    ensures Deliver(st, evs) == st
    decreases |evs|
  {
    if evs != [] {
      ClosedIgnores(st, evs[1..]);
    }
  }

  /** Messages come in pairs, the participant's first. */
  predicate Alternating(messages: seq<Message>)
  {
    |messages| % 2 == 0 && forall k :: 0 <= k < |messages| ==> messages[k].sender == (if k % 2 == 0 then User else Ai)
  }

  /** The invariant of the panel: streaming exactly while a source is open, whose reply is the last bubble. */
  predicate Coherent(st: ChatState)
  {
    && Alternating(st.messages)
    && st.isStreaming == st.open
    && (st.open ==> |st.messages| > 0 && st.messages[|st.messages| - 1] == Message(Ai, st.aiResponse))
  }

  lemma EmptyCoherent()
    ensures Coherent(Empty)
  {
  }

  lemma SendKeepsCoherent(st: ChatState)
    requires Coherent(st)
    ensures Coherent(Send(st).state)
  {
    var m := Send(st).state.messages;
    if !AllWhitespace(st.input) {
      forall k | 0 <= k < |m| ensures m[k].sender == (if k % 2 == 0 then User else Ai) {
        if k < |st.messages| {
          assert m[k] == st.messages[k];
        }
      }
    }
  }

  lemma EventKeepsCoherent(st: ChatState, ev: Event)
    requires Coherent(st)
    ensures Coherent(OnEvent(st, ev))
  {
    var r := OnEvent(st, ev);
    if r.messages != st.messages {
      var n := |st.messages|;
      forall k | 0 <= k < n ensures r.messages[k].sender == (if k % 2 == 0 then User else Ai) {
        if k < n - 1 {
          assert r.messages[k] == r.messages[..n - 1][k];
        }
      }
    }
  }

  /** A reply after `text` so far: the bubble and the gathered text both become `text`. */
  function WithReply(st: ChatState, text: string): ChatState
  {
    st.(aiResponse := text, messages := ShowReply(st.messages, text))
  }

  /**
   * After the `message` events of a run of deltas, the reply gathered and
   * the last bubble are the text so far followed by those deltas, joined,
   * and every earlier message is untouched.
   */
  lemma {:induction false} DeliverDeltas(st: ChatState, deltas: seq<string>, evs: seq<Event>)
    requires Coherent(st) && st.open
    requires |evs| == |deltas|
    requires forall k :: 0 <= k < |evs| ==> PlainText(deltas[k]) && evs[k] == Event("message", JsonDelta(deltas[k]))
    ensures Deliver(st, evs) == WithReply(st, st.aiResponse + Concat(deltas))
    decreases |evs|
  {
    if evs == [] {
      assert st.aiResponse + Concat(deltas) == st.aiResponse;
      ReplyUnchanged(st);
    } else {
      var next := OnEvent(st, evs[0]);
      DeltaStep(st, deltas[0]);
      EventKeepsCoherent(st, evs[0]);
      DeliverDeltas(next, deltas[1..], evs[1..]);
      assert (st.aiResponse + deltas[0]) + Concat(deltas[1..]) == st.aiResponse + Concat(deltas);
      ReplyTwice(st, st.aiResponse + deltas[0], st.aiResponse + Concat(deltas));
    }
  }

  /** Showing the reply already shown changes nothing. */
  lemma ReplyUnchanged(st: ChatState)
    requires Coherent(st) && st.open
    ensures WithReply(st, st.aiResponse) == st
  {
    var n := |st.messages|;
    assert st.messages == st.messages[..n - 1] + [st.messages[n - 1]];
  }

  /** A later reply text overwrites an earlier one. */
  lemma ReplyTwice(st: ChatState, a: string, b: string)
    requires |st.messages| > 0
    ensures WithReply(WithReply(st, a), b) == WithReply(st, b)
  {
  }

  /** One `message` event with a delta extends the reply by that delta. */
  lemma DeltaStep(st: ChatState, delta: string)
    requires Coherent(st) && st.open && PlainText(delta)
    ensures OnEvent(st, Event("message", JsonDelta(delta))) == WithReply(st, st.aiResponse + delta)
  {
    DeltaRoundTrip(delta);
    if delta == [] {
      assert st.aiResponse + delta == st.aiResponse;
      ReplyUnchanged(st);
    }
  }

  lemma {:induction false} DeliverAppend(st: ChatState, a: seq<Event>, b: seq<Event>)
    ensures Deliver(st, a + b) == Deliver(Deliver(st, a), b)
    decreases |a|
  {
    if a == [] {
      assert a + b == b;
    } else {
      assert (a + b)[0] == a[0] && (a + b)[1..] == a[1..] + b;
      DeliverAppend(OnEvent(st, a[0]), a[1..], b);
    }
  }

  /** A whole reply stream: the deltas of `chunks`, then `message_complete`. */
  lemma DeliverReply(st: ChatState, chunks: seq<string>, evs: seq<Event>)
    requires Coherent(st) && st.open
    requires |evs| == |chunks| + 1
    requires forall k :: 0 <= k < |chunks| ==> PlainText(chunks[k]) && evs[k] == Event("message", JsonDelta(chunks[k]))
    requires evs[|chunks|] == Event("message_complete", CompleteData)
    ensures Deliver(st, evs) == WithReply(st, st.aiResponse + Concat(chunks)).(open := false, isStreaming := false)
  {
    var n := |chunks|;
    assert evs == evs[..n] + [evs[n]];
    DeliverAppend(st, evs[..n], [evs[n]]);
    DeliverDeltas(st, chunks, evs[..n]);
  }

  /**
   * Sending a message and reading the mock provider's whole reply leaves
   * the participant's message followed by the provider's chunks joined in
   * order, and the panel ready for the next message.
   */
  lemma ReplyShown(st: ChatState)
    requires Coherent(st) && !AllWhitespace(st.input)
    ensures Deliver(Send(st).state, ChatService.ReplyEvents())
      == ChatState(st.messages + [Message(User, st.input), Message(Ai, Concat(ChatService.Chunks))], "", false,
                   Concat(ChatService.Chunks), false)
  {
    ReplyEventsShape(ChatService.Chunks, ChatService.ReplyEvents());
    ReplyShownFor(st, ChatService.Chunks, ChatService.ReplyEvents(), Concat(ChatService.Chunks));
  }

  /** The same for any reply of plain chunks that spell `reply`. */
  lemma ReplyShownFor(st: ChatState, chunks: seq<string>, evs: seq<Event>, reply: string)
    requires Coherent(st) && !AllWhitespace(st.input)
    requires |evs| == |chunks| + 1
    requires forall k :: 0 <= k < |chunks| ==> PlainText(chunks[k]) && evs[k] == Event("message", JsonDelta(chunks[k]))
    requires evs[|chunks|] == Event("message_complete", CompleteData)
    requires Concat(chunks) == reply
    ensures Deliver(Send(st).state, evs)
      == ChatState(st.messages + [Message(User, st.input), Message(Ai, reply)], "", false, reply, false)
  {
    var sent := Send(st).state;
    SendKeepsCoherent(st);
    DeliverReply(sent, chunks, evs);
    var m := st.messages + [Message(User, st.input), Message(Ai, "")];
    assert sent.aiResponse + reply == reply;
    assert ShowReply(m, reply) == st.messages + [Message(User, st.input), Message(Ai, reply)];
  }

  lemma ReplyEventsShape(chunks: seq<string>, evs: seq<Event>)
    requires chunks == ChatService.Chunks && evs == ChatService.ReplyEvents()
    ensures |evs| == |chunks| + 1
    ensures forall k :: 0 <= k < |chunks| ==> PlainText(chunks[k]) && evs[k] == Event("message", JsonDelta(chunks[k]))
    ensures evs[|chunks|] == Event("message_complete", CompleteData)
  {
    ChatService.ChunksArePlain();
  }

  /** "Continue to next step" is enabled once a message and its reply bubble exist. */
  predicate CanContinue(st: ChatState)
  {
    |st.messages| >= 2
  }

  /** What the participant can do, and what the source can deliver. */
  datatype Action = Type(text: string) | KeyPress(key: string) | ClickSend | Deliver1(ev: Event) | SourceError

  /**
   * One action on the panel. While streaming the input and the button
   * are disabled, so typing and clicking do nothing; Enter sends only when
   * not streaming.
   */
  function Act(st: ChatState, a: Action): (r: ChatState)
  {
    match a
    case Type(text) => if st.isStreaming then st else st.(input := text)
    case KeyPress(key) => if key == "Enter" && !st.isStreaming then Send(st).state else st
    case ClickSend => if st.isStreaming then st else Send(st).state
    case Deliver1(ev) => OnEvent(st, ev)
    case SourceError => OnError(st)
  }

  /** Every action keeps the panel coherent, never removes a message, and once continuing is possible it stays so. */
  lemma ActKeepsCoherent(st: ChatState, a: Action)
    requires Coherent(st)
    ensures Coherent(Act(st, a))
    ensures |Act(st, a).messages| >= |st.messages|
    ensures CanContinue(st) ==> CanContinue(Act(st, a))
  {
    match a
    case Type(_) =>
    case KeyPress(_) => SendKeepsCoherent(st);
    case ClickSend => SendKeepsCoherent(st);
    case Deliver1(ev) => EventKeepsCoherent(st, ev);
    case SourceError =>
  }

  /** Sending while the previous reply streams is impossible from the panel. */
  lemma NoSendWhileStreaming(st: ChatState, a: Action)
    requires st.isStreaming && (a.KeyPress? || a.ClickSend? || a.Type?)
    ensures Act(st, a) == st
  {
  }

  /** The component's state fields, updated in place by its handlers. */
  class ChatPanel {
    var messages: seq<Message>
    var input: string
    var isStreaming: bool
    var aiResponse: string
    var open: bool

    function State(): ChatState
      reads this
    {
      ChatState(messages, input, isStreaming, aiResponse, open)
    }

    constructor ()
      ensures State() == Empty
    {
      messages, input, isStreaming, aiResponse, open := [], "", false, "", false;
    }

    /** The input's `onChange`. */
    method SetInput(text: string)
      modifies this
      ensures State() == Act(old(State()), Type(text))
    {
      if !isStreaming {
        input := text;
      }
    }

    /** `handleSendMessage`, returning the message placed in the request body. */
    method HandleSendMessage() returns (request: Option<string>)
      modifies this
      ensures AllWhitespace(old(input)) ==> request.None? && State() == old(State())
      ensures !AllWhitespace(old(input)) ==>
        (request == Some(old(input))
         && State() == ChatState(old(messages) + [Message(User, old(input)), Message(Ai, "")], "", true, "", true))
    {
      TrimEmptyIff(input);
      if Trim(input) == [] {
        request := None;
      } else {
        var text := input;
        request := Some(text);
        messages := messages + [Message(User, text), Message(Ai, "")];
        input, isStreaming, open, aiResponse := "", true, true, "";
      }
    }

    /** The source's handlers: `onmessage` and the `message_complete` listener. */
    method HandleEvent(ev: Event)
      modifies this
      ensures State() == OnEvent(old(State()), ev)
    {
      if !open {
        return;
      }
      if ev.eventType == "message" {
        var delta := DeltaOf(ev.data);
        if delta.Some? && delta.value != [] {
          aiResponse := aiResponse + delta.value;
          messages := ShowReply(messages, aiResponse);
        }
      } else if ev.eventType == "message_complete" {
        open := false;
        isStreaming := false;
      }
    }

    /** The source's `onerror`. */
    method HandleError()
      modifies this
      ensures State() == OnError(old(State()))
    {
      if open {
        open := false;
        isStreaming := false;
      }
    }
  }
}
