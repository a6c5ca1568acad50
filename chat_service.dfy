/**
 * The chat service: the chat record that `startChat` stores, and the reply
 * stream of the mock AI provider, one `data` frame per chunk followed by a
 * single `message_complete` frame.
 */
module ChatService {
  import opened Text
  import opened EventStream

  type Id = string

  /** One row of the `aiChat` table. */
  datatype AiChat = AiChat(
    id: Id, sessionId: Id, persona: string, turnIndex: nat,
    userMessage: string, aiResponse: string)

  const Persona: string := "socratic"
  const Greeting: string := "Let's begin our conversation. What's on your mind?"

  /** The mock provider's fixed reply, in emission order. */
  const Chunks: seq<string> := [
    "That's ", "an ", "interesting ", "point. ", "Have ", "you ",
    "considered ", "the ", "economic ", "implications ", "of ",
    "that ", "perspective? ", "For ", "example, ", "how ",
    "might ", "it ", "affect ", "jobs ", "in ", "traditional ", "industries?"
  ]

  /** The reply the chunks spell out. */
  const ReplyText: string :=
    "That's an interesting point. Have you " + "considered the economic implications of that "
    + "perspective? For example, how might it " + "affect jobs in traditional industries?"

  /** Joined in emission order, the chunks give the whole reply, nothing lost or repeated. */
  lemma ReplySentence()
    ensures Concat(Chunks) == ReplyText
  {
    var c := Chunks;
    var a, b, m, d := c[..6], c[6..12], c[12..18], c[18..];
    assert c == a + b + m + d;
    FirstGroup(a);
    SecondGroup(b);
    assert m[0] == c[12] && m[1] == c[13] && m[2] == c[14] && m[3] == c[15] && m[4] == c[16] && m[5] == c[17];
    ThirdGroup(m);
    LastGroup(d);
    JoinGroups(a, b, m, d);
  }

  lemma JoinGroups(a: seq<string>, b: seq<string>, m: seq<string>, d: seq<string>)
    requires Concat(a) == "That's an interesting point. Have you "
    requires Concat(b) == "considered the economic implications of that "
    requires Concat(m) == "perspective? For example, how might it "
    requires Concat(d) == "affect jobs in traditional industries?"
    ensures Concat(a + b + m + d) == ReplyText
  {
    ConcatAppend(a + b + m, d);
    ConcatAppend(a + b, m);
    ConcatAppend(a, b);
  }

  lemma FirstGroup(g: seq<string>)
    requires |g| == 6 && g[0] == "That's " && g[1] == "an " && g[2] == "interesting "
    requires g[3] == "point. " && g[4] == "Have " && g[5] == "you "
    ensures Concat(g) == "That's an interesting point. Have you "
  {
    ConcatSix(g);
  }

  lemma SecondGroup(g: seq<string>)
    requires |g| == 6 && g[0] == "considered " && g[1] == "the " && g[2] == "economic "
    requires g[3] == "implications " && g[4] == "of " && g[5] == "that "
    ensures Concat(g) == "considered the economic implications of that "
  {
    ConcatSix(g);
  }

  lemma ThirdGroup(g: seq<string>)
    requires |g| == 6 && g[0] == "perspective? " && g[1] == "For " && g[2] == "example, "
    requires g[3] == "how " && g[4] == "might " && g[5] == "it "
    ensures Concat(g) == "perspective? For example, how might it "
  {
    ConcatSix(g);
  }

  lemma LastGroup(g: seq<string>)
    requires |g| == 5 && g[0] == "affect " && g[1] == "jobs " && g[2] == "in "
    requires g[3] == "traditional " && g[4] == "industries?"
    ensures Concat(g) == "affect jobs in traditional industries?"
  {
    ConcatFive(g);
  }

  lemma ConcatCons(g: seq<string>)
    requires g != []
    ensures Concat(g) == g[0] + Concat(g[1..])
  {
  }

  /** `Concat` of five strings, spelled out. */
  lemma ConcatFive(g: seq<string>)
    requires |g| == 5
    ensures Concat(g) == g[0] + g[1] + g[2] + g[3] + g[4]
  {
    ConcatCons(g); ConcatCons(g[1..]); ConcatCons(g[2..]); ConcatCons(g[3..]); ConcatCons(g[4..]);
    assert g[4..][1..] == [];
    assert g[1..][1..] == g[2..] && g[2..][1..] == g[3..] && g[3..][1..] == g[4..];
  }

  /** `Concat` of six strings, spelled out. */
  lemma ConcatSix(g: seq<string>)
    requires |g| == 6
    ensures Concat(g) == g[0] + g[1] + g[2] + g[3] + g[4] + g[5]
  {
    ConcatCons(g);
    ConcatFive(g[1..]);
  }

  /** No chunk holds a character that `JSON.stringify` would escape. */
  lemma ChunksArePlain()
    ensures forall i :: 0 <= i < |Chunks| ==> PlainText(Chunks[i])
  {
  }

  /** The `data` frames for the first chunks, in order. */
  function DeltaFrames(chunks: seq<string>): (r: seq<string>)
    requires forall i :: 0 <= i < |chunks| ==> PlainText(chunks[i])
    ensures |r| == |chunks|
    ensures forall i :: 0 <= i < |chunks| ==> r[i] == DeltaFrame(chunks[i])
  {
    if chunks == [] then [] else DeltaFrames(chunks[..|chunks| - 1]) + [DeltaFrame(chunks[|chunks| - 1])]
  }

  /** Everything one reply writes to its stream. */
  function ReplyFrames(): seq<string>
  {
    ChunksArePlain();
    DeltaFrames(Chunks) + [CompleteFrame]
  }

  /** The write buffer of one reply stream and the chunk counter `i` of its timer callback. */
  class ReplyStream {
    const chunks: seq<string>
    var i: nat
    var written: seq<string>
    var ended: bool

    ghost predicate Valid()
      reads this
    {
      && (forall k :: 0 <= k < |chunks| ==> PlainText(chunks[k]))
      && i <= |chunks|
      && (ended ==> i == |chunks|)
      && written == DeltaFrames(chunks[..i]) + (if ended then [CompleteFrame] else [])
    }

    constructor (chunks: seq<string>)
      requires forall k :: 0 <= k < |chunks| ==> PlainText(chunks[k])
      ensures Valid() && this.chunks == chunks && i == 0 && written == [] && !ended
    {
      this.chunks := chunks;
      i, written, ended := 0, [], false;
      assert chunks[..0] == [];
    }

    /** One run of the interval callback: the next chunk's frame, or the closing frame and the end. */
    method Tick()
      requires Valid() && !ended
      modifies this
      ensures Valid()
      ensures old(i) < |chunks| ==> i == old(i) + 1 && !ended && written == old(written) + [DeltaFrame(chunks[old(i)])]
      ensures old(i) == |chunks| ==> i == old(i) && ended && written == old(written) + [CompleteFrame]
    {
      if i < |chunks| {
        assert chunks[..i + 1][..i] == chunks[..i];
        written := written + [DeltaFrame(chunks[i])];
        i := i + 1;
      } else {
        written := written + [CompleteFrame];
        ended := true;
      }
    }
  }

  class MockAiProvider {
    constructor () {}

    /**
     * `streamResponse`: runs the timer callback until the stream ends and
     * returns what was written; the message does not influence the reply.
     */
    method StreamResponse(message: string) returns (frames: seq<string>)
      ensures frames == ReplyFrames()
    {
      ChunksArePlain();
      var stream := new ReplyStream(Chunks);
      while !stream.ended
        invariant stream.Valid() && stream.chunks == Chunks
        decreases |Chunks| - stream.i, if stream.ended then 0 else 1
      {
        stream.Tick();
      }
      frames := stream.written;
      assert stream.chunks[..stream.i] == Chunks;
    }
  }

  class ChatService {
    const aiProvider: MockAiProvider
    /** The `aiChat` table, oldest row first. */
    var chats: seq<AiChat>

    constructor ()
      ensures chats == []
    {
      aiProvider := new MockAiProvider();
      chats := [];
    }

    /** `startChat`: stores the fixed opening record; the store supplies the fresh `id`. */
    method StartChat(sessionId: Id, initialContext: string, id: Id) returns (chat: AiChat)
      modifies this
      ensures chat == AiChat(id, sessionId, Persona, 0, initialContext, Greeting)
      ensures chats == old(chats) + [chat]
    {
      chat := AiChat(id, sessionId, Persona, 0, initialContext, Greeting);
      chats := chats + [chat];
    }

    /** `sendMessage`: the reply stream, whatever the chat and the message; nothing is stored. */
    method SendMessage(chatId: Id, message: string) returns (frames: seq<string>)
      ensures frames == ReplyFrames()
    {
      frames := aiProvider.StreamResponse(message);
    }
  }

  /** One frame per chunk plus the closing frame: 24 in all. */
  lemma ReplyFrameCount()
    ensures |ReplyFrames()| == |Chunks| + 1 == 24
  {
  }

  /** Only the last frame is the closing frame; every other one carries the next chunk. */
  lemma ReplyFrameOrder()
    ensures ReplyFrames()[|Chunks|] == CompleteFrame
    ensures forall k :: 0 <= k < |Chunks| ==> PlainText(Chunks[k]) && ReplyFrames()[k] == DeltaFrame(Chunks[k])
  {
    ChunksArePlain();
  }

  /** The events a browser dispatches when it reads the whole reply. */
  function ReplyEvents(): (evs: seq<Event>)
    ensures |evs| == |Chunks| + 1
  {
    ChunksArePlain();
    seq(|Chunks|, k requires 0 <= k < |Chunks| => Event("message", JsonDelta(Chunks[k])))
      + [Event("message_complete", CompleteData)]
  }

  /** Read as an event stream, the reply is one `message` event per chunk, then `message_complete`. */
  lemma ReplyDecodes()
    ensures Feed(Initial, Concat(ReplyFrames())) == (Initial, ReplyEvents())
  {
    ChunksArePlain();
    var frames := ReplyFrames();
    var evs := ReplyEvents();
    forall k | 0 <= k < |frames| ensures Feed(Initial, frames[k]) == (Initial, [evs[k]]) {
      if k < |Chunks| {
        DeltaFrameDispatch(Chunks[k]);
      } else {
        CompleteFrameDispatch();
      }
    }
    FeedFrames(frames, evs);
  }
}
