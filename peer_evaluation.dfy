/**
 * The peer-evaluation step: the voting queue is loaded once, and each vote
 * is posted for the response under the cursor `currentIndex`, counted, and
 * moves the cursor on until the end of the queue is reached.
 */
module PeerEvaluation {
  import opened Wrappers
  import opened Votes
  import opened Fetch

  const MinimumVotes: nat := 3

  const QueueFetchFailed: string := "Failed to fetch voting queue"
  const VoteFailed: string := "Failed to submit vote. Please try again."

  datatype VoteType = Approve | Disapprove | Pass | Quality

  function VoteTypeText(t: VoteType): (s: string)
    ensures s in {"approve", "disapprove", "pass", "quality"}
  {
    match t
    case Approve => "approve"
    case Disapprove => "disapprove"
    case Pass => "pass"
    case Quality => "quality"
  }

  /** Distinct buttons post distinct vote types. */
  lemma VoteTypeTextInjective(a: VoteType, b: VoteType)
    ensures VoteTypeText(a) == VoteTypeText(b) ==> a == b
  {
  }

  datatype PeerState = PeerState(
    queue: seq<QueueEntry>, currentIndex: nat, isLoading: bool,
    error: Option<string>, votesSubmitted: nat)

  const Initial: PeerState := PeerState([], 0, true, None, 0)

  /** The effect's `fetchQueue`: the queue or an error, and loading ends either way. */
  function AfterLoad(st: PeerState, outcome: FetchOutcome<seq<QueueEntry>>): (r: PeerState)
    ensures !r.isLoading && r.currentIndex == st.currentIndex && r.votesSubmitted == st.votesSubmitted
    ensures outcome.Fetched? ==> r.queue == outcome.value && r.error == st.error
    ensures outcome.NotOk? ==> r.queue == st.queue && r.error == Some(QueueFetchFailed)
    ensures outcome.Threw? && outcome.message.Some? ==> r.queue == st.queue && r.error == outcome.message
    ensures outcome.Threw? && outcome.message.None? ==> r.queue == st.queue && r.error == Some(UnknownError)
  {
    match outcome
    case Fetched(items) => st.(queue := items, isLoading := false)
    case _ => st.(error := Some(CaughtMessage(outcome, QueueFetchFailed, UnknownError)), isLoading := false)
  }

  /** What one click on a vote button did: the new state, the request posted, and whether `onComplete` fired. */
  datatype VoteStep = VoteStep(state: PeerState, request: Option<SubmitVoteInput>, completed: bool)

  /**
   * `handleVote`. `resolved` says whether the `fetch` promise resolved; it
   * resolves on any HTTP status, so only a network failure counts as
   * rejected.
   */
  function CastVote(st: PeerState, sessionId: string, voteType: VoteType, resolved: bool): (r: VoteStep)
  {
    if st.currentIndex >= |st.queue| then VoteStep(st, None, false)
    else
      var request := SubmitVoteInput(st.queue[st.currentIndex].id, sessionId, VoteTypeText(voteType), None);
      if !resolved then VoteStep(st.(error := Some(VoteFailed)), Some(request), false)
      else
        var counted := st.(votesSubmitted := st.votesSubmitted + 1);
        if st.currentIndex < |st.queue| - 1 then VoteStep(counted.(currentIndex := st.currentIndex + 1), Some(request), false)
        else VoteStep(counted, Some(request), true)
  }

  /** With no response under the cursor nothing happens and nothing is posted. */
  lemma VoteWithoutResponse(st: PeerState, sessionId: string, voteType: VoteType, resolved: bool)
    requires st.currentIndex >= |st.queue|
    ensures CastVote(st, sessionId, voteType, resolved) == VoteStep(st, None, false)
  {
  }

  /** A posted vote names the response under the cursor, the session and the button's type, with no reason. */
  lemma VoteRequest(st: PeerState, sessionId: string, voteType: VoteType, resolved: bool)
    requires st.currentIndex < |st.queue|
    ensures CastVote(st, sessionId, voteType, resolved).request
      == Some(SubmitVoteInput(st.queue[st.currentIndex].id, sessionId, VoteTypeText(voteType), None))
  {
  }

  /**
   * A resolved vote is counted once; the cursor advances unless it was on
   * the last response, in which case `onComplete` fires instead.
   */
  lemma VoteCounted(st: PeerState, sessionId: string, voteType: VoteType)
    requires st.currentIndex < |st.queue|
    ensures var r := CastVote(st, sessionId, voteType, true);
      && r.state.votesSubmitted == st.votesSubmitted + 1
      && r.state.queue == st.queue && r.state.error == st.error
      && (r.completed <==> st.currentIndex == |st.queue| - 1)
      && r.state.currentIndex == (if r.completed then st.currentIndex else st.currentIndex + 1)
  {
  }

  /** A rejected vote changes neither the cursor nor the count, and shows the retry message. */
  lemma VoteRejected(st: PeerState, sessionId: string, voteType: VoteType)
    requires st.currentIndex < |st.queue|
    ensures var r := CastVote(st, sessionId, voteType, false);
      && r.state == st.(error := Some(VoteFailed)) && !r.completed
  {
  }

  /** The cursor is always on a response when there is one, and at 0 otherwise. */
  predicate CursorInRange(st: PeerState)
  {
    if |st.queue| == 0 then st.currentIndex == 0 else st.currentIndex < |st.queue|
  }

  lemma VoteKeepsCursorInRange(st: PeerState, sessionId: string, voteType: VoteType, resolved: bool)
    requires CursorInRange(st)
    ensures CursorInRange(CastVote(st, sessionId, voteType, resolved).state)
  {
  }

  lemma LoadKeepsCursorInRange(outcome: FetchOutcome<seq<QueueEntry>>)
    ensures CursorInRange(AfterLoad(Initial, outcome))
  {
  }

  /** A run of clicks: each a vote type and whether its request resolved. */
  function VoteRun(st: PeerState, sessionId: string, clicks: seq<(VoteType, bool)>): (r: PeerState)
    ensures r.queue == st.queue && r.votesSubmitted <= st.votesSubmitted + |clicks|
    ensures r.votesSubmitted >= st.votesSubmitted
    decreases |clicks|
  {
    if clicks == [] then st
    else VoteRun(CastVote(st, sessionId, clicks[0].0, clicks[0].1).state, sessionId, clicks[1..])
  }

  /** "Progress: n of m votes needed". */
  function ProgressTarget(st: PeerState): (t: nat)
    ensures t <= MinimumVotes && t <= |st.queue|
    ensures t == MinimumVotes || t == |st.queue|
  {
    if |st.queue| < MinimumVotes then |st.queue| else MinimumVotes
  }

  /** The continue button as written: enabled once three votes are counted. */
  predicate ContinueEnabledAsWritten(st: PeerState)
  {
    st.votesSubmitted >= MinimumVotes
  }

  /**
   * When the queue comes back empty, or fails to load, no vote can be cast,
   * so the continue button as written stays disabled whatever the
   * participant clicks, while the progress line reports that no votes are
   * needed.
   */
  lemma EmptyQueueBlocksContinue(outcome: FetchOutcome<seq<QueueEntry>>, sessionId: string, clicks: seq<(VoteType, bool)>)
    requires !outcome.Fetched? || outcome.value == []
    ensures var st := VoteRun(AfterLoad(Initial, outcome), sessionId, clicks);
      ProgressTarget(st) == 0 && !ContinueEnabledAsWritten(st)
  {
    NoVotesOnEmptyQueue(AfterLoad(Initial, outcome), sessionId, clicks);
  }

  lemma {:induction false} NoVotesOnEmptyQueue(st: PeerState, sessionId: string, clicks: seq<(VoteType, bool)>)
    requires st.queue == []
    ensures VoteRun(st, sessionId, clicks).votesSubmitted == st.votesSubmitted
    decreases |clicks|
  {
    if clicks != [] {
      NoVotesOnEmptyQueue(CastVote(st, sessionId, clicks[0].0, clicks[0].1).state, sessionId, clicks[1..]);
    }
  }

  /**
   * The proposed fix for the continue button: measure the count against the
   * target the progress line shows, `min(3, queue length)`, instead of 3.
   * It never closes a button the program as written opens, and opens it on
   * an empty queue.
   */
  function CorrectedContinueEnabled(st: PeerState): (enabled: bool)
    ensures ContinueEnabledAsWritten(st) ==> enabled
    ensures |st.queue| == 0 ==> enabled
    ensures |st.queue| >= MinimumVotes ==> (enabled <==> ContinueEnabledAsWritten(st))
  {
    st.votesSubmitted >= ProgressTarget(st)
  }

  /** Measured against the progress target, an empty or failed queue lets the participant continue at once. */
  lemma EmptyQueueCanContinue(outcome: FetchOutcome<seq<QueueEntry>>, sessionId: string, clicks: seq<(VoteType, bool)>)
    requires !outcome.Fetched? || outcome.value == []
    ensures CorrectedContinueEnabled(VoteRun(AfterLoad(Initial, outcome), sessionId, clicks))
  {
  }

  /** With three or more responses queued the two gates agree. */
  lemma GatesAgreeOnFullQueue(st: PeerState)
    requires |st.queue| >= MinimumVotes
    ensures CorrectedContinueEnabled(st) <==> ContinueEnabledAsWritten(st)
  {
  }

  /**
   * Voting through the queue always opens the corrected gate: after one
   * resolved vote per queued response, starting at the front, the count
   * reaches the target.
   */
  lemma {:induction false} VotingThroughOpensGate(st: PeerState, sessionId: string, clicks: seq<(VoteType, bool)>)
    requires CursorInRange(st) && st.currentIndex == 0 && st.votesSubmitted == 0
    requires |clicks| == |st.queue| && forall k :: 0 <= k < |clicks| ==> clicks[k].1
    ensures CorrectedContinueEnabled(VoteRun(st, sessionId, clicks))
  {
    if |st.queue| > 0 {
      VotesCountResolved(st, sessionId, clicks);
    }
  }

  /** From cursor position `i`, `n` resolved votes with `i + n <= |queue|` are all counted. */
  lemma {:induction false} VotesCountResolved(st: PeerState, sessionId: string, clicks: seq<(VoteType, bool)>)
    requires st.currentIndex + |clicks| <= |st.queue|
    requires forall k :: 0 <= k < |clicks| ==> clicks[k].1
    ensures VoteRun(st, sessionId, clicks).votesSubmitted == st.votesSubmitted + |clicks|
    decreases |clicks|
  {
    if clicks != [] {
      var next := CastVote(st, sessionId, clicks[0].0, true).state;
      assert next.votesSubmitted == st.votesSubmitted + 1;
      assert |clicks| > 1 ==> next.currentIndex == st.currentIndex + 1;
      if |clicks| > 1 {
        VotesCountResolved(next, sessionId, clicks[1..]);
      } else {
        assert clicks[1..] == [];
      }
    }
  }

  /** The component's state fields, updated in place by its handlers. */
  class PeerEvaluationStep {
    const sessionId: string
    var queue: seq<QueueEntry>
    var currentIndex: nat
    var isLoading: bool
    var error: Option<string>
    var votesSubmitted: nat

    function State(): PeerState
      reads this
    {
      PeerState(queue, currentIndex, isLoading, error, votesSubmitted)
    }

    constructor (sessionId: string)
      ensures this.sessionId == sessionId && State() == Initial
    {
      this.sessionId := sessionId;
      queue, currentIndex, isLoading, error, votesSubmitted := [], 0, true, None, 0;
    }

    /** The effect: fetch the queue, record it or the error, stop loading. */
    method FetchQueue(outcome: FetchOutcome<seq<QueueEntry>>)
      modifies this
      ensures State() == AfterLoad(old(State()), outcome)
    {
      if outcome.Fetched? {
        queue := outcome.value;
      } else {
        error := Some(CaughtMessage(outcome, QueueFetchFailed, UnknownError));
      }
      isLoading := false;
    }

    /** `handleVote`, returning the request it posts and whether it called `onComplete`. */
    method HandleVote(voteType: VoteType, resolved: bool) returns (request: Option<SubmitVoteInput>, completed: bool)
      modifies this
      ensures VoteStep(State(), request, completed) == CastVote(old(State()), sessionId, voteType, resolved)
    {
      completed := false;
      if currentIndex >= |queue| {
        request := None;
        return;
      }
      request := Some(SubmitVoteInput(queue[currentIndex].id, sessionId, VoteTypeText(voteType), None));
      if !resolved {
        error := Some(VoteFailed);
        return;
      }
      votesSubmitted := votesSubmitted + 1;
      if currentIndex < |queue| - 1 {
        currentIndex := currentIndex + 1;
      } else {
        completed := true;
      }
    }

    /**
     * The continue button as the component renders it, `disabled` while fewer
     * than three votes are counted: it may stay closed after the progress
     * target is met, and once open the target is met too.
     */
    function ContinueButtonEnabled(): (enabled: bool)
      reads this
      ensures enabled <==> ContinueEnabledAsWritten(State())
      ensures enabled ==> votesSubmitted >= ProgressTarget(State())
    {
      !(votesSubmitted < MinimumVotes)
    }
  }
}
