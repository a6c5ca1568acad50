/**
 * The vote service: the peer-voting queue, read from the response and vote
 * ledgers, and the append-only vote ledger itself.
 */
module Votes {
  import opened Wrappers
  import opened Json
  import opened Responses
  import opened Sorting

  datatype Vote = Vote(
    id: Id, targetResponseId: Option<Id>, sessionId: Id,
    voteType: string, reason: Option<string>, createdAt: int)

  datatype SubmitVoteInput = SubmitVoteInput(responseId: Id, sessionId: Id, voteType: string, reason: Option<string>)

  /** What the queue exposes of a response: never its session. */
  datatype QueueEntry = QueueEntry(id: Id, value: Json, createdAt: int)

  /** `take: 10`. */
  const QueueLimit: nat := 10

  /** The targets the session has voted on, votes without a target dropped. */
  function VotedIds(votes: seq<Vote>, sessionId: Id): (r: seq<Id>)
    ensures forall k :: 0 <= k < |votes| && votes[k].sessionId == sessionId && votes[k].targetResponseId.Some? ==>
              votes[k].targetResponseId.value in r
    ensures forall x :: x in r ==>
              exists k :: 0 <= k < |votes| && votes[k].sessionId == sessionId && votes[k].targetResponseId == Some(x)
  {
    if votes == [] then []
    else
      var v := votes[|votes| - 1];
      var rest := VotedIds(votes[..|votes| - 1], sessionId);
      if v.sessionId == sessionId && v.targetResponseId.Some? then rest + [v.targetResponseId.value] else rest
  }

  /** The ids of the session's own responses. */
  function OwnIds(responses: seq<Response>, sessionId: Id): (r: seq<Id>)
    ensures forall k :: 0 <= k < |responses| && responses[k].sessionId == sessionId ==> responses[k].id in r
    ensures forall x :: x in r ==> exists k :: 0 <= k < |responses| && responses[k].sessionId == sessionId && responses[k].id == x
  {
    if responses == [] then []
    else
      var r := responses[|responses| - 1];
      var rest := OwnIds(responses[..|responses| - 1], sessionId);
      if r.sessionId == sessionId then rest + [r.id] else rest
  }

  /** The `where` clause: an original answer from a session of the survey whose id is not excluded. */
  predicate Eligible(r: Response, sessions: map<Id, Id>, surveyId: Id, excluded: seq<Id>)
  {
    r.sessionId in sessions && sessions[r.sessionId] == surveyId
    && r.id !in excluded && r.editedFromId.None?
  }

  /** The ledger filtered by `Eligible`, in ledger order. */
  function Candidates(responses: seq<Response>, sessions: map<Id, Id>, surveyId: Id, excluded: seq<Id>): (c: seq<Response>)
    ensures forall i :: 0 <= i < |c| ==> Eligible(c[i], sessions, surveyId, excluded) && c[i] in responses
    ensures forall k :: 0 <= k < |responses| && Eligible(responses[k], sessions, surveyId, excluded) ==> responses[k] in c
  {
    if responses == [] then []
    else
      var r := responses[|responses| - 1];
      var rest := Candidates(responses[..|responses| - 1], sessions, surveyId, excluded);
      assert forall x :: x in responses[..|responses| - 1] ==> x in responses;
      if Eligible(r, sessions, surveyId, excluded) then rest + [r] else rest
  }

  /** The filter keeps each row at most as often as the ledger holds it. */
  lemma {:induction false} CandidatesWithin(responses: seq<Response>, sessions: map<Id, Id>, surveyId: Id, excluded: seq<Id>)
    ensures multiset(Candidates(responses, sessions, surveyId, excluded)) <= multiset(responses)
  {
    if responses != [] {
      var init := responses[..|responses| - 1];
      CandidatesWithin(init, sessions, surveyId, excluded);
      assert responses == init + [responses[|responses| - 1]];
    }
  }

  /** Only membership in the exclusion list matters to the filter. */
  lemma {:induction false} CandidatesByMembership(responses: seq<Response>, sessions: map<Id, Id>, surveyId: Id, e1: seq<Id>, e2: seq<Id>)
    requires forall x :: x in e1 <==> x in e2
    ensures Candidates(responses, sessions, surveyId, e1) == Candidates(responses, sessions, surveyId, e2)
  {
    if responses != [] {
      CandidatesByMembership(responses[..|responses| - 1], sessions, surveyId, e1, e2);
    }
  }

  function CreatedAtDesc(r: Response): int { -r.createdAt }

  function ToEntry(r: Response): QueueEntry
  {
    QueueEntry(r.id, r.value, r.createdAt)
  }

  /** The `select` of the query applied row by row. */
  function Entries(rs: seq<Response>): (es: seq<QueueEntry>)
    ensures |es| == |rs| && forall i :: 0 <= i < |rs| ==> es[i] == ToEntry(rs[i])
  {
    seq(|rs|, i requires 0 <= i < |rs| => ToEntry(rs[i]))
  }

  /** Selecting fields from a sub-multiset of rows gives a sub-multiset of their entries. */
  lemma {:induction false} EntriesOfSubMultiset(a: seq<Response>, b: seq<Response>)
    requires multiset(a) <= multiset(b)
    ensures multiset(Entries(a)) <= multiset(Entries(b))
    decreases |a|
  {
    if a != [] {
      var x := a[0];
      assert x in multiset(b);
      var j :| 0 <= j < |b| && b[j] == x;
      var rest := b[..j] + b[j + 1..];
      EntriesRemove(b, j);
      TailWithin(a, b, rest);
      EntriesOfSubMultiset(a[1..], rest);
      assert Entries(a) == [ToEntry(x)] + Entries(a[1..]);
      AddWithin(multiset(Entries(a[1..])), multiset(Entries(rest)), ToEntry(x));
    }
  }

  /** Taking out the row at `j` takes out one row and one entry. */
  lemma EntriesRemove(b: seq<Response>, j: nat)
    requires j < |b|
    ensures multiset(b) == multiset(b[..j] + b[j + 1..]) + multiset{b[j]}
    ensures multiset(Entries(b)) == multiset(Entries(b[..j] + b[j + 1..])) + multiset{ToEntry(b[j])}
  {
    assert b == b[..j] + [b[j]] + b[j + 1..];
    assert Entries(b) == Entries(b[..j]) + [ToEntry(b[j])] + Entries(b[j + 1..]);
    assert Entries(b[..j] + b[j + 1..]) == Entries(b[..j]) + Entries(b[j + 1..]);
  }

  lemma TailWithin(a: seq<Response>, b: seq<Response>, rest: seq<Response>)
    requires a != [] && multiset(a) <= multiset(b) && multiset(b) == multiset(rest) + multiset{a[0]}
    ensures multiset(a[1..]) <= multiset(rest)
  {
    assert a == [a[0]] + a[1..];
    forall y ensures multiset(a[1..])[y] <= multiset(rest)[y] {
      assert multiset(a)[y] <= multiset(b)[y];
    }
  }

  lemma AddWithin<T>(m: multiset<T>, n: multiset<T>, x: T)
    requires m <= n
    ensures multiset{x} + m <= n + multiset{x}
  {
  }

  /** The exclusion list: answers already voted on, then the voter's own answers. */
  function Excluded(responses: seq<Response>, votes: seq<Vote>, sessionId: Id): seq<Id>
  {
    VotedIds(votes, sessionId) + OwnIds(responses, sessionId)
  }

  /** Sorting only rearranges: the same elements, in both directions. */
  lemma SortKeepsMembers(c: seq<Response>)
    ensures forall i :: 0 <= i < |SortBy(c, CreatedAtDesc)| ==> SortBy(c, CreatedAtDesc)[i] in c
    ensures forall x :: x in c ==> x in SortBy(c, CreatedAtDesc)
  {
    var ranked := SortBy(c, CreatedAtDesc);
    forall i | 0 <= i < |ranked| ensures ranked[i] in c {
      assert ranked[i] in multiset(ranked);
    }
    forall x | x in c ensures x in ranked {
      assert x in multiset(c);
    }
  }

  /** The eligible answers newest first, cut to the limit. */
  function Selected(responses: seq<Response>, sessions: map<Id, Id>, votes: seq<Vote>, surveyId: Id, sessionId: Id)
    : (sel: seq<Response>)
    ensures |sel| <= QueueLimit
    ensures forall i :: 0 <= i < |sel| ==>
              sel[i] in responses && Eligible(sel[i], sessions, surveyId, Excluded(responses, votes, sessionId))
    ensures forall i, j :: 0 <= i < j < |sel| ==> sel[i].createdAt >= sel[j].createdAt
    ensures forall k :: 0 <= k < |responses| && Eligible(responses[k], sessions, surveyId, Excluded(responses, votes, sessionId))
              && responses[k] !in sel
              ==> (|sel| == QueueLimit && forall i :: 0 <= i < |sel| ==> responses[k].createdAt <= sel[i].createdAt)
  {
    var c := Candidates(responses, sessions, surveyId, Excluded(responses, votes, sessionId));
    var ranked := SortBy(c, CreatedAtDesc);
    SortKeepsMembers(c);
    var n := if |ranked| < QueueLimit then |ranked| else QueueLimit;
    PrefixFacts(ranked, n);
    ranked[..n]
  }

  /** No row is selected more often than the ledger holds it. */
  lemma SelectedWithin(responses: seq<Response>, sessions: map<Id, Id>, votes: seq<Vote>, surveyId: Id, sessionId: Id)
    ensures multiset(Selected(responses, sessions, votes, surveyId, sessionId)) <= multiset(responses)
  {
    var c := Candidates(responses, sessions, surveyId, Excluded(responses, votes, sessionId));
    var ranked := SortBy(c, CreatedAtDesc);
    var n := if |ranked| < QueueLimit then |ranked| else QueueLimit;
    assert Selected(responses, sessions, votes, surveyId, sessionId) == ranked[..n];
    CandidatesWithin(responses, sessions, surveyId, Excluded(responses, votes, sessionId));
    PrefixWithin(ranked, n, c, responses);
  }

  /** A prefix of a rearrangement of a sub-multiset is a sub-multiset. */
  lemma PrefixWithin<T>(s: seq<T>, n: nat, c: seq<T>, all: seq<T>)
    requires n <= |s| && multiset(s) == multiset(c) && multiset(c) <= multiset(all)
    ensures multiset(s[..n]) <= multiset(all)
  {
    assert s == s[..n] + s[n..];
    forall y ensures multiset(s[..n])[y] <= multiset(all)[y] {
      assert multiset(s[..n])[y] <= multiset(s)[y];
    }
  }

  /** What cutting a newest-first list to its first `n` entries keeps and drops. */
  lemma PrefixFacts(ranked: seq<Response>, n: nat)
    requires n <= |ranked| && (n == |ranked| || n == QueueLimit)
    requires SortedBy(ranked, CreatedAtDesc)
    ensures forall i, j :: 0 <= i < j < n ==> ranked[..n][i].createdAt >= ranked[..n][j].createdAt
    ensures forall x :: x in ranked && x !in ranked[..n] ==>
              (n == QueueLimit && forall i :: 0 <= i < n ==> x.createdAt <= ranked[..n][i].createdAt)
  {
    forall i, j | 0 <= i < j < n ensures ranked[..n][i].createdAt >= ranked[..n][j].createdAt {
      assert CreatedAtDesc(ranked[i]) <= CreatedAtDesc(ranked[j]);
    }
    forall x | x in ranked && x !in ranked[..n]
      ensures n == QueueLimit && forall i :: 0 <= i < n ==> x.createdAt <= ranked[..n][i].createdAt
    {
      var m :| 0 <= m < |ranked| && ranked[m] == x;
      forall i | 0 <= i < n ensures x.createdAt <= ranked[..n][i].createdAt {
        assert CreatedAtDesc(ranked[i]) <= CreatedAtDesc(ranked[m]);
      }
    }
  }

  /**
   * `getVotingQueue`: at most ten entries, newest first, each an original
   * answer to the survey that is neither the voter's own nor one the voter
   * voted on; no ledger row is offered more often than it occurs; an
   * eligible answer left out is no newer than any entry, and is left out
   * only when the queue is full.
   */
  function GetVotingQueue(responses: seq<Response>, sessions: map<Id, Id>, votes: seq<Vote>, surveyId: Id, sessionId: Id)
    : (q: seq<QueueEntry>)
    ensures |q| <= QueueLimit
    ensures forall i, k :: 0 <= i < |q| && 0 <= k < |responses| && responses[k].id == q[i].id ==>
              responses[k].sessionId != sessionId
    ensures forall i :: 0 <= i < |q| ==> q[i].id !in VotedIds(votes, sessionId)
    ensures forall i :: 0 <= i < |q| ==>
              (exists k :: 0 <= k < |responses| && q[i] == ToEntry(responses[k])
                 && responses[k].editedFromId.None? && responses[k].sessionId in sessions
                 && sessions[responses[k].sessionId] == surveyId)
    ensures forall i, j :: 0 <= i < j < |q| ==> q[i].createdAt >= q[j].createdAt
    ensures forall k :: 0 <= k < |responses| && Eligible(responses[k], sessions, surveyId, Excluded(responses, votes, sessionId))
              && ToEntry(responses[k]) !in q
              ==> (|q| == QueueLimit && forall i :: 0 <= i < |q| ==> responses[k].createdAt <= q[i].createdAt)
    ensures multiset(q) <= multiset(Entries(responses))
  {
    var sel := Selected(responses, sessions, votes, surveyId, sessionId);
    var q := Entries(sel);
    EntryFacts(responses, sessions, votes, surveyId, sessionId, sel, q);
    SelectedWithin(responses, sessions, votes, surveyId, sessionId);
    EntriesOfSubMultiset(sel, responses);
    q
  }

  lemma EntryFacts(responses: seq<Response>, sessions: map<Id, Id>, votes: seq<Vote>, surveyId: Id, sessionId: Id,
                   sel: seq<Response>, q: seq<QueueEntry>)
    requires sel == Selected(responses, sessions, votes, surveyId, sessionId)
    requires |q| == |sel| && forall i :: 0 <= i < |sel| ==> q[i] == ToEntry(sel[i])
    ensures forall i, k :: 0 <= i < |q| && 0 <= k < |responses| && responses[k].id == q[i].id ==>
              responses[k].sessionId != sessionId
    ensures forall i :: 0 <= i < |q| ==>
              (exists k :: 0 <= k < |responses| && q[i] == ToEntry(responses[k])
                 && responses[k].editedFromId.None? && responses[k].sessionId in sessions
                 && sessions[responses[k].sessionId] == surveyId)
    ensures forall k :: 0 <= k < |responses| && ToEntry(responses[k]) !in q ==> responses[k] !in sel
  {
    EntriesNotOwn(responses, sessions, votes, surveyId, sessionId, sel, q);
    EntriesOriginal(responses, sessions, votes, surveyId, sessionId, sel, q);
    EntriesCover(responses, sel, q);
  }

  lemma EntriesNotOwn(responses: seq<Response>, sessions: map<Id, Id>, votes: seq<Vote>, surveyId: Id, sessionId: Id,
                      sel: seq<Response>, q: seq<QueueEntry>)
    requires sel == Selected(responses, sessions, votes, surveyId, sessionId)
    requires |q| == |sel| && forall i :: 0 <= i < |sel| ==> q[i] == ToEntry(sel[i])
    ensures forall i, k :: 0 <= i < |q| && 0 <= k < |responses| && responses[k].id == q[i].id ==>
              responses[k].sessionId != sessionId
  {
    var own := OwnIds(responses, sessionId);
    forall i, k | 0 <= i < |q| && 0 <= k < |responses| && responses[k].id == q[i].id
      ensures responses[k].sessionId != sessionId
    {
      assert sel[i].id !in Excluded(responses, votes, sessionId);
      assert responses[k].id !in own;
    }
  }

  lemma EntriesOriginal(responses: seq<Response>, sessions: map<Id, Id>, votes: seq<Vote>, surveyId: Id, sessionId: Id,
                        sel: seq<Response>, q: seq<QueueEntry>)
    requires sel == Selected(responses, sessions, votes, surveyId, sessionId)
    requires |q| == |sel| && forall i :: 0 <= i < |sel| ==> q[i] == ToEntry(sel[i])
    ensures forall i :: 0 <= i < |q| ==>
              (exists k :: 0 <= k < |responses| && q[i] == ToEntry(responses[k])
                 && responses[k].editedFromId.None? && responses[k].sessionId in sessions
                 && sessions[responses[k].sessionId] == surveyId)
  {
    forall i | 0 <= i < |q|
      ensures exists k :: 0 <= k < |responses| && q[i] == ToEntry(responses[k])
                 && responses[k].editedFromId.None? && responses[k].sessionId in sessions
                 && sessions[responses[k].sessionId] == surveyId
    {
      var k :| 0 <= k < |responses| && responses[k] == sel[i];
    }
  }

  lemma EntriesCover(responses: seq<Response>, sel: seq<Response>, q: seq<QueueEntry>)
    requires |q| == |sel| && forall i :: 0 <= i < |sel| ==> q[i] == ToEntry(sel[i])
    ensures forall k :: 0 <= k < |responses| && ToEntry(responses[k]) !in q ==> responses[k] !in sel
  {
    forall k | 0 <= k < |responses| && responses[k] in sel ensures ToEntry(responses[k]) in q {
      var i :| 0 <= i < |sel| && sel[i] == responses[k];
      assert q[i] == ToEntry(responses[k]);
    }
  }

  /** A second vote on the same answer changes nothing the queue depends on. */
  lemma RepeatedVoteSameQueue(responses: seq<Response>, sessions: map<Id, Id>, votes: seq<Vote>, surveyId: Id, sessionId: Id, v: Vote, w: Vote)
    requires v.sessionId == w.sessionId && v.targetResponseId == w.targetResponseId
    ensures GetVotingQueue(responses, sessions, votes + [v, w], surveyId, sessionId)
         == GetVotingQueue(responses, sessions, votes + [v], surveyId, sessionId)
  {
    var once := votes + [v];
    var twice := votes + [v, w];
    assert twice[..|twice| - 1] == once;
    forall x ensures x in Excluded(responses, twice, sessionId) <==> x in Excluded(responses, once, sessionId) {
    }
    CandidatesByMembership(responses, sessions, surveyId, Excluded(responses, twice, sessionId), Excluded(responses, once, sessionId));
  }

  /** The answer voted on never comes back into that voter's queue. */
  lemma VotedAnswerLeavesQueue(responses: seq<Response>, sessions: map<Id, Id>, votes: seq<Vote>, surveyId: Id, v: Vote)
    requires v.targetResponseId.Some?
    ensures forall e :: e in GetVotingQueue(responses, sessions, votes + [v], surveyId, v.sessionId) ==>
              e.id != v.targetResponseId.value
  {
    assert (votes + [v])[|votes|] == v;
  }

  class VoteService {
    /** The `vote` table, oldest row first. */
    var votes: seq<Vote>

    constructor ()
      ensures votes == []
    {
      votes := [];
    }

    /**
     * `submitVote`: appends one vote copying the input, with no check for an
     * earlier vote by the same session on the same answer.
     */
    method SubmitVote(data: SubmitVoteInput, id: Id, createdAt: int) returns (v: Vote)
      modifies this
      ensures v == Vote(id, Some(data.responseId), data.sessionId, data.voteType, data.reason, createdAt)
      ensures votes == old(votes) + [v]
    {
      v := Vote(id, Some(data.responseId), data.sessionId, data.voteType, data.reason, createdAt);
      votes := votes + [v];
    }
  }
}
