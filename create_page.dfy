/**
 * The survey authoring page: appending a question from the editor, and the
 * two requests that saving makes — create the survey, then send its
 * questions without their client-side ids.
 */
module CreatePage {
  import opened Wrappers
  import opened Text
  import opened QuestionSchemas
  import opened QuestionList
  import opened Surveys

  const TempIdPrefix: string := "temp-id-"

  /** The list is numbered 1..n in order. */
  predicate Numbered(qs: seq<Question>)
  {
    forall k :: 0 <= k < |qs| ==> qs[k].orderIndex == k + 1
  }

  /**
   * `handleAddQuestion`: the editor's question gets a temporary id built from
   * the clock reading `now` and the next `orderIndex`, and goes at the end.
   * Whatever id and position the draft carried are replaced.
   */
  function AddQuestion(qs: seq<Question>, draft: Question, now: nat): (r: seq<Question>)
    ensures |r| == |qs| + 1 && r[..|qs|] == qs
    ensures r[|qs|].id == Some(TempIdPrefix + Decimal(now))
    ensures r[|qs|].orderIndex == |qs| + 1
    ensures r[|qs|].(id := draft.id, orderIndex := draft.orderIndex) == draft
  {
    qs + [draft.(id := Some(TempIdPrefix + Decimal(now)), orderIndex := |qs| + 1)]
  }

  /** Appending keeps a list numbered 1..n numbered 1..n+1. */
  lemma AddKeepsNumbering(qs: seq<Question>, draft: Question, now: nat)
    requires Numbered(qs)
    ensures Numbered(AddQuestion(qs, draft, now))
  {
    var r := AddQuestion(qs, draft, now);
    forall k | 0 <= k < |r| ensures r[k].orderIndex == k + 1 {
      if k < |qs| {
        assert r[k] == r[..|qs|][k];
      }
    }
  }

  /** Reordering by drag also leaves the list numbered. */
  lemma DragEndNumbers(qs: seq<Question>, activeId: string, overId: Option<string>)
    requires FindIndex(qs, activeId).Some?
    requires overId.Some? ==> FindIndex(qs, overId.value).Some?
    requires Numbered(qs)
    ensures Numbered(DragEnd(qs, activeId, overId))
  {
  }

  /** `questions.map(({ id, ...q }) => q)`: the questions with no id, otherwise unchanged and in order. */
  function StripIds(qs: seq<Question>): (r: seq<Question>)
    ensures |r| == |qs|
    ensures forall k :: 0 <= k < |qs| ==> r[k].id.None? && r[k].(id := qs[k].id) == qs[k]
  {
    seq(|qs|, k requires 0 <= k < |qs| => qs[k].(id := None))
  }

  /** The requests the save handler makes, in order. */
  datatype Request =
    | PostSurvey(title: string, description: string)
    | PatchQuestions(surveyId: string, questions: seq<Question>)

  const SavedMessage: string := "Survey saved successfully!"
  const FailedMessage: string := "An error occurred while saving the survey."

  /** What saving did: the requests sent and the alert shown. */
  datatype SaveResult = SaveResult(requests: seq<Request>, alert: string)

  /**
   * `handleSaveSurvey` for given outcomes of the two requests: `created` is
   * the id of the created survey, or `None` when the create request failed
   * or answered with an error status; `patched` is whether the questions
   * request succeeded.
   */
  function Save(title: string, description: string, qs: seq<Question>, created: Option<string>, patched: bool): (r: SaveResult)
    ensures |r.requests| >= 1 && r.requests[0] == PostSurvey(title, description)
    ensures |r.requests| == 2 <==> created.Some? && |qs| > 0
    ensures |r.requests| == 2 ==> r.requests[1] == PatchQuestions(created.value, StripIds(qs))
    ensures |r.requests| <= 2
    ensures r.alert == SavedMessage <==> created.Some? && (|qs| == 0 || patched)
    ensures r.alert == SavedMessage || r.alert == FailedMessage
  {
    var post := PostSurvey(title, description);
    match created
    case None => SaveResult([post], FailedMessage)
    case Some(id) =>
      if |qs| == 0 then SaveResult([post], SavedMessage)
      else SaveResult([post, PatchQuestions(id, StripIds(qs))], if patched then SavedMessage else FailedMessage)
  }

  /**
   * The questions the page sends carry no id, so the server turns every one
   * of them into a create and none into an update, in the page's order.
   */
  lemma SavedQuestionsAreCreated(surveyId: string, qs: seq<Question>)
    ensures UpdateOps(surveyId, StripIds(qs)) == []
    ensures |CreateOps(surveyId, StripIds(qs))| == |qs|
    ensures forall k :: 0 <= k < |qs| ==> CreateOps(surveyId, StripIds(qs))[k] == CreateQuestion(surveyId, qs[k].(id := None))
  {
    var s := StripIds(qs);
    assert forall q | q in s :: IsNew(q);
    AllNewSplit(surveyId, s);
  }

  lemma {:induction false} AllNewSplit(surveyId: string, qs: seq<Question>)
    requires forall q | q in qs :: IsNew(q)
    ensures UpdateOps(surveyId, qs) == []
    ensures |CreateOps(surveyId, qs)| == |qs|
    ensures forall k :: 0 <= k < |qs| ==> CreateOps(surveyId, qs)[k] == CreateQuestion(surveyId, qs[k])
    decreases |qs|
  {
    if qs != [] {
      assert forall q | q in qs[1..] :: q in qs;
      AllNewSplit(surveyId, qs[1..]);
    }
  }
}
