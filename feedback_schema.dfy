/** `submitFeedbackSchema` of the shared schema package. */
module FeedbackSchema {
  import opened Wrappers
  import opened Json
  import opened Text

  datatype AiConversationRating = VeryHelpful | SomewhatHelpful | NotHelpful | Distracting

  datatype SubmitFeedbackInput = SubmitFeedbackInput(
    sessionId: string, experienceRating: int,
    aiConversationRating: Option<AiConversationRating>, suggestions: Option<string>)

  function RatingOf(j: Json): Option<AiConversationRating>
  {
    if j == JStr("very_helpful") then Some(VeryHelpful)
    else if j == JStr("somewhat_helpful") then Some(SomewhatHelpful)
    else if j == JStr("not_helpful") then Some(NotHelpful)
    else if j == JStr("distracting") then Some(Distracting)
    else None
  }

  function RatingText(r: AiConversationRating): string
  {
    match r
    case VeryHelpful => "very_helpful"
    case SomewhatHelpful => "somewhat_helpful"
    case NotHelpful => "not_helpful"
    case Distracting => "distracting"
  }

  predicate SessionIdValid(f: map<string, Json>)
  {
    "sessionId" in f && f["sessionId"].JStr? && IsUuid(f["sessionId"].s)
  }

  predicate ExperienceRatingValid(f: map<string, Json>)
  {
    "experienceRating" in f && f["experienceRating"].JNum? && IsInteger(f["experienceRating"].n)
    && 1.0 <= f["experienceRating"].n <= 5.0
  }

  predicate AiRatingValid(f: map<string, Json>)
  {
    "aiConversationRating" !in f || RatingOf(f["aiConversationRating"]).Some?
  }

  predicate SuggestionsValid(f: map<string, Json>)
  {
    "suggestions" !in f || (f["suggestions"].JStr? && Utf16Length(f["suggestions"].s) <= 2000)
  }

  /** The object schema: all four field rules at once. */
  predicate FeedbackValid(j: Json)
  {
    j.JObj? && SessionIdValid(j.fields) && ExperienceRatingValid(j.fields)
    && AiRatingValid(j.fields) && SuggestionsValid(j.fields)
  }

  /** What every parsed feedback input satisfies. */
  predicate WellFormed(x: SubmitFeedbackInput)
  {
    IsUuid(x.sessionId) && 1 <= x.experienceRating <= 5
    && (x.suggestions.None? || Utf16Length(x.suggestions.value) <= 2000)
  }

  /** `submitFeedbackSchema.safeParse`. */
  function ParseFeedback(j: Json): (r: Option<SubmitFeedbackInput>)
    ensures r.Some? <==> FeedbackValid(j)
    ensures r.Some? ==> WellFormed(r.value)
    ensures r.Some? ==> (r.value.aiConversationRating.Some? <==> "aiConversationRating" in j.fields)
  {
    if !FeedbackValid(j) then None
    else
      var f := j.fields;
      Some(SubmitFeedbackInput(
        f["sessionId"].s, f["experienceRating"].n.Floor,
        if "aiConversationRating" in f then RatingOf(f["aiConversationRating"]) else None,
        if "suggestions" in f then Some(f["suggestions"].s) else None))
  }

  function EncodeFeedback(x: SubmitFeedbackInput): Json
  {
    var m := map["sessionId" := JStr(x.sessionId), "experienceRating" := JNum(x.experienceRating as real)];
    var m := if x.aiConversationRating.Some? then m["aiConversationRating" := JStr(RatingText(x.aiConversationRating.value))] else m;
    var m := if x.suggestions.Some? then m["suggestions" := JStr(x.suggestions.value)] else m;
    JObj(m)
  }

  /** A well-formed input parses back from its JSON form unchanged. */
  lemma ParseEncodeRoundTrip(x: SubmitFeedbackInput)
    requires WellFormed(x)
    ensures ParseFeedback(EncodeFeedback(x)) == Some(x)
  {
    var f := EncodeFeedback(x).fields;
    assert f["sessionId"] == JStr(x.sessionId);
    assert f["experienceRating"] == JNum(x.experienceRating as real);
    if x.aiConversationRating.Some? {
      var r := x.aiConversationRating.value;
      assert f["aiConversationRating"] == JStr(RatingText(r));
      assert RatingOf(JStr(RatingText(r))) == Some(r);
    }
    assert FeedbackValid(EncodeFeedback(x));
  }

  /** The experience rating is accepted exactly on the integers 1 to 5, so 0 and 6 are rejected. */
  lemma ExperienceRatingRange(sessionId: string, rating: int)
    requires IsUuid(sessionId)
    ensures FeedbackValid(JObj(map["sessionId" := JStr(sessionId), "experienceRating" := JNum(rating as real)]))
            <==> 1 <= rating <= 5
  {
    var f := map["sessionId" := JStr(sessionId), "experienceRating" := JNum(rating as real)];
    assert f["experienceRating"] == JNum(rating as real);
    assert "aiConversationRating" !in f && "suggestions" !in f;
  }

  /** `.int()` rejects every rating with a fractional part, whatever its size. */
  lemma FractionalRatingRejected(f: map<string, Json>, rating: real)
    requires "experienceRating" in f && f["experienceRating"] == JNum(rating)
    requires !IsInteger(rating)
    ensures !FeedbackValid(JObj(f))
  {
  }
}
