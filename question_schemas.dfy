/**
 * The question and survey input schemas of the shared schema package, as
 * predicates over the JSON a request carries, and the typed values that a
 * successful parse produces (with `required` defaulted to true and every
 * key the schema does not name dropped, as zod's object parsing does).
 */
module QuestionSchemas {
  import opened Wrappers
  import opened Json
  import opened Text

  /** The parsed `Question` type: the two variants of the discriminated union on `type`. */
  datatype Question =
    | Likert(id: Option<string>, title: string, description: Option<string>, orderIndex: int,
             scale: seq<int>, labels: seq<string>, required: bool)
    | FreeText(id: Option<string>, title: string, description: Option<string>, orderIndex: int,
               hasOptions: bool, required: bool, minLength: Option<int>, maxLength: Option<int>)

  datatype Visibility = Public | Private | Unlisted

  datatype Settings = Settings(visibility: Option<Visibility>, enableAI: Option<bool>)

  datatype CreateSurveyInput = CreateSurveyInput(title: string, description: Option<string>)

  datatype UpdateSurveyInput = UpdateSurveyInput(
    title: Option<string>, description: Option<string>,
    questions: Option<seq<Question>>, settings: Option<Settings>)

  // ---------------------------------------------------------------- field rules

  /** zod's `.min(lo).max(hi)` on a string, which measure its JavaScript length. */
  predicate StrLen(j: Json, lo: nat, hi: nat) { j.JStr? && lo <= Utf16Length(j.s) <= hi }

  predicate IntNum(j: Json) { j.JNum? && IsInteger(j.n) }

  predicate OptStrLen(f: map<string, Json>, key: string, lo: nat, hi: nat)
  {
    key !in f || StrLen(f[key], lo, hi)
  }

  predicate OptUuid(f: map<string, Json>, key: string)
  {
    key !in f || (f[key].JStr? && IsUuid(f[key].s))
  }

  predicate OptBool(f: map<string, Json>, key: string) { key !in f || f[key].JBool? }

  predicate OptIntAtLeast(f: map<string, Json>, key: string, lo: int)
  {
    key !in f || (IntNum(f[key]) && f[key].n >= lo as real)
  }

  /** `baseQuestionSchema`: optional UUID id, title of 1..500, optional description of at most 1000, integer orderIndex. */
  predicate BaseQuestionValid(f: map<string, Json>)
  {
    && OptUuid(f, "id")
    && "title" in f && StrLen(f["title"], 1, 500)
    && OptStrLen(f, "description", 0, 1000)
    && "orderIndex" in f && IntNum(f["orderIndex"])
  }

  predicate ScaleValid(j: Json)
  {
    j.JArr? && 2 <= |j.items| <= 10 && forall i :: 0 <= i < |j.items| ==> IntNum(j.items[i])
  }

  predicate LabelsValid(j: Json)
  {
    j.JArr? && |j.items| >= 2 && forall i :: 0 <= i < |j.items| ==> j.items[i].JStr?
  }

  predicate LikertOptionsValid(j: Json)
  {
    j.JObj? && "scale" in j.fields && ScaleValid(j.fields["scale"])
    && "labels" in j.fields && LabelsValid(j.fields["labels"])
  }

  /** `likertQuestionSchema`. */
  predicate LikertQuestionValid(f: map<string, Json>)
  {
    && BaseQuestionValid(f)
    && "type" in f && f["type"] == JStr("likert")
    && "options" in f && LikertOptionsValid(f["options"])
    && "validation" in f && f["validation"].JObj? && OptBool(f["validation"].fields, "required")
  }

  predicate FreeTextValidationValid(j: Json)
  {
    j.JObj? && OptBool(j.fields, "required")
    && OptIntAtLeast(j.fields, "minLength", 0) && OptIntAtLeast(j.fields, "maxLength", 1)
  }

  /** `freeTextQuestionSchema`. */
  predicate FreeTextQuestionValid(f: map<string, Json>)
  {
    && BaseQuestionValid(f)
    && "type" in f && f["type"] == JStr("free_text")
    && ("options" !in f || f["options"].JObj?)
    && "validation" in f && FreeTextValidationValid(f["validation"])
  }

  /** `questionSchema`: an object whose `type` selects the variant whose rules it must meet. */
  predicate QuestionValid(j: Json)
  {
    j.JObj? && "type" in j.fields &&
    (if j.fields["type"] == JStr("likert") then LikertQuestionValid(j.fields)
     else if j.fields["type"] == JStr("free_text") then FreeTextQuestionValid(j.fields)
     else false)
  }

  /** The typed counterpart of the rules: what every parsed question satisfies. */
  predicate WellFormed(q: Question)
  {
    && (q.id.None? || IsUuid(q.id.value))
    && 1 <= Utf16Length(q.title) <= 500
    && (q.description.None? || Utf16Length(q.description.value) <= 1000)
    && match q
       case Likert(_, _, _, _, scale, labels, _) => 2 <= |scale| <= 10 && |labels| >= 2
       case FreeText(_, _, _, _, _, _, minLength, maxLength) =>
         (minLength.None? || minLength.value >= 0) && (maxLength.None? || maxLength.value >= 1)
  }

  // ---------------------------------------------------------------- parsing

  function OptString(f: map<string, Json>, key: string): (r: Option<string>)
    requires key !in f || f[key].JStr?
    ensures r.Some? <==> key in f
    ensures r.Some? ==> JStr(r.value) == f[key]
  {
    if key in f then Some(f[key].s) else None
  }

  function OptInt(f: map<string, Json>, key: string): (r: Option<int>)
    requires key !in f || IntNum(f[key])
    ensures r.Some? <==> key in f
    ensures r.Some? ==> JNum(r.value as real) == f[key]
  {
    if key in f then Some(f[key].n.Floor) else None
  }

  /** zod's `z.boolean().default(true)`: an absent flag reads as true. */
  function RequiredFlag(f: map<string, Json>): (r: bool)
    requires OptBool(f, "required")
    ensures "required" !in f ==> r
    ensures "required" in f ==> f["required"] == JBool(r)
  {
    if "required" in f then f["required"].b else true
  }

  /** `questionSchema.safeParse`: the parsed question when the input is valid, `None` otherwise. */
  function ParseQuestion(j: Json): (r: Option<Question>)
    ensures r.Some? <==> QuestionValid(j)
    ensures r.Some? ==> WellFormed(r.value)
    ensures r.Some? ==> (r.value.Likert? <==> j.fields["type"] == JStr("likert"))
    ensures r.Some? ==> r.value.title == j.fields["title"].s && r.value.orderIndex as real == j.fields["orderIndex"].n
  {
    if !QuestionValid(j) then None
    else
      var f := j.fields;
      var id := OptString(f, "id");
      var description := OptString(f, "description");
      var orderIndex := f["orderIndex"].n.Floor;
      if f["type"] == JStr("likert") then
        var scale := f["options"].fields["scale"].items;
        var labels := f["options"].fields["labels"].items;
        Some(Likert(id, f["title"].s, description, orderIndex,
                    seq(|scale|, i requires 0 <= i < |scale| => scale[i].n.Floor),
                    seq(|labels|, i requires 0 <= i < |labels| => labels[i].s),
                    RequiredFlag(f["validation"].fields)))
      else
        var v := f["validation"].fields;
        Some(FreeText(id, f["title"].s, description, orderIndex, "options" in f,
                      RequiredFlag(v), OptInt(v, "minLength"), OptInt(v, "maxLength")))
  }

  // ---------------------------------------------------------------- encoding

  function WithOpt(m: map<string, Json>, key: string, v: Option<Json>): (r: map<string, Json>)
    ensures v.None? ==> r == m
    ensures v.Some? ==> r == m[key := v.value]
  {
    if v.Some? then m[key := v.value] else m
  }

  function OptStr(v: Option<string>): Option<Json>
  {
    if v.Some? then Some(JStr(v.value)) else None
  }

  function OptNum(v: Option<int>): Option<Json>
  {
    if v.Some? then Some(JNum(v.value as real)) else None
  }

  /** The keys common to both variants. */
  function BaseFields(q: Question): (m: map<string, Json>)
    ensures "title" in m && m["title"] == JStr(q.title)
    ensures "orderIndex" in m && m["orderIndex"] == JNum(q.orderIndex as real)
    ensures ("id" in m <==> q.id.Some?) && (q.id.Some? ==> m["id"] == JStr(q.id.value))
    ensures ("description" in m <==> q.description.Some?)
    ensures q.description.Some? ==> m["description"] == JStr(q.description.value)
    ensures "type" !in m && "options" !in m && "validation" !in m
  {
    var m := map["title" := JStr(q.title), "orderIndex" := JNum(q.orderIndex as real)];
    WithOpt(WithOpt(m, "id", OptStr(q.id)), "description", OptStr(q.description))
  }

  function EncodeScale(scale: seq<int>): (j: Json)
    ensures j.JArr? && |j.items| == |scale|
    ensures forall i :: 0 <= i < |scale| ==> j.items[i] == JNum(scale[i] as real)
  {
    JArr(seq(|scale|, i requires 0 <= i < |scale| => JNum(scale[i] as real)))
  }

  function EncodeLabels(labels: seq<string>): (j: Json)
    ensures j.JArr? && |j.items| == |labels|
    ensures forall i :: 0 <= i < |labels| ==> j.items[i] == JStr(labels[i])
  {
    JArr(seq(|labels|, i requires 0 <= i < |labels| => JStr(labels[i])))
  }

  function FreeTextValidation(required: bool, minLength: Option<int>, maxLength: Option<int>): (j: Json)
    ensures j.JObj? && "required" in j.fields && j.fields["required"] == JBool(required)
    ensures ("minLength" in j.fields <==> minLength.Some?) && (minLength.Some? ==> j.fields["minLength"] == JNum(minLength.value as real))
    ensures ("maxLength" in j.fields <==> maxLength.Some?) && (maxLength.Some? ==> j.fields["maxLength"] == JNum(maxLength.value as real))
  {
    JObj(WithOpt(WithOpt(map["required" := JBool(required)], "minLength", OptNum(minLength)),
                 "maxLength", OptNum(maxLength)))
  }

  /** `JSON.stringify` of a parsed question, as a JSON value. */
  function EncodeQuestion(q: Question): Json
  {
    match q
    case Likert(_, _, _, _, scale, labels, required) =>
      JObj(BaseFields(q)["type" := JStr("likert")]
               ["options" := JObj(map["scale" := EncodeScale(scale), "labels" := EncodeLabels(labels)])]
               ["validation" := JObj(map["required" := JBool(required)])])
    case FreeText(_, _, _, _, hasOptions, required, minLength, maxLength) =>
      JObj(WithOpt(BaseFields(q)["type" := JStr("free_text")], "options", if hasOptions then Some(JObj(map[])) else None)
               ["validation" := FreeTextValidation(required, minLength, maxLength)])
  }

  lemma BaseRoundTrip(q: Question, f: map<string, Json>)
    requires WellFormed(q)
    requires forall k :: k in BaseFields(q) ==> k in f && f[k] == BaseFields(q)[k]
    requires "id" in f ==> "id" in BaseFields(q)
    requires "description" in f ==> "description" in BaseFields(q)
    ensures BaseQuestionValid(f)
    ensures OptString(f, "id") == q.id && OptString(f, "description") == q.description
    ensures f["title"].s == q.title && f["orderIndex"].n.Floor == q.orderIndex
  {
    var b := BaseFields(q);
    assert "title" in b && "orderIndex" in b;
  }

  lemma LikertRoundTrip(q: Question)
    requires WellFormed(q) && q.Likert?
    ensures ParseQuestion(EncodeQuestion(q)) == Some(q)
  {
    var j := EncodeQuestion(q);
    var f := j.fields;
    BaseRoundTrip(q, f);
    assert f["type"] == JStr("likert");
    var o := f["options"];
    assert o.fields["scale"] == EncodeScale(q.scale) && o.fields["labels"] == EncodeLabels(q.labels);
    assert LikertOptionsValid(o);
    assert f["validation"] == JObj(map["required" := JBool(q.required)]);
    assert LikertQuestionValid(f);
    var s := o.fields["scale"].items;
    var l := o.fields["labels"].items;
    assert seq(|s|, i requires 0 <= i < |s| => s[i].n.Floor) == q.scale;
    assert seq(|l|, i requires 0 <= i < |l| => l[i].s) == q.labels;
    assert RequiredFlag(f["validation"].fields) == q.required;
    LikertParsed(j);
  }

  /** What parsing makes of a valid Likert object, field by field. */
  lemma LikertParsed(j: Json)
    requires j.JObj? && LikertQuestionValid(j.fields)
    ensures var f := j.fields; var s := f["options"].fields["scale"].items; var l := f["options"].fields["labels"].items;
      ParseQuestion(j) == Some(Likert(OptString(f, "id"), f["title"].s, OptString(f, "description"), f["orderIndex"].n.Floor,
                                      seq(|s|, i requires 0 <= i < |s| => s[i].n.Floor),
                                      seq(|l|, i requires 0 <= i < |l| => l[i].s),
                                      RequiredFlag(f["validation"].fields)))
  {
    assert QuestionValid(j);
  }

  lemma FreeTextRoundTrip(q: Question)
    requires WellFormed(q) && q.FreeText?
    ensures ParseQuestion(EncodeQuestion(q)) == Some(q)
  {
    var j := EncodeQuestion(q);
    FreeTextEncoded(q);
    BaseRoundTrip(q, j.fields);
    ValidationRoundTrip(q.required, q.minLength, q.maxLength);
    assert FreeTextQuestionValid(j.fields);
    FreeTextParsed(j);
  }

  /** The keys of an encoded free-text question. */
  lemma FreeTextEncoded(q: Question)
    requires q.FreeText?
    ensures var j := EncodeQuestion(q); var b := BaseFields(q);
      && j.JObj?
      && (forall k :: k in b ==> k in j.fields && j.fields[k] == b[k])
      && ("id" in j.fields ==> "id" in b) && ("description" in j.fields ==> "description" in b)
      && "type" in j.fields && j.fields["type"] == JStr("free_text")
      && "validation" in j.fields && j.fields["validation"] == FreeTextValidation(q.required, q.minLength, q.maxLength)
      && ("options" in j.fields <==> q.hasOptions)
      && (q.hasOptions ==> j.fields["options"] == JObj(map[]))
  {
  }

  /** What parsing makes of a valid free-text object, field by field. */
  lemma FreeTextParsed(j: Json)
    requires j.JObj? && FreeTextQuestionValid(j.fields)
    ensures var f := j.fields; var v := f["validation"].fields;
      ParseQuestion(j) == Some(FreeText(OptString(f, "id"), f["title"].s, OptString(f, "description"), f["orderIndex"].n.Floor,
                                        "options" in f, RequiredFlag(v), OptInt(v, "minLength"), OptInt(v, "maxLength")))
  {
    assert QuestionValid(j);
  }

  /** The free-text validation object reads back as the flag and bounds it was built from. */
  lemma ValidationRoundTrip(required: bool, minLength: Option<int>, maxLength: Option<int>)
    requires minLength.None? || minLength.value >= 0
    requires maxLength.None? || maxLength.value >= 1
    ensures FreeTextValidationValid(FreeTextValidation(required, minLength, maxLength))
    ensures RequiredFlag(FreeTextValidation(required, minLength, maxLength).fields) == required
    ensures OptInt(FreeTextValidation(required, minLength, maxLength).fields, "minLength") == minLength
    ensures OptInt(FreeTextValidation(required, minLength, maxLength).fields, "maxLength") == maxLength
  {
    var v := FreeTextValidation(required, minLength, maxLength).fields;
    assert OptBool(v, "required");
  }

  /** Every well-formed question survives a trip through its JSON form unchanged. */
  lemma ParseEncodeRoundTrip(q: Question)
    requires WellFormed(q)
    ensures ParseQuestion(EncodeQuestion(q)) == Some(q)
  {
    if q.Likert? { LikertRoundTrip(q); } else { FreeTextRoundTrip(q); }
  }

  /** Parsing is a normalisation: re-parsing the encoding of a parsed question gives it back. */
  lemma ParseIdempotent(j: Json)
    requires QuestionValid(j)
    ensures ParseQuestion(EncodeQuestion(ParseQuestion(j).value)) == ParseQuestion(j)
  {
    ParseEncodeRoundTrip(ParseQuestion(j).value);
  }

  // ---------------------------------------------------------------- surveys

  /** `createSurveySchema`: a title of 1..500 and an optional description of at most 5000. */
  predicate CreateSurveyValid(j: Json)
  {
    j.JObj? && "title" in j.fields && StrLen(j.fields["title"], 1, 500)
    && OptStrLen(j.fields, "description", 0, 5000)
  }

  /** What every parsed create-survey input satisfies. */
  predicate CreateWellFormed(x: CreateSurveyInput)
  {
    1 <= Utf16Length(x.title) <= 500 && (x.description.None? || Utf16Length(x.description.value) <= 5000)
  }

  /** `createSurveySchema.safeParse`: the title and description given, when they meet the bounds. */
  function ParseCreateSurvey(j: Json): (r: Option<CreateSurveyInput>)
    ensures r.Some? <==> CreateSurveyValid(j)
    ensures r.Some? ==> CreateWellFormed(r.value)
    ensures r.Some? ==> j.fields["title"] == JStr(r.value.title)
    ensures r.Some? ==> (r.value.description.Some? <==> "description" in j.fields)
    ensures r.Some? && r.value.description.Some? ==> j.fields["description"] == JStr(r.value.description.value)
  {
    if CreateSurveyValid(j) then Some(CreateSurveyInput(j.fields["title"].s, OptString(j.fields, "description")))
    else None
  }

  function EncodeCreateSurvey(x: CreateSurveyInput): Json
  {
    JObj(WithOpt(map["title" := JStr(x.title)], "description", OptStr(x.description)))
  }

  /** A well-formed create-survey input parses back from its JSON form unchanged. */
  lemma CreateSurveyRoundTrip(x: CreateSurveyInput)
    requires CreateWellFormed(x)
    ensures ParseCreateSurvey(EncodeCreateSurvey(x)) == Some(x)
  {
    var f := EncodeCreateSurvey(x).fields;
    assert f["title"] == JStr(x.title);
    assert CreateSurveyValid(EncodeCreateSurvey(x));
  }

  function VisibilityOf(j: Json): Option<Visibility>
  {
    if j == JStr("public") then Some(Public)
    else if j == JStr("private") then Some(Private)
    else if j == JStr("unlisted") then Some(Unlisted)
    else None
  }

  function VisibilityText(v: Visibility): string
  {
    match v
    case Public => "public"
    case Private => "private"
    case Unlisted => "unlisted"
  }

  predicate SettingsValid(j: Json)
  {
    j.JObj? && ("visibility" !in j.fields || VisibilityOf(j.fields["visibility"]).Some?)
    && OptBool(j.fields, "enableAI")
  }

  predicate QuestionsValid(j: Json)
  {
    j.JArr? && forall i :: 0 <= i < |j.items| ==> QuestionValid(j.items[i])
  }

  /** `updateSurveySchema`: every field optional; questions all valid; settings with a known visibility. */
  predicate UpdateSurveyValid(j: Json)
  {
    && j.JObj?
    && OptStrLen(j.fields, "title", 1, 500)
    && OptStrLen(j.fields, "description", 0, 5000)
    && ("questions" !in j.fields || QuestionsValid(j.fields["questions"]))
    && ("settings" !in j.fields || SettingsValid(j.fields["settings"]))
  }

  function ParseQuestions(items: seq<Json>): (r: seq<Question>)
    requires forall i :: 0 <= i < |items| ==> QuestionValid(items[i])
    ensures |r| == |items|
    ensures forall i :: 0 <= i < |items| ==> Some(r[i]) == ParseQuestion(items[i])
  {
    if items == [] then []
    else
      var rest := ParseQuestions(items[1..]);
      assert forall i :: 1 <= i < |items| ==> items[1..][i - 1] == items[i];
      [ParseQuestion(items[0]).value] + rest
  }

  /** `updateSurveySchema.safeParse`: each field present in the input, read as the schema types it. */
  function ParseUpdateSurvey(j: Json): (r: Option<UpdateSurveyInput>)
    ensures r.Some? <==> UpdateSurveyValid(j)
    ensures r.Some? ==> UpdateWellFormed(r.value)
    ensures r.Some? ==> (r.value.title.Some? <==> "title" in j.fields)
    ensures r.Some? && r.value.title.Some? ==> j.fields["title"] == JStr(r.value.title.value)
    ensures r.Some? ==> (r.value.description.Some? <==> "description" in j.fields)
    ensures r.Some? && r.value.description.Some? ==> j.fields["description"] == JStr(r.value.description.value)
    ensures r.Some? ==> (r.value.questions.Some? <==> "questions" in j.fields)
    ensures r.Some? && r.value.questions.Some? ==>
              var items := j.fields["questions"].items;
              |r.value.questions.value| == |items|
              && forall i :: 0 <= i < |items| ==> ParseQuestion(items[i]) == Some(r.value.questions.value[i])
    ensures r.Some? ==> (r.value.settings.Some? <==> "settings" in j.fields)
    ensures r.Some? && r.value.settings.Some? ==>
              var s := j.fields["settings"].fields; var st := r.value.settings.value;
              && (st.visibility.Some? <==> "visibility" in s)
              && (st.visibility.Some? ==> s["visibility"] == JStr(VisibilityText(st.visibility.value)))
              && (st.enableAI.Some? <==> "enableAI" in s)
              && (st.enableAI.Some? ==> s["enableAI"] == JBool(st.enableAI.value))
  {
    if !UpdateSurveyValid(j) then None
    else
      var f := j.fields;
      var questions := if "questions" in f then Some(ParseQuestions(f["questions"].items)) else None;
      var settings :=
        if "settings" in f then
          var s := f["settings"].fields;
          Some(Settings(if "visibility" in s then VisibilityOf(s["visibility"]) else None,
                        if "enableAI" in s then Some(s["enableAI"].b) else None))
        else None;
      Some(UpdateSurveyInput(OptString(f, "title"), OptString(f, "description"), questions, settings))
  }

  /** What every parsed update-survey input satisfies. */
  predicate UpdateWellFormed(x: UpdateSurveyInput)
  {
    && (x.title.None? || 1 <= Utf16Length(x.title.value) <= 500)
    && (x.description.None? || Utf16Length(x.description.value) <= 5000)
    && (x.questions.None? || forall i :: 0 <= i < |x.questions.value| ==> WellFormed(x.questions.value[i]))
  }

  function EncodeQuestions(qs: seq<Question>): (j: Json)
    ensures j.JArr? && |j.items| == |qs|
    ensures forall i :: 0 <= i < |qs| ==> j.items[i] == EncodeQuestion(qs[i])
  {
    JArr(seq(|qs|, i requires 0 <= i < |qs| => EncodeQuestion(qs[i])))
  }

  function EncodeSettings(st: Settings): Json
  {
    JObj(WithOpt(WithOpt(map[], "visibility", if st.visibility.Some? then Some(JStr(VisibilityText(st.visibility.value))) else None),
                 "enableAI", if st.enableAI.Some? then Some(JBool(st.enableAI.value)) else None))
  }

  function EncodeUpdateSurvey(x: UpdateSurveyInput): Json
  {
    JObj(WithOpt(WithOpt(WithOpt(WithOpt(map[], "title", OptStr(x.title)), "description", OptStr(x.description)),
                         "questions", if x.questions.Some? then Some(EncodeQuestions(x.questions.value)) else None),
                 "settings", if x.settings.Some? then Some(EncodeSettings(x.settings.value)) else None))
  }

  /** Well-formed questions parse back from their encoded array. */
  lemma QuestionsRoundTrip(qs: seq<Question>)
    requires forall i :: 0 <= i < |qs| ==> WellFormed(qs[i])
    ensures QuestionsValid(EncodeQuestions(qs))
    ensures ParseQuestions(EncodeQuestions(qs).items) == qs
  {
    var items := EncodeQuestions(qs).items;
    forall i | 0 <= i < |qs| ensures ParseQuestion(items[i]) == Some(qs[i]) {
      ParseEncodeRoundTrip(qs[i]);
    }
  }

  /** Settings parse back from their JSON form. */
  lemma SettingsRoundTrip(st: Settings)
    ensures SettingsValid(EncodeSettings(st))
    ensures var s := EncodeSettings(st).fields;
      Settings(if "visibility" in s then VisibilityOf(s["visibility"]) else None,
               if "enableAI" in s then Some(s["enableAI"].b) else None) == st
  {
    if st.visibility.Some? {
      var v := st.visibility.value;
      assert VisibilityOf(JStr(VisibilityText(v))) == Some(v);
    }
  }

  /** A well-formed update-survey input parses back from its JSON form unchanged. */
  lemma UpdateSurveyRoundTrip(x: UpdateSurveyInput)
    requires UpdateWellFormed(x)
    ensures ParseUpdateSurvey(EncodeUpdateSurvey(x)) == Some(x)
  {
    var j := EncodeUpdateSurvey(x);
    var f := j.fields;
    if x.questions.Some? {
      QuestionsRoundTrip(x.questions.value);
      assert f["questions"] == EncodeQuestions(x.questions.value);
    }
    if x.settings.Some? {
      SettingsRoundTrip(x.settings.value);
      assert f["settings"] == EncodeSettings(x.settings.value);
    }
    if x.title.Some? {
      assert f["title"] == JStr(x.title.value);
    }
    if x.description.Some? {
      assert f["description"] == JStr(x.description.value);
    }
    assert UpdateSurveyValid(j);
    assert OptString(f, "title") == x.title;
    assert OptString(f, "description") == x.description;
  }
}
