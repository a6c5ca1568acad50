/**
 * The survey service: the slug that `createSurvey` derives from a title,
 * the survey and question tables, publication, reading a survey with its
 * questions in order, and the list of operations `updateSurvey` hands to
 * one database transaction.
 */
module Surveys {
  import opened Wrappers
  import opened Text
  import opened QuestionSchemas
  import opened Sorting

  type Id = string

  // ---------------------------------------------------------------------
  // Slugs
  // ---------------------------------------------------------------------

  /** The alphabet of the random slug suffix. */
  const SuffixAlphabet: string := "1234567890abcdefghijklmnopqrstuvwxyz"
  const SuffixLength: nat := 6

  /** What `nanoid(6)` over `SuffixAlphabet` can return. */
  predicate IsSuffix(s: string)
  {
    |s| == SuffixLength && forall c | c in s :: c in SuffixAlphabet
  }

  predicate NoWhitespace(s: string)
  {
    forall i :: 0 <= i < |s| ==> !IsWhitespace(s[i])
  }

  /** `s.replace(/\s+/g, '-')`: every maximal run of whitespace becomes one hyphen. */
  function CollapseWhitespace(s: string): (r: string)
    ensures NoWhitespace(r)
    decreases |s|
  {
    if s == [] then []
    else if IsWhitespace(s[0]) then
      var rest := TrimStart(s);
      "-" + CollapseWhitespace(rest)
    else [s[0]] + CollapseWhitespace(s[1..])
  }

  lemma {:induction false} TrimStartAppend(a: string, b: string)
    ensures TrimStart(a) != [] ==> TrimStart(a + b) == TrimStart(a) + b
    ensures TrimStart(a) == [] && (b == [] || !IsWhitespace(b[0])) ==> TrimStart(a + b) == b
    decreases |a|
  {
    if a == [] {
      assert a + b == b;
      if b != [] && IsWhitespace(b[0]) {
        assert TrimStart(a) == [];
      }
    } else {
      assert (a + b)[0] == a[0] && (a + b)[1..] == a[1..] + b;
      TrimStartAppend(a[1..], b);
    }
  }

  /** Text without whitespace passes through unchanged. */
  lemma {:induction false} CollapseNoWhitespace(s: string)
    requires NoWhitespace(s)
    ensures CollapseWhitespace(s) == s
    decreases |s|
  {
    if s != [] {
      CollapseNoWhitespace(s[1..]);
      assert [s[0]] + s[1..] == s;
    }
  }

  /** A whitespace-only run, however long, becomes a single hyphen. */
  lemma CollapseRunAlone(w: string)
    requires w != [] && AllWhitespace(w)
    ensures CollapseWhitespace(w) == "-"
  {
    var t := TrimStart(w);
    assert t == [];
  }

  /**
   * Collapsing distributes over a concatenation that does not split a run
   * of whitespace in two.
   */
  lemma {:induction false} CollapseAppend(a: string, b: string)
    requires a == [] || b == [] || !IsWhitespace(a[|a| - 1]) || !IsWhitespace(b[0])
    ensures CollapseWhitespace(a + b) == CollapseWhitespace(a) + CollapseWhitespace(b)
    decreases |a|
  {
    if a == [] {
      assert a + b == b;
    } else if b == [] {
      assert a + b == a;
    } else if !IsWhitespace(a[0]) {
      assert (a + b)[0] == a[0] && (a + b)[1..] == a[1..] + b;
      CollapseAppend(a[1..], b);
    } else {
      assert (a + b)[0] == a[0];
      var t := TrimStart(a);
      TrimStartAppend(a, b);
      if t != [] {
        assert t[|t| - 1] == a[|a| - 1];
        CollapseAppend(t, b);
      } else {
        assert IsWhitespace(a[|a| - 1]);
        assert CollapseWhitespace(a) == "-" + CollapseWhitespace([]);
      }
    }
  }

  /** A leading whitespace run becomes one hyphen. */
  lemma {:induction false} CollapseLeadingRun(w: string, b: string)
    requires w != [] && AllWhitespace(w)
    requires b == [] || !IsWhitespace(b[0])
    ensures CollapseWhitespace(w + b) == "-" + CollapseWhitespace(b)
  {
    CollapseAppend(w, b);
    CollapseRunAlone(w);
  }

  /** A maximal whitespace run between two pieces of text becomes exactly one hyphen. */
  lemma {:induction false} CollapseRun(a: string, w: string, b: string)
    requires a == [] || !IsWhitespace(a[|a| - 1])
    requires w != [] && AllWhitespace(w)
    requires b == [] || !IsWhitespace(b[0])
    ensures CollapseWhitespace(a + w + b) == CollapseWhitespace(a) + "-" + CollapseWhitespace(b)
  {
    var x := w + b;
    AppendAssoc(a, w, b);
    CollapseLeadingRun(w, b);
    CollapseAppend(a, x);
    AppendAssoc(CollapseWhitespace(a), "-", CollapseWhitespace(b));
  }

  lemma AppendAssoc(x: string, y: string, z: string)
    ensures x + (y + z) == x + y + z
  {
  }

  /**
   * The slug of `createSurvey`: the lower-cased title with its whitespace
   * runs collapsed, a hyphen, and the random suffix.
   */
  function Slug(title: string, suffix: string): (slug: string)
    requires IsSuffix(suffix)
    ensures |slug| > SuffixLength && slug[|slug| - SuffixLength - 1..] == "-" + suffix
    ensures NoWhitespace(slug)
    ensures forall i :: 0 <= i < |slug| ==> !IsUpper(slug[i])
  {
    var head := CollapseWhitespace(Lower(title));
    LowerKeepsNoUpper(Lower(title));
    var tail := "-" + suffix;
    TailIsClean(suffix);
    AppendAssoc(head, "-", suffix);
    CleanAppend(head, tail);
    head + "-" + suffix
  }

  /** Suffix characters are digits and lower-case letters. */
  lemma TailIsClean(suffix: string)
    requires IsSuffix(suffix)
    ensures forall i :: 0 <= i < |"-" + suffix| ==> !IsWhitespace(("-" + suffix)[i]) && !IsUpper(("-" + suffix)[i])
  {
    forall i | 0 <= i < |"-" + suffix|
      ensures !IsWhitespace(("-" + suffix)[i]) && !IsUpper(("-" + suffix)[i])
    {
      if i > 0 {
        assert ("-" + suffix)[i] == suffix[i - 1] && suffix[i - 1] in suffix;
        AlphabetRange(suffix[i - 1]);
      }
    }
  }

  lemma AlphabetRange(c: char)
    requires c in SuffixAlphabet
    ensures '0' <= c <= '9' || 'a' <= c <= 'z'
  {
  }

  lemma CleanAppend(x: string, y: string)
    requires forall i :: 0 <= i < |x| ==> !IsWhitespace(x[i]) && !IsUpper(x[i])
    requires forall i :: 0 <= i < |y| ==> !IsWhitespace(y[i]) && !IsUpper(y[i])
    ensures forall i :: 0 <= i < |x + y| ==> !IsWhitespace((x + y)[i]) && !IsUpper((x + y)[i])
    ensures (x + y)[|x|..] == y
  {
    forall i | 0 <= i < |x + y|
      ensures !IsWhitespace((x + y)[i]) && !IsUpper((x + y)[i])
    {
      if i >= |x| {
        assert (x + y)[i] == y[i - |x|];
      }
    }
  }

  /** Collapsing only inserts hyphens, so text without capitals stays without capitals. */
  lemma {:induction false} LowerKeepsNoUpper(s: string)
    requires forall i :: 0 <= i < |s| ==> !IsUpper(s[i])
    ensures forall i :: 0 <= i < |CollapseWhitespace(s)| ==>
      !IsWhitespace(CollapseWhitespace(s)[i]) && !IsUpper(CollapseWhitespace(s)[i])
    decreases |s|
  {
    if s != [] {
      if IsWhitespace(s[0]) {
        var t := TrimStart(s);
        LowerKeepsNoUpper(t);
      } else {
        LowerKeepsNoUpper(s[1..]);
      }
    }
  }

  /** A title that is already lower case and has no whitespace is kept verbatim in its slug. */
  lemma SlugOfPlainTitle(title: string, suffix: string)
    requires IsSuffix(suffix)
    requires NoWhitespace(title) && forall i :: 0 <= i < |title| ==> !IsUpper(title[i])
    ensures Slug(title, suffix) == title + "-" + suffix
  {
    assert Lower(title) == title;
    CollapseNoWhitespace(title);
  }

  // ---------------------------------------------------------------------
  // Tables
  // ---------------------------------------------------------------------

  datatype Survey = Survey(
    id: Id, title: string, description: Option<string>, slug: string,
    createdById: Id, status: Option<string>, publishedAt: Option<int>)

  /** A row of the survey-question table: a question and the survey it belongs to. */
  datatype StoredQuestion = StoredQuestion(surveyId: Id, question: Question)

  /** A survey together with its questions, as the two `findUnique` reads return it. */
  datatype SurveyWithQuestions = SurveyWithQuestions(survey: Survey, questions: seq<Question>)

  datatype SurveyError = SlugTaken | SurveyNotFound

  const Published: string := "published"

  predicate UniqueKeys(surveys: seq<Survey>)
  {
    forall i, j :: 0 <= i < j < |surveys| ==> surveys[i].id != surveys[j].id && surveys[i].slug != surveys[j].slug
  }

  function OrderIndex(q: Question): int { q.orderIndex }

  /** The questions of one survey, in table order. */
  function QuestionList(rows: seq<StoredQuestion>, surveyId: Id): (r: seq<Question>)
    ensures forall q :: q in r <==> exists k :: 0 <= k < |rows| && rows[k].surveyId == surveyId && rows[k].question == q
  {
    if rows == [] then []
    else
      var last := rows[|rows| - 1];
      QuestionList(rows[..|rows| - 1], surveyId) + (if last.surveyId == surveyId then [last.question] else [])
  }

  /** Position of the survey that `matches` selects; keys are unique, so there is at most one. */
  function FindSurvey(surveys: seq<Survey>, id: Id, bySlug: bool): (r: Option<nat>)
    ensures r.Some? ==> r.value < |surveys| && (if bySlug then surveys[r.value].slug else surveys[r.value].id) == id
    ensures r.None? <==> forall k :: 0 <= k < |surveys| ==> (if bySlug then surveys[k].slug else surveys[k].id) != id
  {
    if surveys == [] then None
    else
      var n := |surveys| - 1;
      if (if bySlug then surveys[n].slug else surveys[n].id) == id then Some(n)
      else FindSurvey(surveys[..n], id, bySlug)
  }

  /** A `findUnique` read including the questions ordered by `orderIndex`, or null. */
  function Read(surveys: seq<Survey>, rows: seq<StoredQuestion>, key: Id, bySlug: bool): (r: Option<SurveyWithQuestions>)
    ensures r.None? <==> forall k :: 0 <= k < |surveys| ==> (if bySlug then surveys[k].slug else surveys[k].id) != key
    ensures r.Some? ==> r.value.survey in surveys && (if bySlug then r.value.survey.slug else r.value.survey.id) == key
    ensures r.Some? ==> SortedBy(r.value.questions, OrderIndex)
    ensures r.Some? ==> multiset(r.value.questions) == multiset(QuestionList(rows, r.value.survey.id))
  {
    match FindSurvey(surveys, key, bySlug)
    case None => None
    case Some(k) =>
      var s := surveys[k];
      Some(SurveyWithQuestions(s, SortBy(QuestionList(rows, s.id), OrderIndex)))
  }

  /** A read by id and a read by slug find the same survey with the same questions. */
  lemma ReadBySlugAgreesWithId(surveys: seq<Survey>, rows: seq<StoredQuestion>, k: nat)
    requires UniqueKeys(surveys) && k < |surveys|
    ensures Read(surveys, rows, surveys[k].slug, true) == Read(surveys, rows, surveys[k].id, false)
  {
    var a := FindSurvey(surveys, surveys[k].slug, true);
    var b := FindSurvey(surveys, surveys[k].id, false);
    assert a == Some(k);
    assert b == Some(k);
  }

  /** `publishSurvey`'s row: published now, every other field kept. */
  function Publish(s: Survey, now: int): (p: Survey)
    ensures p.status == Some(Published) && p.publishedAt == Some(now)
    ensures p.(status := s.status, publishedAt := s.publishedAt) == s
  {
    s.(status := Some(Published), publishedAt := Some(now))
  }

  // ---------------------------------------------------------------------
  // The update transaction
  // ---------------------------------------------------------------------

  /** One operation of the `updateSurvey` transaction. */
  datatype Op =
    | UpdateSurveyRow(surveyId: Id, title: Option<string>, description: Option<string>, settings: Option<Settings>)
    | CreateQuestion(surveyId: Id, question: Question)
    | UpdateQuestion(questionId: Id, surveyId: Id, question: Question)

  /** `!q.id`: the question has no id yet (absent or empty). */
  predicate IsNew(q: Question)
  {
    q.id.None? || q.id.value == ""
  }

  /** The creates, in input order, for the questions without an id. */
  function CreateOps(surveyId: Id, qs: seq<Question>): (ops: seq<Op>)
    ensures |ops| <= |qs|
    ensures forall o | o in ops :: o.CreateQuestion? && o.surveyId == surveyId && o.question in qs && IsNew(o.question)
  {
    if qs == [] then []
    else
      var rest := CreateOps(surveyId, qs[1..]);
      if IsNew(qs[0]) then [CreateQuestion(surveyId, qs[0])] + rest else rest
  }

  /** The updates, in input order, for the questions that carry an id. */
  function UpdateOps(surveyId: Id, qs: seq<Question>): (ops: seq<Op>)
    ensures |ops| <= |qs|
    ensures forall o | o in ops ::
      (o.UpdateQuestion? && o.surveyId == surveyId && o.question in qs
       && !IsNew(o.question) && o.question.id == Some(o.questionId))
  {
    if qs == [] then []
    else
      var rest := UpdateOps(surveyId, qs[1..]);
      if IsNew(qs[0]) then rest else [UpdateQuestion(qs[0].id.value, surveyId, qs[0])] + rest
  }

  /** The question an operation writes; the survey update writes none. */
  function Written(ops: seq<Op>): (qs: seq<Question>)
    ensures |qs| <= |ops|
  {
    if ops == [] then []
    else (if ops[0].UpdateSurveyRow? then [] else [ops[0].question]) + Written(ops[1..])
  }

  lemma {:induction false} WrittenAppend(a: seq<Op>, b: seq<Op>)
    ensures Written(a + b) == Written(a) + Written(b)
    decreases |a|
  {
    if a == [] {
      assert a + b == b;
    } else {
      assert (a + b)[0] == a[0] && (a + b)[1..] == a[1..] + b;
      WrittenAppend(a[1..], b);
    }
  }

  /** Creates and updates are filters over the input list: concatenation splits them. */
  lemma {:induction false} CreateOpsAppend(surveyId: Id, a: seq<Question>, b: seq<Question>)
    ensures CreateOps(surveyId, a + b) == CreateOps(surveyId, a) + CreateOps(surveyId, b)
    decreases |a|
  {
    if a == [] {
      assert a + b == b;
    } else {
      assert (a + b)[0] == a[0] && (a + b)[1..] == a[1..] + b;
      CreateOpsAppend(surveyId, a[1..], b);
    }
  }

  lemma {:induction false} UpdateOpsAppend(surveyId: Id, a: seq<Question>, b: seq<Question>)
    ensures UpdateOps(surveyId, a + b) == UpdateOps(surveyId, a) + UpdateOps(surveyId, b)
    decreases |a|
  {
    if a == [] {
      assert a + b == b;
    } else {
      assert (a + b)[0] == a[0] && (a + b)[1..] == a[1..] + b;
      UpdateOpsAppend(surveyId, a[1..], b);
    }
  }

  /** Each question is written by exactly one operation: a create when it is new, an update otherwise. */
  lemma {:induction false} SplitPartitions(surveyId: Id, qs: seq<Question>)
    ensures multiset(Written(CreateOps(surveyId, qs) + UpdateOps(surveyId, qs))) == multiset(qs)
    ensures |CreateOps(surveyId, qs)| + |UpdateOps(surveyId, qs)| == |qs|
    ensures forall q | q in qs :: IsNew(q) ==> CreateQuestion(surveyId, q) in CreateOps(surveyId, qs)
    ensures forall q | q in qs :: !IsNew(q) ==> UpdateQuestion(q.id.value, surveyId, q) in UpdateOps(surveyId, qs)
    decreases |qs|
  {
    if qs != [] {
      var c := CreateOps(surveyId, qs[1..]);
      var u := UpdateOps(surveyId, qs[1..]);
      SplitPartitions(surveyId, qs[1..]);
      var q := qs[0];
      assert qs == [q] + qs[1..];
      if IsNew(q) {
        WrittenAppend([CreateQuestion(surveyId, q)], c + u);
        assert [CreateQuestion(surveyId, q)] + c + u == [CreateQuestion(surveyId, q)] + (c + u);
        assert Written([CreateQuestion(surveyId, q)]) == [q];
      } else {
        var o := UpdateQuestion(q.id.value, surveyId, q);
        WrittenAppend(c, [o] + u);
        WrittenAppend([o], u);
        WrittenAppend(c, u);
        assert Written([o]) == [q];
      }
    }
  }

  /** The first operation updates the survey row with every field except `questions`. */
  function SurveyUpdate(surveyId: Id, data: UpdateSurveyInput): Op
  {
    UpdateSurveyRow(surveyId, data.title, data.description, data.settings)
  }

  /** The question operations of `updateSurvey`, as `transaction.push` receives them. */
  function QuestionOps(surveyId: Id, data: UpdateSurveyInput): (ops: seq<Op>)
    ensures data.questions.None? ==> ops == []
    ensures data.questions.Some? ==> |ops| == |data.questions.value|
    ensures data.questions.Some? ==> multiset(Written(ops)) == multiset(data.questions.value)
    ensures forall o | o in ops :: !o.UpdateSurveyRow? && o.surveyId == surveyId
  {
    match data.questions
    case None => []
    case Some(qs) =>
      SplitPartitions(surveyId, qs);
      CreateOps(surveyId, qs) + UpdateOps(surveyId, qs)
  }

  /** Every create comes before every update. */
  lemma CreatesBeforeUpdates(surveyId: Id, data: UpdateSurveyInput, i: nat, j: nat)
    requires i < j < |QuestionOps(surveyId, data)|
    requires QuestionOps(surveyId, data)[i].UpdateQuestion?
    ensures QuestionOps(surveyId, data)[j].UpdateQuestion?
  {
    var qs := data.questions.value;
    var c := CreateOps(surveyId, qs);
    var ops := c + UpdateOps(surveyId, qs);
    if i >= |c| {
      assert ops[j] in UpdateOps(surveyId, qs);
    }
  }

  /**
   * The survey and question tables. Keys are unique: the store generates
   * ids, and the slug is a unique column (it is what `findUnique` looks up).
   */
  class SurveyService {
    var surveys: seq<Survey>
    var questions: seq<StoredQuestion>

    ghost predicate Valid()
      reads this
    {
      UniqueKeys(surveys)
    }

    constructor ()
      ensures Valid() && surveys == [] && questions == []
    {
      surveys, questions := [], [];
    }

    /**
     * `createSurvey`: stores the input with the derived slug and the author.
     * Inserting a slug that is already stored violates its uniqueness and
     * writes nothing.
     */
    method CreateSurvey(data: CreateSurveyInput, userId: Id, id: Id, suffix: string)
      returns (r: Result<Survey, SurveyError>)
      requires Valid() && IsSuffix(suffix)
      requires forall k :: 0 <= k < |surveys| ==> surveys[k].id != id
      modifies this
      ensures Valid() && questions == old(questions)
      ensures r.Failure? <==> exists k :: 0 <= k < |old(surveys)| && old(surveys)[k].slug == Slug(data.title, suffix)
      ensures r.Failure? ==> r.error == SlugTaken && surveys == old(surveys)
      ensures r.Success? ==> r.value == Survey(id, data.title, data.description, Slug(data.title, suffix), userId, None, None)
      ensures r.Success? ==> surveys == old(surveys) + [r.value]
    {
      var slug := Slug(data.title, suffix);
      var found := FindSurvey(surveys, slug, true);
      if found.Some? {
        return Failure(SlugTaken);
      }
      var s := Survey(id, data.title, data.description, slug, userId, None, None);
      surveys := surveys + [s];
      r := Success(s);
    }

    /** `getSurveyById`. */
    method GetSurveyById(surveyId: Id) returns (r: Option<SurveyWithQuestions>)
      ensures r.None? <==> forall k :: 0 <= k < |surveys| ==> surveys[k].id != surveyId
      ensures r.Some? ==> r.value.survey in surveys && r.value.survey.id == surveyId
      ensures r.Some? ==> SortedBy(r.value.questions, OrderIndex)
      ensures r.Some? ==> multiset(r.value.questions) == multiset(QuestionList(questions, surveyId))
    {
      r := Read(surveys, questions, surveyId, false);
    }

    /** `getSurveyBySlug`. */
    method GetSurveyBySlug(slug: string) returns (r: Option<SurveyWithQuestions>)
      ensures r.None? <==> forall k :: 0 <= k < |surveys| ==> surveys[k].slug != slug
      ensures r.Some? ==> r.value.survey in surveys && r.value.survey.slug == slug
      ensures r.Some? ==> SortedBy(r.value.questions, OrderIndex)
      ensures r.Some? ==> multiset(r.value.questions) == multiset(QuestionList(questions, r.value.survey.id))
    {
      r := Read(surveys, questions, slug, true);
    }

    /**
     * `updateSurvey`: the operations handed to one transaction. The
     * survey update comes first; the question operations are pushed after
     * it only when `questions` is present.
     */
    method UpdateSurvey(surveyId: Id, data: UpdateSurveyInput) returns (transaction: seq<Op>)
      ensures |transaction| == 1 + (if data.questions.Some? then |data.questions.value| else 0)
      ensures transaction[0] == SurveyUpdate(surveyId, data)
      ensures data.questions.Some? ==> multiset(Written(transaction)) == multiset(data.questions.value)
      ensures forall k :: 1 <= k < |transaction| ==> !transaction[k].UpdateSurveyRow? && transaction[k].surveyId == surveyId
      ensures transaction[1..] == QuestionOps(surveyId, data)
    {
      transaction := [SurveyUpdate(surveyId, data)];
      if data.questions.Some? {
        var qs := data.questions.value;
        transaction := transaction + CreateOps(surveyId, qs) + UpdateOps(surveyId, qs);
      }
      var ops := QuestionOps(surveyId, data);
      assert transaction == [SurveyUpdate(surveyId, data)] + ops;
      WrittenAppend([SurveyUpdate(surveyId, data)], ops);
      assert forall k :: 1 <= k < |transaction| ==> transaction[k] in ops;
    }

    /** `publishSurvey`: an update of a missing row fails and writes nothing. */
    method PublishSurvey(surveyId: Id, now: int) returns (r: Result<Survey, SurveyError>)
      requires Valid()
      modifies this
      ensures Valid() && questions == old(questions) && |surveys| == |old(surveys)|
      ensures r.Failure? <==> forall k :: 0 <= k < |old(surveys)| ==> old(surveys)[k].id != surveyId
      ensures r.Failure? ==> r.error == SurveyNotFound && surveys == old(surveys)
      ensures r.Success? ==> exists k :: (0 <= k < |surveys| && old(surveys)[k].id == surveyId
        && r.value == Publish(old(surveys)[k], now) && surveys == old(surveys)[k := r.value])
    {
      var found := FindSurvey(surveys, surveyId, false);
      if found.None? {
        return Failure(SurveyNotFound);
      }
      var k := found.value;
      var p := Publish(surveys[k], now);
      surveys := surveys[k := p];
      r := Success(p);
      assert forall i :: 0 <= i < |surveys| ==> surveys[i].id == old(surveys)[i].id && surveys[i].slug == old(surveys)[i].slug;
    }
  }
}
