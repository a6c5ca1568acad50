/**
 * The opinion-distribution step: the current distribution of answers to one
 * question, loaded once and then replaced by every live update for that
 * question, shown as one bar per answer with the total number of responses.
 */
module OpinionDistribution {
  import opened Wrappers
  import opened Json
  import opened Fetch

  const UpdateType: string := "distribution_update"
  const DistributionFailed: string := "Failed to fetch distribution data"

  /**
   * `distribution` is `None` for the initial `null` and for the `undefined`
   * an update without the property stores; otherwise it is the JSON value
   * last stored, an explicit `null` being `Some(JNull)`. All three are falsy.
   */
  datatype DistState = DistState(distribution: Option<Json>, isLoading: bool, error: Option<string>)

  const Initial: DistState := DistState(None, true, None)

  /** `fetchInitialData`: the decoded body or the error, and loading ends either way. */
  function AfterFetch(st: DistState, outcome: FetchOutcome<Json>): (r: DistState)
    ensures !r.isLoading
    ensures outcome.Fetched? ==> r.distribution == Some(outcome.value) && r.error == st.error
    ensures outcome.NotOk? ==> r.distribution == st.distribution && r.error == Some(DistributionFailed)
    ensures outcome.Threw? ==>
      (r.distribution == st.distribution
       && r.error == Some(if outcome.message.Some? then outcome.message.value else UnknownError))
  {
    match outcome
    case Fetched(data) => st.(distribution := Some(data), isLoading := false)
    case _ => st.(error := Some(CaughtMessage(outcome, DistributionFailed, UnknownError)), isLoading := false)
  }

  /** `===` between a property read (`None` for `undefined`) and the question's optional id. */
  predicate SameId(value: Option<Json>, id: Option<string>)
  {
    match value
    case None => id.None?
    case Some(v) => v.JStr? && id == Some(v.s)
  }

  /** Whether a message is an update for this question. */
  predicate IsUpdateFor(data: Json, questionId: Option<string>)
  {
    data.JObj? && Field(data.fields, "type") == Some(JStr(UpdateType)) && SameId(Field(data.fields, "questionId"), questionId)
  }

  /** The `distribution` property of an update, `None` when absent. */
  function Snapshot(data: Json): Option<Json>
    requires data.JObj?
  {
    Field(data.fields, "distribution")
  }

  /**
   * `onmessage` with the parsed message. A value that is not an object has
   * no `type` of its own (or makes the handler throw), so it changes
   * nothing.
   */
  function OnMessage(st: DistState, data: Json, questionId: Option<string>): (r: DistState)
    ensures IsUpdateFor(data, questionId) ==> r == st.(distribution := Snapshot(data))
    ensures !IsUpdateFor(data, questionId) ==> r == st
  {
    if data.JObj? && Field(data.fields, "type") == Some(JStr(UpdateType))
       && SameId(Field(data.fields, "questionId"), questionId)
    then st.(distribution := Field(data.fields, "distribution"))
    else st
  }

  /** An update is installed whole: nothing of the previous distribution survives. */
  lemma UpdateReplaces(st1: DistState, st2: DistState, data: Json, questionId: Option<string>)
    requires IsUpdateFor(data, questionId)
    ensures OnMessage(st1, data, questionId).distribution == OnMessage(st2, data, questionId).distribution
  {
  }

  /** The messages received so far, in order. */
  function Receive(st: DistState, msgs: seq<Json>, questionId: Option<string>): (r: DistState)
    ensures r.isLoading == st.isLoading && r.error == st.error
    decreases |msgs|
  {
    if msgs == [] then st
    else OnMessage(Receive(st, msgs[..|msgs| - 1], questionId), msgs[|msgs| - 1], questionId)
  }

  /** The position of the last update for this question. */
  function LastUpdate(msgs: seq<Json>, questionId: Option<string>): (r: Option<nat>)
    ensures r.Some? ==> r.value < |msgs| && IsUpdateFor(msgs[r.value], questionId)
    ensures r.Some? ==> forall k :: r.value < k < |msgs| ==> !IsUpdateFor(msgs[k], questionId)
    ensures r.None? ==> forall k :: 0 <= k < |msgs| ==> !IsUpdateFor(msgs[k], questionId)
    decreases |msgs|
  {
    if msgs == [] then None
    else if IsUpdateFor(msgs[|msgs| - 1], questionId) then Some(|msgs| - 1)
    else LastUpdate(msgs[..|msgs| - 1], questionId)
  }

  /**
   * The distribution shown is the one of the last update for this question,
   * or the one before any message when no update for it arrived.
   */
  lemma {:induction false} ShowsLastUpdate(st: DistState, msgs: seq<Json>, questionId: Option<string>)
    ensures var last := LastUpdate(msgs, questionId);
      Receive(st, msgs, questionId).distribution
        == (if last.Some? then Snapshot(msgs[last.value]) else st.distribution)
    decreases |msgs|
  {
    if msgs != [] {
      var front := msgs[..|msgs| - 1];
      ShowsLastUpdate(st, front, questionId);
      if !IsUpdateFor(msgs[|msgs| - 1], questionId) {
        var last := LastUpdate(front, questionId);
        if last.Some? {
          assert msgs[last.value] == front[last.value];
        }
      }
    }
  }

  /** JavaScript truthiness of a JSON value. */
  predicate Truthy(v: Json)
  {
    match v
    case JNull => false
    case JBool(b) => b
    case JNum(n) => n != 0.0
    case JStr(s) => s != []
    case _ => true
  }

  /** One bar of the chart: `{ name, count: value }`. */
  datatype ChartEntry = ChartEntry(name: string, count: Json)

  /**
   * `keys` is the order in which `Object.entries` lists the keys of the
   * distribution object: each key once, and no other.
   */
  predicate KeyOrder(distribution: Option<Json>, keys: seq<string>)
  {
    if distribution.Some? && distribution.value.JObj? then
      (forall i, j :: 0 <= i < j < |keys| ==> keys[i] != keys[j]) && (forall k | k in keys :: k in distribution.value.fields)
      && (forall k | k in distribution.value.fields :: k in keys)
    else keys == []
  }

  /** `chartData`: one entry per key of the distribution, none while there is no distribution. */
  function ChartData(distribution: Option<Json>, keys: seq<string>): (chart: seq<ChartEntry>)
    requires KeyOrder(distribution, keys)
    ensures distribution.None? || !Truthy(distribution.value) ==> chart == []
    ensures distribution.Some? && distribution.value.JObj? ==>
      (|chart| == |keys| == |distribution.value.fields|
       && (forall k :: 0 <= k < |chart| ==> chart[k] == ChartEntry(keys[k], distribution.value.fields[keys[k]]))
       && (forall name :: name in distribution.value.fields <==> (exists k :: 0 <= k < |chart| && chart[k].name == name)))
  {
    if distribution.Some? && distribution.value.JObj? then
      var fields := distribution.value.fields;
      DistinctKeysCount(keys, fields.Keys);
      seq(|keys|, k requires 0 <= k < |keys| => ChartEntry(keys[k], fields[keys[k]]))
    else []
  }

  lemma DistinctKeysCount(keys: seq<string>, s: set<string>)
    requires forall i, j :: 0 <= i < j < |keys| ==> keys[i] != keys[j]
    requires forall k :: k in keys <==> k in s
    ensures |keys| == |s|
    decreases |keys|
  {
    if keys != [] {
      var rest := keys[1..];
      assert forall k :: k in rest <==> k in s - {keys[0]} by {
        forall k ensures k in rest <==> k in s - {keys[0]} {
          if k in rest {
            var j :| 0 <= j < |rest| && rest[j] == k;
            assert keys[j + 1] == k;
          }
          if k in s - {keys[0]} {
            assert k in keys;
            var j :| 0 <= j < |keys| && keys[j] == k;
            assert j != 0;
            assert rest[j - 1] == k;
          }
        }
      }
      DistinctKeysCount(rest, s - {keys[0]});
    } else {
      assert forall k :: k !in s;
      assert s == {};
    }
  }

  /** What `sum + item.count` adds for a count that keeps the sum a number: numbers, booleans and `null`. */
  function NumericValue(v: Json): Option<real>
  {
    match v
    case JNum(n) => Some(n)
    case JBool(b) => Some(if b then 1.0 else 0.0)
    case JNull => Some(0.0)
    case _ => None
  }

  predicate AllNumeric(chart: seq<ChartEntry>)
  {
    forall k :: 0 <= k < |chart| ==> NumericValue(chart[k].count).Some?
  }

  function Sum(chart: seq<ChartEntry>): real
    requires AllNumeric(chart)
    decreases |chart|
  {
    if chart == [] then 0.0 else NumericValue(chart[0].count).value + Sum(chart[1..])
  }

  /**
   * `totalResponses`: the sum of the counts, starting from 0; `None` when a
   * count would turn the sum into a string.
   */
  function TotalResponses(chart: seq<ChartEntry>): (total: Option<real>)
    ensures total.Some? <==> AllNumeric(chart)
    ensures chart == [] ==> total == Some(0.0)
  {
    if AllNumeric(chart) then Some(Sum(chart)) else None
  }

  /** The total does not depend on the order in which the keys are listed. */
  lemma TotalIgnoresOrder(distribution: Option<Json>, keys1: seq<string>, keys2: seq<string>)
    requires KeyOrder(distribution, keys1) && KeyOrder(distribution, keys2)
    ensures TotalResponses(ChartData(distribution, keys1)) == TotalResponses(ChartData(distribution, keys2))
  {
    var c1 := ChartData(distribution, keys1);
    var c2 := ChartData(distribution, keys2);
    if distribution.Some? && distribution.value.JObj? {
      ChartPermutation(distribution.value.fields, keys1, keys2, c1, c2);
      if AllNumeric(c1) {
        PermutationNumeric(c1, c2);
        SumPermutation(c1, c2);
      } else if AllNumeric(c2) {
        PermutationNumeric(c2, c1);
      }
    }
  }

  lemma ChartPermutation(fields: map<string, Json>, keys1: seq<string>, keys2: seq<string>, c1: seq<ChartEntry>, c2: seq<ChartEntry>)
    requires KeyOrder(Some(JObj(fields)), keys1) && KeyOrder(Some(JObj(fields)), keys2)
    requires c1 == ChartData(Some(JObj(fields)), keys1) && c2 == ChartData(Some(JObj(fields)), keys2)
    ensures multiset(c1) == multiset(c2)
  {
    ChartEntries(fields, keys1, c1);
    ChartEntries(fields, keys2, c2);
    SameEntriesPermutation(c1, c2);
  }

  /** Two sequences without repeated names and with the same elements are permutations of each other. */
  lemma SameEntriesPermutation(c1: seq<ChartEntry>, c2: seq<ChartEntry>)
    requires forall i, j :: 0 <= i < j < |c1| ==> c1[i].name != c1[j].name
    requires forall i, j :: 0 <= i < j < |c2| ==> c2[i].name != c2[j].name
    requires forall e :: e in c1 <==> e in c2
    ensures multiset(c1) == multiset(c2)
  {
    DistinctSeqMultiset(c1);
    DistinctSeqMultiset(c2);
    forall e ensures multiset(c1)[e] == multiset(c2)[e] {
      assert e in c1 <==> e in c2;
    }
  }

  /** The chart of an object holds exactly its key/value pairs, each under a different name. */
  lemma ChartEntries(fields: map<string, Json>, keys: seq<string>, c: seq<ChartEntry>)
    requires KeyOrder(Some(JObj(fields)), keys) && c == ChartData(Some(JObj(fields)), keys)
    ensures forall e :: e in c <==> e.name in fields && e.count == fields[e.name]
    ensures forall i, j :: 0 <= i < j < |c| ==> c[i].name != c[j].name
  {
    forall e ensures e in c <==> e.name in fields && e.count == fields[e.name] {
      if e.name in fields && e.count == fields[e.name] {
        assert e.name in keys;
        var k :| 0 <= k < |keys| && keys[k] == e.name;
        assert c[k] == e;
      }
    }
  }

  /** A sequence without repetitions holds each of its elements once. */
  lemma DistinctSeqMultiset(c: seq<ChartEntry>)
    requires forall i, j :: 0 <= i < j < |c| ==> c[i].name != c[j].name
    ensures forall e :: multiset(c)[e] == (if e in c then 1 else 0)
    decreases |c|
  {
    if c != [] {
      DistinctSeqMultiset(c[1..]);
      assert c == [c[0]] + c[1..];
      assert c[0] !in c[1..];
    }
  }

  lemma PermutationNumeric(a: seq<ChartEntry>, b: seq<ChartEntry>)
    requires multiset(a) == multiset(b) && AllNumeric(a)
    ensures AllNumeric(b)
  {
    forall k | 0 <= k < |b| ensures NumericValue(b[k].count).Some? {
      assert b[k] in multiset(a);
    }
  }

  /** Adding up the same counts in another order gives the same sum. */
  lemma {:induction false} SumPermutation(a: seq<ChartEntry>, b: seq<ChartEntry>)
    requires multiset(a) == multiset(b) && AllNumeric(a) && AllNumeric(b)
    ensures Sum(a) == Sum(b)
    decreases |a|
  {
    if a == [] {
      assert |b| == |multiset(b)| == 0;
    } else {
      assert a[0] in multiset(b);
      var i :| 0 <= i < |b| && b[i] == a[0];
      var rest := b[..i] + b[i + 1..];
      RemoveMatching(a, b, i);
      SumRemove(b, i);
      assert AllNumeric(a[1..]) by {
        forall k | 0 <= k < |a[1..]| ensures NumericValue(a[1..][k].count).Some? {
          assert a[1..][k] == a[k + 1];
        }
      }
      SumPermutation(a[1..], rest);
    }
  }

  /** Taking the same element out of two permutations of each other leaves permutations of each other. */
  lemma RemoveMatching(a: seq<ChartEntry>, b: seq<ChartEntry>, i: nat)
    requires a != [] && i < |b| && b[i] == a[0] && multiset(a) == multiset(b)
    ensures multiset(a[1..]) == multiset(b[..i] + b[i + 1..])
  {
    var rest := b[..i] + b[i + 1..];
    assert a == [a[0]] + a[1..];
    assert b == b[..i] + [b[i]] + b[i + 1..];
    assert multiset(a) == multiset{a[0]} + multiset(a[1..]);
    assert multiset(b) == multiset(b[..i]) + multiset{b[i]} + multiset(b[i + 1..]);
    assert multiset(rest) == multiset(b[..i]) + multiset(b[i + 1..]);
    assert multiset(a[1..]) == multiset(a) - multiset{a[0]};
    assert multiset(rest) == multiset(b) - multiset{b[i]};
  }

  /** Summing around one element: the element plus the sum of the others. */
  lemma {:induction false} SumRemove(b: seq<ChartEntry>, i: nat)
    requires i < |b| && AllNumeric(b)
    ensures AllNumeric(b[..i] + b[i + 1..])
    ensures Sum(b) == NumericValue(b[i].count).value + Sum(b[..i] + b[i + 1..])
    decreases i
  {
    var rest := b[..i] + b[i + 1..];
    assert forall k :: 0 <= k < |rest| ==> rest[k] == (if k < i then b[k] else b[k + 1]);
    if i > 0 {
      SumRemove(b[1..], i - 1);
      assert b[1..][..i - 1] + b[1..][i..] == rest[1..];
      assert rest[0] == b[0];
    } else {
      assert rest == b[1..];
    }
  }

  /** The component's state fields, updated in place by its effect and the socket handler. */
  class OpinionDistributionStep {
    const questionId: Option<string>
    var distribution: Option<Json>
    var isLoading: bool
    var error: Option<string>

    function State(): DistState
      reads this
    {
      DistState(distribution, isLoading, error)
    }

    constructor (questionId: Option<string>)
      ensures this.questionId == questionId && State() == Initial
    {
      this.questionId := questionId;
      distribution, isLoading, error := None, true, None;
    }

    method FetchInitialData(outcome: FetchOutcome<Json>)
      modifies this
      ensures State() == AfterFetch(old(State()), outcome)
    {
      if outcome.Fetched? {
        distribution := Some(outcome.value);
      } else {
        error := Some(CaughtMessage(outcome, DistributionFailed, UnknownError));
      }
      isLoading := false;
    }

    /** The socket's `onmessage`. */
    method HandleMessage(data: Json)
      modifies this
      ensures State() == OnMessage(old(State()), data, questionId)
    {
      if data.JObj? && Field(data.fields, "type") == Some(JStr(UpdateType))
         && SameId(Field(data.fields, "questionId"), questionId) {
        distribution := Field(data.fields, "distribution");
      }
    }
  }
}
