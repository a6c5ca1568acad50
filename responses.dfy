/**
 * The response ledger of the responses service: answers are only ever
 * appended; a revision is a new row whose `editedFromId` names the row it
 * revises and which inherits that row's question and session.
 */
module Responses {
  import opened Wrappers
  import opened Json

  type Id = string

  /** One stored answer; `value` is the opaque JSON payload. */
  datatype Response = Response(
    id: Id, questionId: Id, sessionId: Id, value: Json,
    editedFromId: Option<Id>, createdAt: int)

  datatype SubmitResponseInput = SubmitResponseInput(questionId: Id, sessionId: Id, value: Json)

  datatype UpdateResponseInput = UpdateResponseInput(value: Json)

  /** The error `updateResponse` throws: "Original response not found". */
  datatype ResponseError = OriginalResponseNotFound

  predicate IsFresh(rows: seq<Response>, id: Id)
  {
    forall i :: 0 <= i < |rows| ==> rows[i].id != id
  }

  predicate UniqueIds(rows: seq<Response>)
  {
    forall i, j :: 0 <= i < j < |rows| ==> rows[i].id != rows[j].id
  }

  /** `findUnique` by id: the position of the row with that id, if any. */
  function FindById(rows: seq<Response>, id: Id): (r: Option<nat>)
    ensures r.Some? ==> r.value < |rows| && rows[r.value].id == id
    ensures r.None? <==> IsFresh(rows, id)
  {
    if rows == [] then None
    else if rows[|rows| - 1].id == id then Some(|rows| - 1)
    else FindById(rows[..|rows| - 1], id)
  }

  /** Row `j` is an original, or it revises an earlier row with the same question and session. */
  predicate LinkOk(rows: seq<Response>, j: nat)
    requires j < |rows|
  {
    match rows[j].editedFromId
    case None => true
    case Some(parent) =>
      var p := FindById(rows[..j], parent);
      p.Some? && rows[p.value].questionId == rows[j].questionId
      && rows[p.value].sessionId == rows[j].sessionId
  }

  predicate LineageConsistent(rows: seq<Response>)
  {
    forall j :: 0 <= j < |rows| ==> LinkOk(rows, j)
  }

  /** The position of the row that revises nothing at the start of row `j`'s edit chain. */
  function RootIndex(rows: seq<Response>, j: nat): (k: nat)
    requires LineageConsistent(rows) && j < |rows|
    ensures k <= j
    ensures rows[k].editedFromId.None?
    ensures rows[k].questionId == rows[j].questionId && rows[k].sessionId == rows[j].sessionId
    decreases j
  {
    match rows[j].editedFromId
    case None => j
    case Some(parent) =>
      assert LinkOk(rows, j);
      RootIndex(rows, FindById(rows[..j], parent).value)
  }

  /** Appending a row whose link is sound keeps every earlier link sound. */
  lemma AppendKeepsLineage(rows: seq<Response>, r: Response)
    requires LineageConsistent(rows)
    requires LinkOk(rows + [r], |rows|)
    ensures LineageConsistent(rows + [r])
  {
    var s := rows + [r];
    forall j | 0 <= j < |s| ensures LinkOk(s, j) {
      if j < |rows| {
        assert s[..j] == rows[..j];
        assert LinkOk(rows, j);
      }
    }
  }

  /** A revision belongs to the same edit chain as the row it revises. */
  lemma RevisionSharesRoot(rows: seq<Response>, k: nat, r: Response)
    requires LineageConsistent(rows) && k < |rows|
    requires r.editedFromId == Some(rows[k].id) && UniqueIds(rows)
    requires r.questionId == rows[k].questionId && r.sessionId == rows[k].sessionId
    ensures LineageConsistent(rows + [r])
    ensures RootIndex(rows + [r], |rows|) == RootIndex(rows, k)
  {
    var s := rows + [r];
    assert s[..|rows|] == rows;
    var p := FindById(rows, rows[k].id);
    assert p == Some(k);
    AppendKeepsLineage(rows, r);
    RootIndexOfPrefix(rows, r, k);
  }

  lemma {:induction false} RootIndexOfPrefix(rows: seq<Response>, r: Response, k: nat)
    requires LineageConsistent(rows) && LineageConsistent(rows + [r]) && k < |rows|
    ensures RootIndex(rows + [r], k) == RootIndex(rows, k)
    decreases k
  {
    var s := rows + [r];
    assert s[..k] == rows[..k];
    match rows[k].editedFromId
    case None =>
    case Some(parent) =>
      assert LinkOk(rows, k);
      RootIndexOfPrefix(rows, r, FindById(rows[..k], parent).value);
  }

  class ResponseService {
    /** The `response` table, oldest row first. */
    var rows: seq<Response>

    ghost predicate Valid()
      reads this
    {
      UniqueIds(rows) && LineageConsistent(rows)
    }

    constructor ()
      ensures Valid() && rows == []
    {
      rows := [];
    }

    /**
     * `submitResponse`: appends one original answer. The store supplies the
     * fresh `id` and the `createdAt` timestamp.
     */
    method SubmitResponse(data: SubmitResponseInput, id: Id, createdAt: int) returns (r: Response)
      requires Valid() && IsFresh(rows, id)
      modifies this
      ensures Valid()
      ensures r == Response(id, data.questionId, data.sessionId, data.value, None, createdAt)
      ensures rows == old(rows) + [r]
    {
      r := Response(id, data.questionId, data.sessionId, data.value, None, createdAt);
      AppendKeepsLineage(rows, r);
      rows := rows + [r];
    }

    /**
     * `updateResponse`: looks the original up (which may itself be a
     * revision) and appends a revision of it carrying the new value; an
     * unknown id throws and writes nothing.
     */
    method UpdateResponse(responseId: Id, data: UpdateResponseInput, id: Id, createdAt: int)
      returns (res: Result<Response, ResponseError>)
      requires Valid() && IsFresh(rows, id)
      modifies this
      ensures Valid()
      ensures IsFresh(old(rows), responseId) <==> res.Failure?
      ensures res.Failure? ==> res.error == OriginalResponseNotFound && rows == old(rows)
      ensures res.Success? ==>
        var k := FindById(old(rows), responseId).value;
        var original := old(rows)[k];
        && res.value == Response(id, original.questionId, original.sessionId, data.value, Some(responseId), createdAt)
        && rows == old(rows) + [res.value]
        && RootIndex(rows, |old(rows)|) == RootIndex(old(rows), k)
    {
      var found := FindById(rows, responseId);
      if found.None? {
        return Failure(OriginalResponseNotFound);
      }
      var original := rows[found.value];
      var r := Response(id, original.questionId, original.sessionId, data.value, Some(original.id), createdAt);
      RevisionSharesRoot(rows, found.value, r);
      rows := rows + [r];
      res := Success(r);
    }
  }
}
