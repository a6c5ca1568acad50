/**
 * Drag-and-drop reordering of the questions of a survey being authored:
 * the dragged question moves to the position of the one it is dropped on,
 * and the list is renumbered so that `orderIndex` counts 1, 2, 3, ...
 */
module QuestionList {
  import opened Wrappers
  import opened QuestionSchemas

  type Id = string

  /** `findIndex(q => q.id === id)`: the first question carrying `id`. */
  function FindIndex(qs: seq<Question>, id: Id): (r: Option<nat>)
    ensures r.Some? ==> r.value < |qs| && qs[r.value].id == Some(id)
    ensures r.Some? ==> forall k :: 0 <= k < r.value ==> qs[k].id != Some(id)
    ensures r.None? <==> forall k :: 0 <= k < |qs| ==> qs[k].id != Some(id)
  {
    if qs == [] then None
    else if qs[0].id == Some(id) then Some(0)
    else match FindIndex(qs[1..], id)
      case None => None
      case Some(k) => Some(k + 1)
  }

  /** `arrayMove`: take the element at `from` out and insert it so that it lands at `to`. */
  function Move<T>(s: seq<T>, from: nat, to: nat): (r: seq<T>)
    requires from < |s| && to < |s|
    ensures |r| == |s|
  {
    var rest := s[..from] + s[from + 1..];
    rest[..to] + [s[from]] + rest[to..]
  }

  /** The moved element lands at `to`; the ones it passes shift one place back toward `from`; the rest stay. */
  lemma MovePositions<T>(s: seq<T>, from: nat, to: nat)
    requires from < |s| && to < |s|
    ensures Move(s, from, to)[to] == s[from]
    ensures forall k :: from <= k < to ==> Move(s, from, to)[k] == s[k + 1]
    ensures forall k :: to < k <= from ==> Move(s, from, to)[k] == s[k - 1]
    ensures forall k :: 0 <= k < from && k < to ==> Move(s, from, to)[k] == s[k]
    ensures forall k :: from < k < |s| && to < k ==> Move(s, from, to)[k] == s[k]
  {
    var rest := s[..from] + s[from + 1..];
    assert forall k :: 0 <= k < from ==> rest[k] == s[k];
    assert forall k :: from <= k < |rest| ==> rest[k] == s[k + 1];
  }

  /** Moving rearranges and neither loses nor duplicates an element. */
  lemma MovePermutes<T>(s: seq<T>, from: nat, to: nat)
    requires from < |s| && to < |s|
    ensures multiset(Move(s, from, to)) == multiset(s)
  {
    var rest := s[..from] + s[from + 1..];
    assert s == s[..from] + [s[from]] + s[from + 1..];
    assert multiset(s) == multiset(s[..from]) + multiset{s[from]} + multiset(s[from + 1..]);
    assert multiset(rest) == multiset(s[..from]) + multiset(s[from + 1..]);
    assert rest == rest[..to] + rest[to..];
    assert multiset(rest) == multiset(rest[..to]) + multiset(rest[to..]);
    assert multiset(Move(s, from, to)) == multiset(rest[..to]) + multiset{s[from]} + multiset(rest[to..]);
    assert multiset(Move(s, from, to)) == multiset(rest) + multiset{s[from]};
  }

  /** The renumbering `map`: position k gets `orderIndex` k + 1, and nothing else changes. */
  function Renumber(qs: seq<Question>): (r: seq<Question>)
    ensures |r| == |qs|
    ensures forall k :: 0 <= k < |qs| ==> r[k].orderIndex == k + 1
    ensures forall k :: 0 <= k < |qs| ==> r[k].(orderIndex := qs[k].orderIndex) == qs[k]
  {
    seq(|qs|, k requires 0 <= k < |qs| => qs[k].(orderIndex := k + 1))
  }

  /** A question with its position forgotten. */
  function Unnumbered(q: Question): Question
  {
    q.(orderIndex := 0)
  }

  function UnnumberedAll(qs: seq<Question>): (r: seq<Question>)
    ensures |r| == |qs| && forall k :: 0 <= k < |qs| ==> r[k] == Unnumbered(qs[k])
  {
    seq(|qs|, k requires 0 <= k < |qs| => Unnumbered(qs[k]))
  }

  /** `handleDragEnd`: no drop target, or a drop onto itself, leaves the list alone. */
  function DragEnd(qs: seq<Question>, activeId: Id, overId: Option<Id>): (r: seq<Question>)
    requires FindIndex(qs, activeId).Some?
    requires overId.Some? ==> FindIndex(qs, overId.value).Some?
    ensures |r| == |qs|
    ensures overId.None? || overId.value == activeId ==> r == qs
  {
    if overId.Some? && activeId != overId.value then
      var oldIndex := FindIndex(qs, activeId).value;
      var newIndex := FindIndex(qs, overId.value).value;
      Renumber(Move(qs, oldIndex, newIndex))
    else qs
  }

  /**
   * After a real drop the dragged question sits where the target was, the
   * list is numbered exactly 1..n, and apart from numbering the questions
   * are the same ones, each as often as before.
   */
  lemma {:induction false} DragEndReorders(qs: seq<Question>, activeId: Id, overId: Id, from: nat, to: nat)
    requires FindIndex(qs, activeId) == Some(from) && FindIndex(qs, overId) == Some(to)
    requires activeId != overId
    ensures DragEnd(qs, activeId, Some(overId))[to] == qs[from].(orderIndex := to + 1)
    ensures forall k :: 0 <= k < |qs| ==> DragEnd(qs, activeId, Some(overId))[k].orderIndex == k + 1
    ensures multiset(UnnumberedAll(DragEnd(qs, activeId, Some(overId)))) == multiset(UnnumberedAll(qs))
  {
    var moved := Move(qs, from, to);
    var r := Renumber(moved);
    assert DragEnd(qs, activeId, Some(overId)) == r;
    MovePositions(qs, from, to);
    assert r[to] == moved[to].(orderIndex := to + 1);
    UnnumberedRenumber(moved);
    UnnumberedMove(qs, from, to);
    MovePermutes(UnnumberedAll(qs), from, to);
  }

  /** Renumbering only changes positions. */
  lemma UnnumberedRenumber(qs: seq<Question>)
    ensures UnnumberedAll(Renumber(qs)) == UnnumberedAll(qs)
  {
    var a := UnnumberedAll(Renumber(qs));
    var b := UnnumberedAll(qs);
    forall k | 0 <= k < |qs| ensures a[k] == b[k] {
      assert Renumber(qs)[k] == qs[k].(orderIndex := k + 1);
    }
  }

  /** The questions strictly between the two positions shift by one; the others keep their place. */
  lemma {:induction false} DragEndShifts(qs: seq<Question>, activeId: Id, overId: Id, from: nat, to: nat, k: nat)
    requires FindIndex(qs, activeId) == Some(from) && FindIndex(qs, overId) == Some(to)
    requires activeId != overId && k < |qs|
    ensures from <= k < to ==> Unnumbered(DragEnd(qs, activeId, Some(overId))[k]) == Unnumbered(qs[k + 1])
    ensures to < k <= from ==> Unnumbered(DragEnd(qs, activeId, Some(overId))[k]) == Unnumbered(qs[k - 1])
    ensures (k < from && k < to) || (k > from && k > to) ==> DragEnd(qs, activeId, Some(overId))[k] == qs[k].(orderIndex := k + 1)
  {
    assert DragEnd(qs, activeId, Some(overId)) == Renumber(Move(qs, from, to));
    RenumberedMoveShifts(qs, from, to, k);
  }

  lemma RenumberedMoveShifts(qs: seq<Question>, from: nat, to: nat, k: nat)
    requires from < |qs| && to < |qs| && k < |qs|
    ensures from <= k < to ==> Unnumbered(Renumber(Move(qs, from, to))[k]) == Unnumbered(qs[k + 1])
    ensures to < k <= from ==> Unnumbered(Renumber(Move(qs, from, to))[k]) == Unnumbered(qs[k - 1])
    ensures (k < from && k < to) || (k > from && k > to) ==> Renumber(Move(qs, from, to))[k] == qs[k].(orderIndex := k + 1)
  {
    var moved := Move(qs, from, to);
    MovePositions(qs, from, to);
    assert Renumber(moved)[k] == moved[k].(orderIndex := k + 1);
  }

  /** Forgetting positions commutes with moving. */
  lemma UnnumberedMove(qs: seq<Question>, from: nat, to: nat)
    requires from < |qs| && to < |qs|
    ensures UnnumberedAll(Move(qs, from, to)) == Move(UnnumberedAll(qs), from, to)
  {
    var u := UnnumberedAll(qs);
    MovePositions(qs, from, to);
    MovePositions(u, from, to);
  }
}
