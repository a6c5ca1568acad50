/**
 * A stable insertion sort by an integer key. It stands for the `orderBy`
 * clauses of the store's queries: ascending on the key given, and
 * descending when the key is negated.
 */
module Sorting {

  predicate SortedBy<T>(s: seq<T>, key: T -> int)
  {
    forall i, j :: 0 <= i < j < |s| ==> key(s[i]) <= key(s[j])
  }

  /** Places `x` in front of the first element whose key is not below its own. */
  function Insert<T>(x: T, s: seq<T>, key: T -> int): (r: seq<T>)
    requires SortedBy(s, key)
    ensures |r| == |s| + 1
    ensures multiset(r) == multiset(s) + multiset{x}
    ensures s == [] ==> r == [x]
    ensures s != [] ==> forall i :: 0 <= i < |r| ==> key(r[i]) >= Min(key(x), key(s[0]))
    ensures SortedBy(r, key)
  {
    if s == [] || key(x) <= key(s[0]) then [x] + s
    else
      var t := Insert(x, s[1..], key);
      InsertBehind(x, s, t, key);
      [s[0]] + t
  }

  /** Putting the head back in front of the insertion into the tail keeps the list sorted and the elements counted. */
  lemma InsertBehind<T>(x: T, s: seq<T>, t: seq<T>, key: T -> int)
    requires s != [] && key(x) > key(s[0]) && SortedBy(s, key)
    requires |t| == |s| && multiset(t) == multiset(s[1..]) + multiset{x} && SortedBy(t, key)
    requires s[1..] == [] ==> t == [x]
    requires s[1..] != [] ==> forall i :: 0 <= i < |t| ==> key(t[i]) >= Min(key(x), key(s[1..][0]))
    ensures |[s[0]] + t| == |s| + 1
    ensures multiset([s[0]] + t) == multiset(s) + multiset{x}
    ensures forall i :: 0 <= i < |[s[0]] + t| ==> key(([s[0]] + t)[i]) >= Min(key(x), key(s[0]))
    ensures SortedBy([s[0]] + t, key)
  {
    assert s == [s[0]] + s[1..];
    assert multiset(s) == multiset{s[0]} + multiset(s[1..]);
    assert forall i :: 0 <= i < |t| ==> key(s[0]) <= key(t[i]) by {
      if s[1..] != [] {
        assert key(s[0]) <= key(s[1]);
      }
    }
    ConsSorted(s[0], t, key);
  }

  /** A head no greater than any element of a sorted tail gives a sorted list, headed by its minimum. */
  lemma ConsSorted<T>(h: T, t: seq<T>, key: T -> int)
    requires SortedBy(t, key) && forall i :: 0 <= i < |t| ==> key(h) <= key(t[i])
    ensures SortedBy([h] + t, key)
    ensures forall i :: 0 <= i < |[h] + t| ==> key(h) <= key(([h] + t)[i])
  {
    var r := [h] + t;
    forall i, j | 0 <= i < j < |r| ensures key(r[i]) <= key(r[j]) {
      assert r[j] == t[j - 1];
      if i > 0 {
        assert r[i] == t[i - 1];
      }
    }
  }

  function Min(a: int, b: int): int { if a <= b then a else b }

  /** `s` rearranged so that keys ascend; equal keys keep their relative order. */
  function SortBy<T>(s: seq<T>, key: T -> int): (r: seq<T>)
    ensures SortedBy(r, key)
    ensures multiset(r) == multiset(s)
    ensures |r| == |s|
  {
    if s == [] then []
    else
      assert s == [s[0]] + s[1..];
      Insert(s[0], SortBy(s[1..], key), key)
  }
}
