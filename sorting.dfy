/**
 * The stable comparison sort behind Python's `list.sort(key=…, reverse=…)` and
 * JavaScript's `Array.prototype.sort(compare)` (stable since ES2019), written as
 * an insertion sort over an arbitrary total preorder.
 */
module Sorting {

  ghost predicate TotalPreorder<T(!new)>(le: (T, T) -> bool) {
    (forall a, b :: le(a, b) || le(b, a))
    && (forall a, b, c :: le(a, b) && le(b, c) ==> le(a, c))
  }

  predicate Sorted<T>(s: seq<T>, le: (T, T) -> bool) {
    forall i, j :: 0 <= i < j < |s| ==> le(s[i], s[j])
  }

  /** Puts `x` in front of the first element it is not greater than. */
  function Insert<T>(x: T, s: seq<T>, le: (T, T) -> bool): (r: seq<T>)
    ensures multiset(r) == multiset(s) + multiset{x}
    ensures |r| == |s| + 1
  {
    if s == [] || le(x, s[0]) then [x] + s
    else
      assert s == [s[0]] + s[1..];
      [s[0]] + Insert(x, s[1..], le)
  }

  lemma {:induction false} InsertSorted<T(!new)>(x: T, s: seq<T>, le: (T, T) -> bool)
    requires TotalPreorder(le) && Sorted(s, le)
    ensures Sorted(Insert(x, s, le), le)
  {
    if s != [] && !le(x, s[0]) {
      InsertSorted(x, s[1..], le);
      var r := Insert(x, s[1..], le);
      assert le(s[0], x);
      forall k | 0 <= k < |r| ensures le(s[0], r[k]) {
        assert r[k] in multiset(r);
        assert r[k] == x || r[k] in multiset(s[1..]);
        if r[k] != x {
          var j :| 0 <= j < |s[1..]| && s[1..][j] == r[k];
          assert s[j + 1] == r[k];
        }
      }
    }
  }

  /** The stable sort: `s` ordered by `le`, equal elements in their original order. */
  function Sort<T>(s: seq<T>, le: (T, T) -> bool): (r: seq<T>)
    ensures multiset(r) == multiset(s)
    ensures |r| == |s|
  {
    if s == [] then []
    else
      assert s == [s[0]] + s[1..];
      Insert(s[0], Sort(s[1..], le), le)
  }

  /** Sorting yields a sorted permutation of the input. */
  lemma {:induction false} SortSorted<T(!new)>(s: seq<T>, le: (T, T) -> bool)
    requires TotalPreorder(le)
    ensures Sorted(Sort(s, le), le)
  {
    if s != [] {
      SortSorted(s[1..], le);
      InsertSorted(s[0], Sort(s[1..], le), le);
    }
  }

  /** An already-sorted list is left as it is. */
  lemma {:induction false} SortOfSorted<T(!new)>(s: seq<T>, le: (T, T) -> bool)
    requires TotalPreorder(le) && Sorted(s, le)
    ensures Sort(s, le) == s
  {
    if s != [] {
      SortOfSorted(s[1..], le);
      assert Sort(s[1..], le) == s[1..];
      if |s| > 1 { assert le(s[0], s[1]); }
      assert s == [s[0]] + s[1..];
    }
  }

  lemma MultisetTail<T>(a: seq<T>, b: seq<T>)
    requires a != [] && b != [] && a[0] == b[0] && multiset(a) == multiset(b)
    ensures multiset(a[1..]) == multiset(b[1..])
  {
    assert a == [a[0]] + a[1..] && b == [b[0]] + b[1..];
    assert multiset(a) == multiset{a[0]} + multiset(a[1..]);
    assert multiset(b) == multiset{a[0]} + multiset(b[1..]);
    forall x ensures multiset(a[1..])[x] == multiset(b[1..])[x] {
      assert multiset(a)[x] == multiset{a[0]}[x] + multiset(a[1..])[x];
      assert multiset(b)[x] == multiset{a[0]}[x] + multiset(b[1..])[x];
    }
  }

  lemma SortedHeads<T(!new)>(a: seq<T>, b: seq<T>, le: (T, T) -> bool)
    requires TotalPreorder(le) && Sorted(a, le) && Sorted(b, le) && a != [] && multiset(a) == multiset(b)
    requires forall x, y :: x in a && y in a && le(x, y) && le(y, x) ==> x == y
    ensures b != [] && a[0] == b[0]
  {
    assert a[0] in multiset(b);
    assert b[0] in multiset(a);
    var i :| 0 <= i < |b| && b[i] == a[0];
    var j :| 0 <= j < |a| && a[j] == b[0];
    assert le(b[0], a[0]) by { if i > 0 { assert le(b[0], b[i]); } }
    assert le(a[0], b[0]) by { if j > 0 { assert le(a[0], a[j]); } }
  }

  /** Two sorted lists with the same elements are equal when `le` only ties equal elements. */
  lemma {:induction false} SortedUnique<T(!new)>(a: seq<T>, b: seq<T>, le: (T, T) -> bool)
    requires TotalPreorder(le) && Sorted(a, le) && Sorted(b, le)
    requires multiset(a) == multiset(b)
    requires forall x, y :: x in a && y in a && le(x, y) && le(y, x) ==> x == y
    ensures a == b
  {
    if a != [] {
      SortedHeads(a, b, le);
      MultisetTail(a, b);
      SortedUnique(a[1..], b[1..], le);
      assert a == [a[0]] + a[1..] && b == [b[0]] + b[1..];
    } else {
      assert |b| == |multiset(b)|;
    }
  }

  /** The sort of `s` is the one sorted arrangement of its elements when `le` only ties equal elements. */
  lemma SortIsUnique<T(!new)>(s: seq<T>, t: seq<T>, le: (T, T) -> bool)
    requires TotalPreorder(le) && Sorted(t, le) && multiset(t) == multiset(s)
    requires forall x, y :: x in t && y in t && le(x, y) && le(y, x) ==> x == y
    ensures Sort(s, le) == t
  {
    SortSorted(s, le);
    var r := Sort(s, le);
    forall x, y | x in r && y in r && le(x, y) && le(y, x) ensures x == y {
      assert x in multiset(r) && y in multiset(r);
      assert x in multiset(t) && y in multiset(t);
    }
    SortedUnique(r, t, le);
  }

  /** A list whose neighbours are in order is sorted. */
  lemma {:induction false} SortedFromAdjacent<T(!new)>(s: seq<T>, le: (T, T) -> bool)
    requires TotalPreorder(le)
    requires forall i :: 0 <= i < |s| - 1 ==> le(s[i], s[i + 1])
    ensures Sorted(s, le)
  {
    if |s| > 1 {
      SortedFromAdjacent(s[1..], le);
      forall j | 0 < j < |s| ensures le(s[0], s[j]) {
        if j > 1 { assert le(s[1], s[j]) by { assert s[1..][0] == s[1] && s[1..][j - 1] == s[j]; } }
      }
      forall i, j | 0 <= i < j < |s| ensures le(s[i], s[j]) {
        if i > 0 { assert s[1..][i - 1] == s[i] && s[1..][j - 1] == s[j]; }
      }
    }
  }
}
