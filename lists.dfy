/**
 * Generic list operations the application uses in several places: keeping
 * the last `n` entries, dropping repeated entries in first-occurrence order,
 * and the distinctness facts about them.
 */
module Lists {

  predicate NoDup<T(==)>(s: seq<T>) {
    forall i, j :: 0 <= i < j < |s| ==> s[i] != s[j]
  }

  /** `s[-n:]` in Python, `s.slice(-n)` in JavaScript: the last `n` entries, or all of them. */
  function LastN<T>(s: seq<T>, n: nat): (r: seq<T>)
    ensures |r| == if |s| <= n then |s| else n
    ensures r == s[|s| - |r|..]
  {
    if |s| <= n then s else s[|s| - n..]
  }

  /** The last `n` entries of `a + b` come from `a` or `b`, are all of them when both fit, and end with `b` when it fits. */
  lemma LastNOfAppend<T>(a: seq<T>, b: seq<T>, n: nat)
    ensures forall x :: x in LastN(a + b, n) ==> x in a || x in b
    ensures |a| + |b| <= n ==> LastN(a + b, n) == a + b
    ensures |b| <= n ==> |b| <= |LastN(a + b, n)| && LastN(a + b, n)[|LastN(a + b, n)| - |b|..] == b
  {
    var all := a + b;
    var r := LastN(all, n);
    forall x | x in r ensures x in a || x in b {
      var i :| 0 <= i < |r| && r[i] == x;
      assert x == all[|all| - |r| + i];
    }
    if |b| <= n {
      assert r[|r| - |b|..] == all[|all| - |b|..];
      assert all[|all| - |b|..] == b;
    }
  }

  /** The position of the first `x` in `s`. */
  function FirstIndex<T(==)>(s: seq<T>, x: T): (i: nat)
    requires x in s
    ensures i < |s| && s[i] == x && x !in s[..i]
  {
    if s[0] == x then 0 else FirstIndex(s[1..], x) + 1
  }

  /**
   * The items of `added` that are in neither `seen` nor earlier in `added`,
   * in the order of their first occurrence.
   */
  function Fresh<T(==,!new)>(added: seq<T>, seen: seq<T>): (r: seq<T>)
    ensures forall x :: x in r <==> x in added && x !in seen
    ensures NoDup(r)
    ensures |r| <= |added|
    ensures forall i, j :: 0 <= i < j < |r| ==> FirstIndex(added, r[i]) < FirstIndex(added, r[j])
  {
    if added == [] then []
    else if added[0] in seen then
      var rest := Fresh(added[1..], seen);
      FirstIndexTail(added, rest);
      rest
    else
      var rest := Fresh(added[1..], seen + [added[0]]);
      assert added[0] !in rest;
      FirstIndexTail(added, rest);
      [added[0]] + rest
  }

  /** Items past the head of `s` that differ from it are found one position later in `s`. */
  lemma FirstIndexTail<T>(s: seq<T>, r: seq<T>)
    requires s != []
    requires forall x :: x in r ==> x in s[1..] && x != s[0]
    ensures forall x :: x in r ==> x in s
    ensures forall i :: 0 <= i < |r| ==> FirstIndex(s, r[i]) == FirstIndex(s[1..], r[i]) + 1
  {
    assert s == [s[0]] + s[1..];
    forall i | 0 <= i < |r|
      ensures r[i] in s && FirstIndex(s, r[i]) == FirstIndex(s[1..], r[i]) + 1
    {
      assert r[i] in r;
    }
  }

  /** `[...new Set(s)]`: each item once, in first-occurrence order. */
  function Dedupe<T(==,!new)>(s: seq<T>): (r: seq<T>)
    ensures forall x :: x in r <==> x in s
    ensures NoDup(r)
    ensures forall i, j :: 0 <= i < j < |r| ==> FirstIndex(s, r[i]) < FirstIndex(s, r[j])
  {
    Fresh(s, [])
  }

  lemma NoDupAppend<T>(a: seq<T>, b: seq<T>)
    requires NoDup(a) && NoDup(b)
    requires forall x :: x in b ==> x !in a
    ensures NoDup(a + b)
  {
    forall i, j | 0 <= i < j < |a + b| ensures (a + b)[i] != (a + b)[j] {
      if i < |a| && j >= |a| {
        assert (a + b)[j] == b[j - |a|];
        assert (a + b)[j] in b;
      }
    }
  }

  lemma NoDupSuffix<T>(s: seq<T>, k: nat)
    requires NoDup(s) && k <= |s|
    ensures NoDup(s[k..])
  {
    forall i, j | 0 <= i < j < |s| - k ensures s[k..][i] != s[k..][j] {
      assert s[k..][i] == s[k + i] && s[k..][j] == s[k + j];
    }
  }
}
