/**
 * The user-memory merge of the backend (`merge_memory`): the facts already
 * stored about a user are combined, category by category, with newly extracted
 * facts. Empty incoming values never erase anything, list categories are
 * unioned and capped at their most recent 20 entries, and any other value
 * replaces the old one.
 */
module Memory {
  import opened Lists

  /** A JSON value as it is stored in the memory document. */
  datatype Value =
    | Null
    | Bool(b: bool)
    | Num(n: int)
    | Str(s: string)
    | List(items: seq<Value>)
    | Obj(fields: map<string, Value>)

  /** A memory document: category name to value. */
  type Mem = map<string, Value>

  /** The maximum number of entries a list category keeps. */
  const ListCap: nat := 20

  /** `value is None or value == '' or value == []`. */
  predicate IsEmptyValue(v: Value) {
    v == Null || v == Str("") || v == List([])
  }

  /** `[v for v in new if v not in old]`: every new item not in the old list, in order. */
  function NotIn(added: seq<Value>, prev: seq<Value>): (r: seq<Value>)
    ensures forall x :: x in r <==> x in added && x !in prev
    ensures |r| <= |added|
  {
    if added == [] then []
    else (if added[0] in prev then [] else [added[0]]) + NotIn(added[1..], prev)
  }

  /** The list merge as `merge_memory` writes it: the old list, the new items it
      lacks, then the cap. A repeated added item is kept twice. */
  function CombineAsWritten(prev: seq<Value>, added: seq<Value>): (r: seq<Value>)
    ensures |r| <= ListCap
    ensures forall x :: x in r ==> x in prev || x in added
    ensures |prev| + |added| <= ListCap ==> prev <= r && forall x :: x in added ==> x in r
    ensures var all := prev + NotIn(added, prev);
      |r| == (if |all| <= ListCap then |all| else ListCap) && r == all[|all| - |r|..]
  {
    LastNOfAppend(prev, NotIn(added, prev), ListCap);
    LastN(prev + NotIn(added, prev), ListCap)
  }

  lemma CombineNoDup(prev: seq<Value>, added: seq<Value>)
    ensures NoDup(prev) ==> NoDup(LastN(prev + Fresh(added, prev), ListCap))
  {
    var all := prev + Fresh(added, prev);
    if NoDup(prev) {
      NoDupAppend(prev, Fresh(added, prev));
      NoDupSuffix(all, |all| - |LastN(all, ListCap)|);
    }
  }

  /** The list merge with the repeated new items collapsed: the old list, each
      added item it lacks once, then the cap to the most recent 20. */
  function Combine(prev: seq<Value>, added: seq<Value>): (r: seq<Value>)
    ensures |r| <= ListCap
    ensures forall x :: x in r ==> x in prev || x in added
    ensures NoDup(prev) ==> NoDup(r)
    ensures |prev| + |added| <= ListCap ==> prev <= r && forall x :: x in added ==> x in r
    ensures |Fresh(added, prev)| <= ListCap ==>
      |Fresh(added, prev)| <= |r| && r[|r| - |Fresh(added, prev)|..] == Fresh(added, prev)
    ensures var all := prev + Fresh(added, prev);
      |r| == (if |all| <= ListCap then |all| else ListCap) && r == all[|all| - |r|..]
  {
    var lacking := Fresh(added, prev);
    var all := prev + lacking;
    CombineNoDup(prev, added);
    LastNOfAppend(prev, lacking, ListCap);
    LastN(all, ListCap)
  }

  /** An old item that no new item equals filters nothing out. */
  lemma {:induction false} NotInIgnores(added: seq<Value>, prev: seq<Value>, y: Value)
    requires y !in added
    ensures NotIn(added, prev + [y]) == NotIn(added, prev)
  {
    if added != [] {
      NotInIgnores(added[1..], prev, y);
    }
  }

  /** Without repeats inside the new list the written filter and the corrected one agree. */
  lemma {:induction false} FreshIsNotIn(added: seq<Value>, prev: seq<Value>)
    requires NoDup(added)
    ensures Fresh(added, prev) == NotIn(added, prev)
  {
    if added != [] {
      var rest := added[1..];
      assert NoDup(rest) by {
        forall i, j | 0 <= i < j < |rest| ensures rest[i] != rest[j] {
          assert rest[i] == added[i + 1] && rest[j] == added[j + 1];
        }
      }
      if added[0] in prev {
        FreshIsNotIn(rest, prev);
      } else {
        assert added[0] !in rest by {
          forall k | 0 <= k < |rest| ensures rest[k] != added[0] {
            assert rest[k] == added[k + 1];
          }
        }
        FreshIsNotIn(rest, prev + [added[0]]);
        NotInIgnores(rest, prev, added[0]);
      }
    }
  }

  /** So the corrected merge differs from the written one only on a new list with repeats. */
  lemma CombineAgreesWithoutRepeats(prev: seq<Value>, added: seq<Value>)
    requires NoDup(added)
    ensures Combine(prev, added) == CombineAsWritten(prev, added)
  {
    FreshIsNotIn(added, prev);
  }

  /** A list merged with a list of duplicates keeps both copies as written, but not once corrected. */
  lemma CombineAsWrittenKeepsDuplicates()
    ensures CombineAsWritten([Str("tennis")], [Str("chess"), Str("chess")])
            == [Str("tennis"), Str("chess"), Str("chess")]
    ensures !NoDup(CombineAsWritten([Str("tennis")], [Str("chess"), Str("chess")]))
    ensures Combine([Str("tennis")], [Str("chess"), Str("chess")]) == [Str("tennis"), Str("chess")]
  {
    var prev, added := [Str("tennis")], [Str("chess"), Str("chess")];
    assert NotIn(added[1..], prev) == [Str("chess")];
    assert NotIn(added, prev) == [Str("chess"), Str("chess")];
    assert Fresh([], prev + [Str("chess")]) == [];
    assert Fresh(added[1..], prev + [Str("chess")]) == [];
    assert Fresh(added, prev) == [Str("chess")];
    assert prev + NotIn(added, prev) == [Str("tennis"), Str("chess"), Str("chess")];
    var r := CombineAsWritten(prev, added);
    assert r == LastN(prev + NotIn(added, prev), ListCap);
    assert r[1] == r[2];
    assert prev + Fresh(added, prev) == [Str("tennis"), Str("chess")];
  }

  /** What `merge_memory` leaves under key `k` once `k` has been processed. */
  predicate MergedAt(existing: Mem, incoming: Mem, merged: Mem, k: string)
    requires k in incoming
  {
    var v := incoming[k];
    if IsEmptyValue(v) then
      (k in existing <==> k in merged) && (k in existing ==> merged[k] == existing[k])
    else if k !in existing then
      k in merged && merged[k] == v
    else if v.List? && existing[k].List? then
      k in merged && merged[k] == List(Combine(existing[k].items, v.items))
    else
      k in merged && merged[k] == v
  }

  /** The loop state after the keys `done` of `incoming` have been processed. */
  ghost predicate MergedOn(existing: Mem, incoming: Mem, done: set<string>, merged: Mem)
    requires done <= incoming.Keys
  {
    (forall k :: k in done ==> MergedAt(existing, incoming, merged, k))
    && (forall k :: k !in done ==> (k in merged <==> k in existing))
    && (forall k :: k !in done && k in existing ==> merged[k] == existing[k])
  }

  /**
   * `merged` is what `merge_memory(existing, incoming)` returns: the existing
   * categories plus the non-empty incoming ones; an empty or absent incoming
   * value keeps the existing one, a new category is adopted, two lists are
   * combined, and any other incoming value replaces the old one.
   */
  ghost predicate IsMerge(existing: Mem, incoming: Mem, merged: Mem) {
    (forall k :: k in merged <==> k in existing || (k in incoming && !IsEmptyValue(incoming[k])))
    && (forall k :: k in existing && (k !in incoming || IsEmptyValue(incoming[k])) ==>
         merged[k] == existing[k])
    && (forall k :: k in incoming && !IsEmptyValue(incoming[k]) && k !in existing ==>
         merged[k] == incoming[k])
    && (forall k ::
         (k in incoming && !IsEmptyValue(incoming[k]) && k in existing
          && incoming[k].List? && existing[k].List?) ==>
         merged[k] == List(Combine(existing[k].items, incoming[k].items)))
    && (forall k ::
         (k in incoming && !IsEmptyValue(incoming[k]) && k in existing
          && !(incoming[k].List? && existing[k].List?)) ==>
         merged[k] == incoming[k])
  }

  /** The merge is determined by its two inputs: the order the keys are visited in does not matter. */
  lemma MergeIsUnique(existing: Mem, incoming: Mem, m1: Mem, m2: Mem)
    requires IsMerge(existing, incoming, m1) && IsMerge(existing, incoming, m2)
    ensures m1 == m2
  {
    assert m1.Keys == m2.Keys;
    forall k | k in m1 ensures m1[k] == m2[k] {
      if k in incoming && !IsEmptyValue(incoming[k]) && k in existing && incoming[k].List? && existing[k].List? {
      } else if k in incoming && !IsEmptyValue(incoming[k]) {
      } else {
      }
    }
  }

  /**
   * `merge_memory(existing, new)`: copies the existing document and folds the
   * incoming categories into it one key at a time.
   */
  method MergeMemory(existing: Mem, incoming: Mem) returns (merged: Mem)
    ensures IsMerge(existing, incoming, merged)
  {
    merged := existing;
    var todo := incoming.Keys;
    while todo != {}
      invariant todo <= incoming.Keys
      invariant MergedOn(existing, incoming, incoming.Keys - todo, merged)
      decreases |todo|
    {
      var key :| key in todo;
      var value := incoming[key];
      ghost var before := merged;
      if IsEmptyValue(value) {
      } else if key !in merged {
        merged := merged[key := value];
      } else if value.List? && merged[key].List? {
        merged := merged[key := List(Combine(merged[key].items, value.items))];
      } else {
        merged := merged[key := value];
      }
      todo := todo - {key};
      forall k | k in incoming.Keys - todo
        ensures MergedAt(existing, incoming, merged, k)
      {
        if k != key { assert MergedAt(existing, incoming, before, k); }
      }
    }
    assert incoming.Keys - todo == incoming.Keys;
    forall k | k in incoming && !IsEmptyValue(incoming[k])
      ensures k in merged
    {
      assert MergedAt(existing, incoming, merged, k);
    }
  }
}
