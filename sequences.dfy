/** The array operations the pages build every figure and every edit from:
    `reduce` with `+` (Sum), `filter` (Filter, RemoveById), `map` that
    replaces the records with one id (ReplaceById), `find` on a key
    (FindByKey), and the replace-or-prepend upsert shared by the ledger, the
    notices and the activities. */
module Sequences {
  import opened Types

  /** `s.reduce((acc, x) => acc + w(x), 0)`. */
  function Sum<T>(s: seq<T>, w: T -> int): (r: int)
    ensures (forall k :: 0 <= k < |s| ==> w(s[k]) >= 0) ==> r >= 0
    ensures s == [] ==> r == 0
  {
    if s == [] then 0 else w(s[0]) + Sum(s[1..], w)
  }

  /** `s.filter(p)`. */
  function Filter<T>(s: seq<T>, p: T -> bool): (r: seq<T>)
    ensures |r| <= |s|
    ensures forall k :: 0 <= k < |r| ==> r[k] in s && p(r[k])
    ensures forall k :: 0 <= k < |s| && p(s[k]) ==> s[k] in r
    ensures (forall i :: 0 <= i < |s| ==> p(s[i])) ==> r == s
  {
    if s == [] then []
    else if p(s[0]) then [s[0]] + Filter(s[1..], p)
    else Filter(s[1..], p)
  }

  /** `s.filter(x => idOf(x) !== id)`: deletion by id. */
  function RemoveById<T>(s: seq<T>, idOf: T -> string, id: string): (r: seq<T>)
    ensures |r| <= |s|
    ensures forall k :: 0 <= k < |r| ==> r[k] in s && idOf(r[k]) != id
    ensures forall k :: 0 <= k < |s| && idOf(s[k]) != id ==> s[k] in r
    ensures (forall i :: 0 <= i < |s| ==> idOf(s[i]) != id) ==> r == s
  {
    if s == [] then []
    else if idOf(s[0]) != id then [s[0]] + RemoveById(s[1..], idOf, id)
    else RemoveById(s[1..], idOf, id)
  }

  /** `s.map(x => idOf(x) === id ? y : x)`. */
  function ReplaceById<T>(s: seq<T>, idOf: T -> string, id: string, y: T): (r: seq<T>)
    ensures |r| == |s|
    ensures forall k :: 0 <= k < |s| && idOf(s[k]) == id ==> r[k] == y
    ensures forall k :: 0 <= k < |s| && idOf(s[k]) != id ==> r[k] == s[k]
  {
    if s == [] then [] else [if idOf(s[0]) == id then y else s[0]] + ReplaceById(s[1..], idOf, id, y)
  }

  /** The form-submit pattern: a draft that carries an id (a non-empty
      string) replaces the records with that id in place; a draft without
      one puts the new record at the front. */
  function Upsert<T>(s: seq<T>, idOf: T -> string, draftId: string, y: T): (r: seq<T>)
    ensures draftId != "" ==> r == ReplaceById(s, idOf, draftId, y)
    ensures draftId == "" ==> |r| == |s| + 1 && r[0] == y && r[1..] == s
  {
    if draftId != "" then ReplaceById(s, idOf, draftId, y) else [y] + s
  }

  /** `s.find(x => key(x) === k)`: the first record whose key is `k`. */
  function FindByKey<T>(s: seq<T>, key: T -> string, k: string): (r: Option<T>)
    ensures r.None? <==> forall i :: 0 <= i < |s| ==> key(s[i]) != k
    ensures r.Some? ==> exists i :: IsFirstKey(s, key, k, i) && s[i] == r.value
  {
    match FirstIndex(s, key, k)
    case None => None
    case Some(i) => Some(s[i])
  }

  /** The index of the first record whose key is `k`. */
  function FirstIndex<T>(s: seq<T>, key: T -> string, k: string): (r: Option<nat>)
    ensures r.None? <==> forall i :: 0 <= i < |s| ==> key(s[i]) != k
    ensures r.Some? ==> IsFirstKey(s, key, k, r.value)
  {
    if s == [] then None
    else if key(s[0]) == k then Some(0)
    else
      match FirstIndex(s[1..], key, k)
      case None => None
      case Some(i) => Some(i + 1)
  }

  /** Index `i` holds the first record of `s` whose key is `k`. */
  predicate IsFirstKey<T>(s: seq<T>, key: T -> string, k: string, i: int)
  {
    0 <= i < |s| && key(s[i]) == k && forall j :: 0 <= j < i ==> key(s[j]) != k
  }

  /** There is at most one first index for a key. */
  lemma FirstKeyIsUnique<T>(s: seq<T>, key: T -> string, k: string)
    ensures forall i, j :: IsFirstKey(s, key, k, i) && IsFirstKey(s, key, k, j) ==> i == j
  {
  }

  /** Every record's key differs from every other's. */
  predicate UniqueKeys<T>(s: seq<T>, key: T -> string)
  {
    forall i, j :: 0 <= i < j < |s| ==> key(s[i]) != key(s[j])
  }

  lemma {:induction false} SumConcat<T>(a: seq<T>, b: seq<T>, w: T -> int)
    ensures Sum(a + b, w) == Sum(a, w) + Sum(b, w)
    decreases |a|
  {
    if a == [] {
      assert a + b == b;
    } else {
      assert (a + b)[1..] == a[1..] + b;
      SumConcat(a[1..], b, w);
    }
  }

  /** Summing removes one element's weight when that element is taken out. */
  lemma SumRemoveAt<T>(s: seq<T>, i: int, w: T -> int)
    requires 0 <= i < |s|
    ensures Sum(s, w) == w(s[i]) + Sum(s[..i] + s[i+1..], w)
  {
    assert s == s[..i] + ([s[i]] + s[i+1..]);
    SumConcat(s[..i], [s[i]] + s[i+1..], w);
    SumConcat(s[..i], s[i+1..], w);
  }

  /** A sum does not depend on the order of the records. */
  lemma {:induction false} SumPermutation<T>(a: seq<T>, b: seq<T>, w: T -> int)
    requires multiset(a) == multiset(b)
    ensures Sum(a, w) == Sum(b, w)
    decreases |a|
  {
    if a == [] {
      assert |multiset(b)| == 0;
    } else {
      var x := a[0];
      assert x in multiset(b);
      var j :| 0 <= j < |b| && b[j] == x;
      var b' := b[..j] + b[j+1..];
      assert b == b[..j] + [x] + b[j+1..];
      assert multiset(b') == multiset(b) - multiset{x};
      assert a == [x] + a[1..];
      SumPermutation(a[1..], b', w);
      SumRemoveAt(b, j, w);
    }
  }

  /** A list with unique keys keeps them unique without its first record. */
  lemma UniqueKeysTail<T>(s: seq<T>, key: T -> string)
    requires s != [] && UniqueKeys(s, key)
    ensures UniqueKeys(s[1..], key)
    ensures forall k :: 1 <= k < |s| ==> key(s[k]) != key(s[0])
  {
    var t := s[1..];
    forall a, b | 0 <= a < b < |t| ensures key(t[a]) != key(t[b]) {
      assert t[a] == s[a + 1] && t[b] == s[b + 1];
    }
  }

  /** Deleting an id other than the first record's keeps that record in front. */
  lemma RemoveByIdKeepsHead<T>(s: seq<T>, idOf: T -> string, id: string)
    requires s != [] && idOf(s[0]) != id
    ensures RemoveById(s, idOf, id) == [s[0]] + RemoveById(s[1..], idOf, id)
  {
  }

  lemma DropAtTail<T>(s: seq<T>, i: int)
    requires 0 < i < |s|
    ensures s[..i] + s[i+1..] == [s[0]] + (s[1..][..i - 1] + s[1..][i..])
  {
  }

  /** With unique ids, deleting the id at index `i` removes exactly that record. */
  lemma {:induction false} RemoveUniqueAt<T>(s: seq<T>, idOf: T -> string, i: int)
    requires 0 <= i < |s| && UniqueKeys(s, idOf)
    ensures RemoveById(s, idOf, idOf(s[i])) == s[..i] + s[i+1..]
    decreases i
  {
    var id := idOf(s[i]);
    var t := s[1..];
    UniqueKeysTail(s, idOf);
    if i == 0 {
      assert forall k :: 0 <= k < |t| ==> idOf(t[k]) != id by {
        forall k | 0 <= k < |t| ensures idOf(t[k]) != id {
          assert t[k] == s[k + 1];
        }
      }
      assert RemoveById(t, idOf, id) == t;
    } else {
      assert t[i - 1] == s[i];
      RemoveByIdKeepsHead(s, idOf, id);
      RemoveUniqueAt(t, idOf, i - 1);
      DropAtTail(s, i);
    }
  }

  /** Two lists whose records weigh the same position by position have the same sum. */
  lemma {:induction false} SumPointwise<T>(a: seq<T>, b: seq<T>, w: T -> int)
    requires |a| == |b| && forall k :: 0 <= k < |a| ==> w(a[k]) == w(b[k])
    ensures Sum(a, w) == Sum(b, w)
    decreases |a|
  {
    if a != [] {
      SumPointwise(a[1..], b[1..], w);
    }
  }

  /** Replacing one record changes the sum by the difference of the two weights. */
  lemma SumUpdate<T>(s: seq<T>, i: int, y: T, w: T -> int)
    requires 0 <= i < |s|
    ensures Sum(s[i := y], w) == Sum(s, w) - w(s[i]) + w(y)
  {
    SumRemoveAt(s, i, w);
    SumRemoveAt(s[i := y], i, w);
    assert s[i := y][..i] + s[i := y][i+1..] == s[..i] + s[i+1..];
  }

  /** Replacing one record changes a filtered count by whether the old and
      the new record pass. */
  lemma {:induction false} FilterCountUpdate<T>(s: seq<T>, i: int, y: T, p: T -> bool)
    requires 0 <= i < |s|
    ensures |Filter(s[i := y], p)| == |Filter(s, p)| - (if p(s[i]) then 1 else 0) + (if p(y) then 1 else 0)
    decreases |s|
  {
    if i == 0 {
      assert s[i := y][1..] == s[1..];
    } else {
      assert s[i := y][1..] == s[1..][i - 1 := y];
      FilterCountUpdate(s[1..], i - 1, y, p);
    }
  }

  /** With unique ids, replacing the id at index `i` updates exactly that record. */
  lemma ReplaceUniqueAt<T>(s: seq<T>, idOf: T -> string, i: int, y: T)
    requires 0 <= i < |s| && UniqueKeys(s, idOf)
    ensures ReplaceById(s, idOf, idOf(s[i]), y) == s[i := y]
  {
    var r := ReplaceById(s, idOf, idOf(s[i]), y);
    forall k | 0 <= k < |s| ensures r[k] == s[i := y][k] {
      if k != i {
        assert idOf(s[k]) != idOf(s[i]) by {
          if k < i { assert UniqueKeys(s, idOf); } else { assert UniqueKeys(s, idOf); }
        }
      }
    }
  }

  /** Deletion by id is the filter that keeps every other record, so the
      survivors keep their order. */
  lemma {:induction false} RemoveByIdIsFilter<T>(s: seq<T>, idOf: T -> string, id: string)
    ensures RemoveById(s, idOf, id) == Filter(s, (x: T) => idOf(x) != id)
    decreases |s|
  {
    if s != [] {
      RemoveByIdIsFilter(s[1..], idOf, id);
    }
  }
  /** Filtering a concatenation filters each part and keeps them in order. */
  lemma {:induction false} FilterConcat<T>(a: seq<T>, b: seq<T>, p: T -> bool)
    ensures Filter(a + b, p) == Filter(a, p) + Filter(b, p)
    decreases |a|
  {
    if a == [] {
      assert a + b == b;
    } else {
      assert (a + b)[0] == a[0] && (a + b)[1..] == a[1..] + b;
      FilterConcat(a[1..], b, p);
    }
  }

  /** A single record is kept exactly when it passes. With FilterConcat this
      fixes the filter's result completely: order and multiplicity included. */
  lemma FilterSingleton<T>(x: T, p: T -> bool)
    ensures Filter([x], p) == if p(x) then [x] else []
  {
    assert [x][1..] == [];
  }
}
