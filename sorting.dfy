/** Python's stable sort (`list.sort(key=...)`, `sorted(..., key=...)`), as insertion sort:
    a specification on sequences and an in-place version on arrays that is proved equal to it.
    Elements are compared only by `lt` on their keys, as Python compares only with `<`. */
module Sorting {

  /** `lt` is a strict total order on keys. */
  ghost predicate IsStrictTotalOrder<K(!new)>(lt: (K, K) -> bool)
  {
    && (forall x :: !lt(x, x))
    && (forall x, y, z :: lt(x, y) && lt(y, z) ==> lt(x, z))
    && (forall x, y :: x != y ==> lt(x, y) || lt(y, x))
  }

  /** No element is strictly smaller, by key, than one before it. */
  ghost predicate SortedBy<T, K>(s: seq<T>, key: T -> K, lt: (K, K) -> bool)
  {
    forall i, j :: 0 <= i < j < |s| ==> !lt(key(s[j]), key(s[i]))
  }

  /** The elements of `s` whose key is `k`, in their order in `s`. */
  function WithKey<T, K(==)>(s: seq<T>, key: T -> K, k: K): seq<T>
  {
    if s == [] then []
    else WithKey(s[..|s| - 1], key, k) + (if key(s[|s| - 1]) == k then [s[|s| - 1]] else [])
  }

  /** Insert `x` into `s` behind every element whose key is not strictly greater than its own. */
  function Insert<T, K>(s: seq<T>, x: T, key: T -> K, lt: (K, K) -> bool): seq<T>
  {
    if s == [] || !lt(key(x), key(s[|s| - 1])) then s + [x]
    else Insert(s[..|s| - 1], x, key, lt) + [s[|s| - 1]]
  }

  /** The stable sort of `s` by `key`. */
  function StableSort<T, K>(s: seq<T>, key: T -> K, lt: (K, K) -> bool): seq<T>
  {
    if s == [] then [] else Insert(StableSort(s[..|s| - 1], key, lt), s[|s| - 1], key, lt)
  }

  // ---------------------------------------------------------------------------------------------
  // The sort is a permutation

  lemma {:induction false} InsertPermutes<T, K>(s: seq<T>, x: T, key: T -> K, lt: (K, K) -> bool)
    ensures multiset(Insert(s, x, key, lt)) == multiset(s) + multiset{x}
  {
    if s != [] && lt(key(x), key(s[|s| - 1])) {
      InsertPermutes(s[..|s| - 1], x, key, lt);
      assert s == s[..|s| - 1] + [s[|s| - 1]];
    }
  }

  /** The output of the sort holds the same elements, as often, as its input. */
  lemma {:induction false} SortPermutes<T, K>(s: seq<T>, key: T -> K, lt: (K, K) -> bool)
    ensures multiset(StableSort(s, key, lt)) == multiset(s)
    ensures |StableSort(s, key, lt)| == |s|
  {
    if s != [] {
      SortPermutes(s[..|s| - 1], key, lt);
      InsertPermutes(StableSort(s[..|s| - 1], key, lt), s[|s| - 1], key, lt);
      assert s == s[..|s| - 1] + [s[|s| - 1]];
    }
  }

  // ---------------------------------------------------------------------------------------------
  // The sort orders by key

  lemma {:induction false} NotLessTransitive<K(!new)>(lt: (K, K) -> bool, a: K, b: K, c: K)
    requires IsStrictTotalOrder(lt)
    requires !lt(a, b) && !lt(b, c)
    ensures !lt(a, c)
  {
  }

  lemma {:induction false} InsertSorted<T, K(!new)>(s: seq<T>, x: T, key: T -> K, lt: (K, K) -> bool)
    requires IsStrictTotalOrder(lt)
    requires SortedBy(s, key, lt)
    ensures SortedBy(Insert(s, x, key, lt), key, lt)
  {
    var r := Insert(s, x, key, lt);
    if s == [] {
    } else if !lt(key(x), key(s[|s| - 1])) {
      forall i, j | 0 <= i < j < |r| ensures !lt(key(r[j]), key(r[i])) {
        if j == |s| && i < |s| - 1 {
          NotLessTransitive(lt, key(x), key(s[|s| - 1]), key(s[i]));
        }
      }
    } else {
      var init, last := s[..|s| - 1], s[|s| - 1];
      var r0 := Insert(init, x, key, lt);
      InsertSorted(init, x, key, lt);
      InsertPermutes(init, x, key, lt);
      forall i, j | 0 <= i < j < |r| ensures !lt(key(r[j]), key(r[i])) {
        if j == |r| - 1 {
          var e := r0[i];
          assert e in multiset(r0);
          if e == x {
          } else {
            assert e in multiset(init);
            var m :| 0 <= m < |init| && init[m] == e;
            assert s[m] == e;
          }
        }
      }
    }
  }

  /** Given a strict total order on keys, the output of the sort is ordered by key. */
  lemma {:induction false} SortSorted<T, K(!new)>(s: seq<T>, key: T -> K, lt: (K, K) -> bool)
    requires IsStrictTotalOrder(lt)
    ensures SortedBy(StableSort(s, key, lt), key, lt)
  {
    if s != [] {
      SortSorted(s[..|s| - 1], key, lt);
      InsertSorted(StableSort(s[..|s| - 1], key, lt), s[|s| - 1], key, lt);
    }
  }

  // ---------------------------------------------------------------------------------------------
  // The sort is stable

  lemma {:induction false} WithKeyAppend<T, K>(s: seq<T>, x: T, key: T -> K, k: K)
    ensures WithKey(s + [x], key, k) == WithKey(s, key, k) + (if key(x) == k then [x] else [])
  {
    assert (s + [x])[..|s|] == s;
  }

  lemma {:induction false} InsertKeepsKeyOrder<T, K(!new)>(s: seq<T>, x: T, key: T -> K, lt: (K, K) -> bool, k: K)
    requires forall y :: !lt(y, y)
    ensures WithKey(Insert(s, x, key, lt), key, k) == WithKey(s, key, k) + (if key(x) == k then [x] else [])
  {
    if s != [] && lt(key(x), key(s[|s| - 1])) {
      var init, last := s[..|s| - 1], s[|s| - 1];
      InsertKeepsKeyOrder(init, x, key, lt, k);
      WithKeyAppend(Insert(init, x, key, lt), last, key, k);
      assert key(x) != key(last);
    } else {
      WithKeyAppend(s, x, key, k);
    }
  }

  /** Stability: for every key, the elements with that key leave the sort in the order in
      which they entered it. Only irreflexivity of `lt` is needed. */
  lemma {:induction false} SortStable<T, K(!new)>(s: seq<T>, key: T -> K, lt: (K, K) -> bool, k: K)
    requires forall y :: !lt(y, y)
    ensures WithKey(StableSort(s, key, lt), key, k) == WithKey(s, key, k)
  {
    if s != [] {
      SortStable(s[..|s| - 1], key, lt, k);
      InsertKeepsKeyOrder(StableSort(s[..|s| - 1], key, lt), s[|s| - 1], key, lt, k);
    }
  }

  // ---------------------------------------------------------------------------------------------
  // In place

  /** One shift of the insertion loop, on the array's contents: the hole at `j` takes the
      element before it, and the hole moves to `j - 1`. */
  lemma {:induction false} ShiftHole<T>(sorted: seq<T>, j: nat, hole: T, rest: seq<T>)
    requires 0 < j <= |sorted|
    ensures (sorted[..j] + [hole] + sorted[j..] + rest)[j := sorted[j - 1]]
      == sorted[..j - 1] + [sorted[j - 1]] + sorted[j - 1..] + rest
  {
    var u := (sorted[..j] + [hole] + sorted[j..] + rest)[j := sorted[j - 1]];
    var v := sorted[..j - 1] + [sorted[j - 1]] + sorted[j - 1..] + rest;
    assert |u| == |v|;
    forall k | 0 <= k < |u| ensures u[k] == v[k] {
      if k < j - 1 {
      } else if k == j - 1 || k == j {
      } else if k <= |sorted| {
        assert u[k] == sorted[k - 1];
      }
    }
  }

  /** The insertion point is left of `j` when `x` sorts before the element at `j - 1`. */
  lemma {:induction false} InsertPassesOne<T, K>(sorted: seq<T>, j: nat, x: T, key: T -> K, lt: (K, K) -> bool)
    requires 0 < j <= |sorted| && lt(key(x), key(sorted[j - 1]))
    ensures Insert(sorted[..j], x, key, lt) + sorted[j..] == Insert(sorted[..j - 1], x, key, lt) + sorted[j - 1..]
  {
    assert sorted[..j][..j - 1] == sorted[..j - 1];
    assert sorted[j - 1..] == [sorted[j - 1]] + sorted[j..];
  }

  /** The insertion point is `j` when `x` does not sort before the element at `j - 1`. */
  lemma {:induction false} InsertStopsAt<T, K>(sorted: seq<T>, j: nat, x: T, key: T -> K, lt: (K, K) -> bool)
    requires j <= |sorted| && (j == 0 || !lt(key(x), key(sorted[j - 1])))
    ensures Insert(sorted[..j], x, key, lt) == sorted[..j] + [x]
  {
  }

  /** Move `a[i]` left past every element of the sorted prefix `a[..i]` whose key is strictly
      greater: one step of the insertion sort. */
  method InsertInPlace<T, K>(a: array<T>, i: nat, key: T -> K, lt: (K, K) -> bool)
    requires i < a.Length
    modifies a
    ensures a[..i + 1] == Insert(old(a[..i]), old(a[i]), key, lt)
    ensures a[i + 1..] == old(a[i + 1..])
  {
    var x := a[i];
    ghost var sorted, rest := a[..i], a[i + 1..];
    assert sorted[..i] == sorted && sorted[i..] == [];
    assert a[..] == sorted[..i] + [a[i]] + sorted[i..] + rest;
    var j := i;
    while j > 0 && lt(key(x), key(a[j - 1]))
      invariant 0 <= j <= i
      invariant a[..] == sorted[..j] + [a[j]] + sorted[j..] + rest
      invariant Insert(sorted, x, key, lt) == Insert(sorted[..j], x, key, lt) + sorted[j..]
    {
      ghost var before := a[..];
      assert a[j - 1] == sorted[j - 1];
      InsertPassesOne(sorted, j, x, key, lt);
      a[j] := a[j - 1];
      assert a[..] == before[j := sorted[j - 1]];
      ShiftHole(sorted, j, before[j], rest);
      j := j - 1;
    }
    ghost var before := a[..];
    assert j > 0 ==> a[j - 1] == sorted[j - 1];
    InsertStopsAt(sorted, j, x, key, lt);
    a[j] := x;
    assert a[..] == before[j := x];
    ghost var inserted := sorted[..j] + [x] + sorted[j..];
    assert a[..] == inserted + rest;
    assert a[..i + 1] == inserted;
  }

  /** Sort `a` in place, stably, by `key`: the insertion sort that `StableSort` describes. */
  method SortInPlace<T, K>(a: array<T>, key: T -> K, lt: (K, K) -> bool)
    modifies a
    ensures a[..] == StableSort(old(a[..]), key, lt)
  {
    ghost var input := a[..];
    var i := 0;
    while i < a.Length
      invariant 0 <= i <= a.Length
      invariant a[..i] == StableSort(input[..i], key, lt)
      invariant a[i..] == input[i..]
    {
      assert a[i] == a[i..][0] == input[i];
      assert a[i + 1..] == a[i..][1..] == input[i + 1..];
      InsertInPlace(a, i, key, lt);
      assert input[..i + 1][..i] == input[..i];
      assert StableSort(input[..i + 1], key, lt) == Insert(StableSort(input[..i], key, lt), input[i], key, lt);
      i := i + 1;
    }
    assert a[..] == a[..a.Length];
    assert input == input[..a.Length];
  }
}
