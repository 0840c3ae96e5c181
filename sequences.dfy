/** Generic operations on sequences that stand for the pandas and Python
    list primitives the services use: boolean-mask filtering, sorting by a
    key, `unique`, `sum`, `mean`, `head` and slicing. */
module Sequences {

  // ---------------------------------------------------------------------
  // filtering (a boolean mask over the rows)

  /** Keeps the elements satisfying `p`, in order. */
  function Filter<T(!new)>(s: seq<T>, p: T -> bool): (r: seq<T>)
    ensures |r| <= |s|
    ensures forall x :: multiset(r)[x] == if p(x) then multiset(s)[x] else 0
    decreases |s|
  {
    if s == [] then []
    else
      assert s == [s[0]] + s[1..];
      if p(s[0]) then [s[0]] + Filter(s[1..], p) else Filter(s[1..], p)
  }

  lemma FilterMembers<T(!new)>(s: seq<T>, p: T -> bool)
    ensures forall x :: x in Filter(s, p) <==> x in s && p(x)
  {
    forall x ensures x in Filter(s, p) <==> x in s && p(x) {
      assert x in Filter(s, p) <==> multiset(Filter(s, p))[x] > 0;
      assert x in s <==> multiset(s)[x] > 0;
    }
  }

  /** Filtering by two pointwise-equal masks gives the same rows. */
  lemma {:induction false} FilterExt<T(!new)>(s: seq<T>, p: T -> bool, q: T -> bool)
    requires forall x :: p(x) == q(x)
    ensures Filter(s, p) == Filter(s, q)
    decreases |s|
  {
    if s != [] {
      FilterExt(s[1..], p, q);
    }
  }

  /** A mask that holds everywhere keeps every row. */
  lemma {:induction false} FilterAll<T(!new)>(s: seq<T>, p: T -> bool)
    requires forall x :: p(x)
    ensures Filter(s, p) == s
    decreases |s|
  {
    if s != [] {
      FilterAll(s[1..], p);
      assert s == [s[0]] + s[1..];
    }
  }

  /** Applying two masks one after the other is applying their conjunction. */
  lemma {:induction false} FilterFilter<T(!new)>(s: seq<T>, p: T -> bool, q: T -> bool, pq: T -> bool)
    requires forall x :: pq(x) == (p(x) && q(x))
    ensures Filter(Filter(s, p), q) == Filter(s, pq)
    decreases |s|
  {
    if s != [] {
      var rest := Filter(s[1..], p);
      FilterFilter(s[1..], p, q, pq);
      if p(s[0]) {
        var head := [s[0]] + rest;
        assert Filter(s, p) == head;
        assert head[0] == s[0] && head[1..] == rest;
        assert Filter(head, q) == if q(s[0]) then [s[0]] + Filter(rest, q) else Filter(rest, q);
      } else {
        assert Filter(s, p) == rest;
      }
    }
  }

  /** One unfolding of the filter on an explicit head. */
  lemma FilterCons<T(!new)>(h: T, t: seq<T>, p: T -> bool)
    ensures Filter([h] + t, p) == if p(h) then [h] + Filter(t, p) else Filter(t, p)
  {
    var s := [h] + t;
    assert s[0] == h && s[1..] == t;
  }

  lemma ConsAppend<T>(h: T, x: seq<T>, y: seq<T>)
    ensures [h] + (x + y) == ([h] + x) + y
  {
  }

  /** Filtering distributes over concatenation. */
  lemma {:induction false} FilterAppend<T(!new)>(a: seq<T>, b: seq<T>, p: T -> bool)
    ensures Filter(a + b, p) == Filter(a, p) + Filter(b, p)
    decreases |a|
  {
    if a == [] {
      assert a + b == b;
    } else {
      var h, t := a[0], a[1..];
      assert a == [h] + t;
      assert a + b == [h] + (t + b);
      FilterCons(h, t + b, p);
      FilterCons(h, t, p);
      FilterAppend(t, b, p);
      if p(h) {
        ConsAppend(h, Filter(t, p), Filter(b, p));
      }
    }
  }

  /** `n` copies of `x`. */
  function Repeat<T>(x: T, n: nat): (r: seq<T>)
    ensures |r| == n
    ensures forall i :: 0 <= i < n ==> r[i] == x
  {
    seq(n, _ => x)
  }

  /** The count of `x` in a non-empty sequence: its head, then its tail. */
  lemma CountCons<T>(s: seq<T>, x: T)
    requires s != []
    ensures multiset(s)[x] == (if s[0] == x then 1 else 0) + multiset(s[1..])[x]
  {
    assert s == [s[0]] + s[1..];
  }

  lemma RepeatCons<T>(x: T, n: nat)
    ensures [x] + Repeat(x, n) == Repeat(x, n + 1)
  {
    assert forall i :: 0 <= i < n + 1 ==> ([x] + Repeat(x, n))[i] == x;
  }

  lemma FilterSingleton<T(!new)>(x: T, p: T -> bool)
    ensures Filter([x], p) == if p(x) then [x] else []
  {
    assert [x][1..] == [];
  }

  /** Filtering two permutations of each other gives permutations of each other. */
  lemma FilterPermutation<T(!new)>(s: seq<T>, t: seq<T>, p: T -> bool)
    requires multiset(s) == multiset(t)
    ensures multiset(Filter(s, p)) == multiset(Filter(t, p))
  {
    forall x ensures multiset(Filter(s, p))[x] == multiset(Filter(t, p))[x] {
    }
  }

  // ---------------------------------------------------------------------
  // sorting

  /** `le` is total and transitive: a key order with possible ties. */
  ghost predicate TotalPreorder<T(!new)>(le: (T, T) -> bool) {
    && (forall a, b :: le(a, b) || le(b, a))
    && (forall a, b, c :: le(a, b) && le(b, c) ==> le(a, c))
  }

  ghost predicate Antisymmetric<T(!new)>(le: (T, T) -> bool) {
    forall a, b :: le(a, b) && le(b, a) ==> a == b
  }

  predicate SortedBy<T(!new)>(s: seq<T>, le: (T, T) -> bool) {
    forall i, j :: 0 <= i < j < |s| ==> le(s[i], s[j])
  }

  function InsertBy<T(!new)>(x: T, s: seq<T>, le: (T, T) -> bool): (r: seq<T>)
    ensures multiset(r) == multiset(s) + multiset{x}
    decreases |s|
  {
    if s == [] || le(x, s[0]) then [x] + s
    else
      assert s == [s[0]] + s[1..];
      [s[0]] + InsertBy(x, s[1..], le)
  }

  /** Sorting by `le` (an insertion sort): the result is a permutation of
      the input. */
  function SortBy<T(!new)>(s: seq<T>, le: (T, T) -> bool): (r: seq<T>)
    ensures multiset(r) == multiset(s)
    decreases |s|
  {
    if s == [] then []
    else
      assert s == [s[0]] + s[1..];
      InsertBy(s[0], SortBy(s[1..], le), le)
  }

  lemma {:induction false} InsertBySorted<T(!new)>(x: T, s: seq<T>, le: (T, T) -> bool)
    requires TotalPreorder(le) && SortedBy(s, le)
    ensures SortedBy(InsertBy(x, s, le), le)
    decreases |s|
  {
    if s != [] && !le(x, s[0]) {
      var tail := InsertBy(x, s[1..], le);
      InsertBySorted(x, s[1..], le);
      forall y | y in tail
        ensures le(s[0], y)
      {
        assert y in multiset(tail);
        if y != x {
          assert y in s[1..];
        }
      }
    }
  }

  /** Sorting by a total preorder yields a sequence ordered by it. */
  lemma {:induction false} SortBySorted<T(!new)>(s: seq<T>, le: (T, T) -> bool)
    requires TotalPreorder(le)
    ensures SortedBy(SortBy(s, le), le)
    decreases |s|
  {
    if s != [] {
      SortBySorted(s[1..], le);
      InsertBySorted(s[0], SortBy(s[1..], le), le);
    }
  }

  // ---------------------------------------------------------------------
  // duplicates

  predicate NoDup<T(==)>(s: seq<T>) {
    forall i, j :: 0 <= i < j < |s| ==> s[i] != s[j]
  }

  /** The position of the first occurrence of `x` in `s`. */
  function FirstIndex<T(==)>(s: seq<T>, x: T): (k: nat)
    requires x in s
    ensures k < |s| && s[k] == x
    ensures forall j :: 0 <= j < k ==> s[j] != x
  {
    if s[0] == x then 0 else 1 + FirstIndex(s[1..], x)
  }

  /** Appending an element does not move the first occurrence of a value
      already present. */
  lemma FirstIndexAppend<T>(s: seq<T>, y: T, x: T)
    requires x in s
    ensures FirstIndex(s + [y], x) == FirstIndex(s, x)
  {
    var k := FirstIndex(s, x);
    assert (s + [y])[k] == x;
  }

  /** pandas `unique()`: the distinct elements in order of first appearance. */
  function Unique<T(==,!new)>(s: seq<T>): (r: seq<T>)
    ensures NoDup(r)
    ensures forall x :: x in r <==> x in s
    decreases |s|
  {
    if s == [] then []
    else
      var u := Unique(s[..|s| - 1]);
      assert s == s[..|s| - 1] + [s[|s| - 1]];
      if s[|s| - 1] in u then u else u + [s[|s| - 1]]
  }

  /** The unique values come in the order of their first appearance. */
  lemma {:induction false} UniqueFirstAppearanceOrder<T(!new)>(s: seq<T>)
    ensures forall i, j :: 0 <= i < j < |Unique(s)| ==> FirstIndex(s, Unique(s)[i]) < FirstIndex(s, Unique(s)[j])
    decreases |s|
  {
    if s != [] {
      var init, last := s[..|s| - 1], s[|s| - 1];
      UniqueFirstAppearanceOrder(init);
      assert s == init + [last];
      var u := Unique(init);
      forall x | x in init
        ensures FirstIndex(s, x) == FirstIndex(init, x)
      {
        FirstIndexAppend(init, last, x);
      }
      if last !in u {
        forall i | 0 <= i < |u|
          ensures FirstIndex(s, u[i]) < FirstIndex(s, last)
        {
          assert u[i] in init;
        }
      }
    }
  }

  lemma {:induction false} NoDupCounts<T(!new)>(s: seq<T>)
    requires NoDup(s)
    ensures forall x :: multiset(s)[x] <= 1
    decreases |s|
  {
    if s != [] {
      NoDupCounts(s[1..]);
      assert s == [s[0]] + s[1..];
      assert s[0] !in s[1..];
    }
  }

  lemma RepeatedCount<T(!new)>(t: seq<T>, i: nat, j: nat)
    requires i < j < |t|
    ensures t[i] == t[j] ==> multiset(t)[t[i]] >= 2
  {
    assert t == t[..j] + t[j..];
    assert t[i] in t[..j];
    assert t[j] in t[j..];
    assert multiset(t)[t[j]] == multiset(t[..j])[t[j]] + multiset(t[j..])[t[j]];
  }

  lemma CountsNoDup<T(!new)>(t: seq<T>)
    requires forall x :: multiset(t)[x] <= 1
    ensures NoDup(t)
  {
    forall i, j | 0 <= i < j < |t|
      ensures t[i] != t[j]
    {
      RepeatedCount(t, i, j);
    }
  }

  /** Being duplicate-free is a property of the multiset of elements. */
  lemma NoDupPermutation<T(!new)>(s: seq<T>, t: seq<T>)
    requires NoDup(s) && multiset(s) == multiset(t)
    ensures NoDup(t)
  {
    NoDupCounts(s);
    CountsNoDup(t);
  }

  /** Python's `sorted(set_of_values)`: the distinct values, ascending. */
  function SortedDistinct<T(==,!new)>(s: seq<T>, le: (T, T) -> bool): seq<T> {
    SortBy(Unique(s), le)
  }

  lemma SortedDistinctSpec<T(!new)>(s: seq<T>, le: (T, T) -> bool)
    requires TotalPreorder(le)
    ensures SortedBy(SortedDistinct(s, le), le)
    ensures NoDup(SortedDistinct(s, le))
    ensures forall x :: x in SortedDistinct(s, le) <==> x in s
  {
    var u := Unique(s);
    SortBySorted(u, le);
    NoDupPermutation(u, SortBy(u, le));
    forall x ensures x in SortBy(u, le) <==> x in u {
      assert x in SortBy(u, le) <==> x in multiset(SortBy(u, le));
    }
  }

  lemma SameMembersEmpty<T(!new)>(r1: seq<T>, r2: seq<T>)
    requires forall x :: x in r1 <==> x in r2
    ensures r1 == [] <==> r2 == []
  {
    if r1 != [] {
      assert r1[0] in r2;
    }
    if r2 != [] {
      assert r2[0] in r1;
    }
  }

  /** Under an antisymmetric order there is only one sorted duplicate-free
      arrangement of a set of values. */
  lemma {:induction false} SortedDistinctUnique<T(!new)>(r1: seq<T>, r2: seq<T>, le: (T, T) -> bool)
    requires Antisymmetric(le)
    requires SortedBy(r1, le) && NoDup(r1) && SortedBy(r2, le) && NoDup(r2)
    requires forall x :: x in r1 <==> x in r2
    ensures r1 == r2
    decreases |r1|
  {
    SameMembersEmpty(r1, r2);
    if r1 != [] {
      assert r1[0] in r2;
      var k :| 0 <= k < |r2| && r2[k] == r1[0];
      assert r2 != [];
      assert r2[0] in r1;
      var m :| 0 <= m < |r1| && r1[m] == r2[0];
      assert le(r2[0], r2[k]) || k == 0;
      assert le(r1[0], r1[m]) || m == 0;
      assert r1[0] == r2[0];
      forall x
        ensures x in r1[1..] <==> x in r2[1..]
      {
        if x in r1[1..] {
          var i :| 1 <= i < |r1| && r1[i] == x;
          assert x != r1[0];
          assert x in r2;
        }
        if x in r2[1..] {
          var i :| 1 <= i < |r2| && r2[i] == x;
          assert x != r2[0];
          assert x in r1;
        }
      }
      SortedDistinctUnique(r1[1..], r2[1..], le);
      assert r1 == [r1[0]] + r1[1..] && r2 == [r2[0]] + r2[1..];
    }
  }

  /** `sorted(unique(...))` depends only on which values occur. */
  lemma SortedDistinctSameValues<T(!new)>(s: seq<T>, t: seq<T>, le: (T, T) -> bool)
    requires TotalPreorder(le) && Antisymmetric(le)
    requires forall x :: x in s <==> x in t
    ensures SortedDistinct(s, le) == SortedDistinct(t, le)
  {
    SortedDistinctSpec(s, le);
    SortedDistinctSpec(t, le);
    SortedDistinctUnique(SortedDistinct(s, le), SortedDistinct(t, le), le);
  }

  // ---------------------------------------------------------------------
  // sums and means

  function Sum<T(!new)>(s: seq<T>, f: T -> real): real
    decreases |s|
  {
    if s == [] then 0.0 else f(s[0]) + Sum(s[1..], f)
  }

  lemma {:induction false} SumAppend<T(!new)>(s: seq<T>, t: seq<T>, f: T -> real)
    ensures Sum(s + t, f) == Sum(s, f) + Sum(t, f)
    decreases |s|
  {
    if s != [] {
      assert (s + t)[0] == s[0];
      assert (s + t)[1..] == s[1..] + t;
      assert Sum(s + t, f) == f(s[0]) + Sum(s[1..] + t, f);
      SumAppend(s[1..], t, f);
    } else {
      assert s + t == t;
    }
  }

  /** Removing the element at `k` removes one copy of it. */
  lemma MultisetRemoveAt<T>(t: seq<T>, k: int)
    requires 0 <= k < |t|
    ensures multiset(t[..k] + t[k + 1..]) == multiset(t) - multiset{t[k]}
  {
    assert t == t[..k] + [t[k]] + t[k + 1..];
  }

  /** A sum is the removed term plus the sum of the rest. */
  lemma SumRemoveAt<T(!new)>(t: seq<T>, k: int, f: T -> real)
    requires 0 <= k < |t|
    ensures Sum(t, f) == f(t[k]) + Sum(t[..k] + t[k + 1..], f)
  {
    assert t == t[..k] + [t[k]] + t[k + 1..];
    SumAppend(t[..k] + [t[k]], t[k + 1..], f);
    SumAppend(t[..k], [t[k]], f);
    SumAppend(t[..k], t[k + 1..], f);
  }

  /** A sum does not depend on the order of the rows. */
  lemma {:induction false} SumPermutation<T(!new)>(s: seq<T>, t: seq<T>, f: T -> real)
    requires multiset(s) == multiset(t)
    ensures Sum(s, f) == Sum(t, f)
    decreases |s|
  {
    if s != [] {
      assert s == [s[0]] + s[1..];
      assert multiset(s[1..]) == multiset(s) - multiset{s[0]};
      assert s[0] in multiset(t);
      var k :| 0 <= k < |t| && t[k] == s[0];
      MultisetRemoveAt(t, k);
      SumPermutation(s[1..], t[..k] + t[k + 1..], f);
      SumRemoveAt(t, k, f);
    }
  }

  /** A sum of non-negative terms is non-negative. */
  lemma {:induction false} SumNonNegative<T(!new)>(s: seq<T>, f: T -> real)
    requires forall i :: 0 <= i < |s| ==> f(s[i]) >= 0.0
    ensures Sum(s, f) >= 0.0
    decreases |s|
  {
    if s != [] {
      SumNonNegative(s[1..], f);
    }
  }

  /** The arithmetic mean; 0.0 for no rows (the callers never ask for it). */
  function Mean<T(!new)>(s: seq<T>, f: T -> real): real {
    if |s| == 0 then 0.0 else Sum(s, f) / |s| as real
  }

  lemma MeanPermutation<T(!new)>(s: seq<T>, t: seq<T>, f: T -> real)
    requires multiset(s) == multiset(t)
    ensures Mean(s, f) == Mean(t, f)
  {
    SumPermutation(s, t, f);
    assert |s| == |multiset(s)| == |t|;
  }

  /** The mean of non-negative terms is non-negative. */
  lemma MeanNonNegative<T(!new)>(s: seq<T>, f: T -> real)
    requires forall i :: 0 <= i < |s| ==> f(s[i]) >= 0.0
    ensures Mean(s, f) >= 0.0
  {
    SumNonNegative(s, f);
  }

  // ---------------------------------------------------------------------
  // slicing

  /** Python's clamping of a slice bound `i` against a length `n`;
      a negative bound counts from the end. */
  function SliceIndex(i: int, n: nat): (k: nat)
    ensures k <= n
    ensures 0 <= i <= n ==> k == i
    ensures i > n ==> k == n
  {
    if i < 0 then (if i + n < 0 then 0 else i + n)
    else if i > n then n
    else i
  }

  /** Python's `s[start:stop]` (and pandas `iloc[start:stop]`). */
  function Slice<T(!new)>(s: seq<T>, start: int, stop: int): (r: seq<T>)
    ensures |r| <= |s|
    ensures 0 <= start <= stop <= |s| ==> r == s[start..stop]
    ensures 0 <= start < |s| && stop == -1 ==> r == s[start..|s| - 1]
    ensures |s| <= start && stop == -1 ==> r == []
  {
    var a, b := SliceIndex(start, |s|), SliceIndex(stop, |s|);
    if a <= b then s[a..b] else []
  }

  /** pandas `head(n)` for `n >= 0`. */
  function Take<T(!new)>(s: seq<T>, n: nat): (r: seq<T>)
    ensures |r| == if n < |s| then n else |s|
    ensures r == s[..|r|]
  {
    if n < |s| then s[..n] else s
  }
  /** A prefix holds no element more often than the whole sequence. */
  lemma TakeSubMultiset<T(!new)>(s: seq<T>, n: nat)
    ensures multiset(Take(s, n)) <= multiset(s)
  {
    var top := Take(s, n);
    assert s == top + s[|top|..];
  }

}
