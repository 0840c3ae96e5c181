/** The pandas column and group-by operations the backend applies to a
    table of vaccine records: column extraction, the orders used to sort
    strings and years, `groupby("year")` with its sorted index, and
    per-key market-size totals. */
module Tables {
  import opened Strings
  import opened Sequences
  import opened Models

  predicate IntLe(a: int, b: int) {
    a <= b
  }

  /** Python's `<=` on `str` is a total order. */
  lemma StrLeIsTotalOrder()
    ensures TotalPreorder(StrLe) && Antisymmetric(StrLe)
  {
    forall a, b
      ensures StrLe(a, b) || StrLe(b, a)
    {
      StrLessTotal(a, b);
    }
    forall a, b, c | StrLe(a, b) && StrLe(b, c)
      ensures StrLe(a, c)
    {
      if StrLess(a, b) && StrLess(b, c) {
        StrLessTransitive(a, b, c);
      }
    }
    forall a, b | StrLe(a, b) && StrLe(b, a)
      ensures a == b
    {
      if StrLess(a, b) {
        StrLessAsymmetric(a, b);
      }
    }
  }

  lemma IntLeIsTotalOrder()
    ensures TotalPreorder(IntLe) && Antisymmetric(IntLe)
  {
  }

  // ---------------------------------------------------------------------
  // columns

  function MarketSize(r: VaccineRecord): real { r.marketSizeUsd }
  function AvgPrice(r: VaccineRecord): real { r.avgPriceUsd }
  function DosesSold(r: VaccineRecord): real { r.dosesSoldMillion }
  function GrowthRate(r: VaccineRecord): real { r.growthRatePercent }
  function RegionOf(r: VaccineRecord): string { r.region }
  function BrandOf(r: VaccineRecord): string { r.brand }

  /** The `year` column. */
  function Years(rows: seq<VaccineRecord>): (ys: seq<int>)
    ensures |ys| == |rows|
    ensures forall i :: 0 <= i < |rows| ==> ys[i] == rows[i].year
  {
    seq(|rows|, i requires 0 <= i < |rows| => rows[i].year)
  }

  /** A string column, chosen by `key`. */
  function Column(rows: seq<VaccineRecord>, key: VaccineRecord -> string): (c: seq<string>)
    ensures |c| == |rows|
    ensures forall i :: 0 <= i < |rows| ==> c[i] == key(rows[i])
  {
    seq(|rows|, i requires 0 <= i < |rows| => key(rows[i]))
  }

  lemma YearsMembers(rows: seq<VaccineRecord>, y: int)
    ensures y in Years(rows) <==> exists r :: r in rows && r.year == y
  {
    if y in Years(rows) {
      var i :| 0 <= i < |rows| && Years(rows)[i] == y;
      assert rows[i] in rows;
    }
    if exists r :: r in rows && r.year == y {
      var r :| r in rows && r.year == y;
      var i :| 0 <= i < |rows| && rows[i] == r;
      assert Years(rows)[i] == y;
    }
  }

  lemma ColumnMembers(rows: seq<VaccineRecord>, key: VaccineRecord -> string, k: string)
    ensures k in Column(rows, key) <==> exists r :: r in rows && key(r) == k
  {
    if k in Column(rows, key) {
      var i :| 0 <= i < |rows| && Column(rows, key)[i] == k;
      assert rows[i] in rows;
    }
    if exists r :: r in rows && key(r) == k {
      var r :| r in rows && key(r) == k;
      var i :| 0 <= i < |rows| && rows[i] == r;
      assert Column(rows, key)[i] == k;
    }
  }

  // ---------------------------------------------------------------------
  // group by year

  /** The index of `groupby("year")`: the distinct years, ascending. */
  function DistinctYears(rows: seq<VaccineRecord>): (ys: seq<int>)
    ensures forall i, j :: 0 <= i < j < |ys| ==> ys[i] < ys[j]
    ensures forall y :: y in ys <==> y in Years(rows)
    ensures |ys| <= |rows|
  {
    IntLeIsTotalOrder();
    SortedDistinctSpec(Years(rows), IntLe);
    DistinctBound(Years(rows), IntLe);
    SortedDistinct(Years(rows), IntLe)
  }

  lemma DistinctBound(s: seq<int>, le: (int, int) -> bool)
    ensures |SortedDistinct(s, le)| <= |s|
  {
    UniqueShorter(s);
    var u := Unique(s);
    assert |SortBy(u, le)| == |multiset(SortBy(u, le))| == |multiset(u)| == |u|;
  }

  lemma {:induction false} UniqueShorter<T(!new)>(s: seq<T>)
    ensures |Unique(s)| <= |s|
    decreases |s|
  {
    if s != [] {
      UniqueShorter(s[..|s| - 1]);
    }
  }

  function YearIs(y: int): VaccineRecord -> bool {
    (r: VaccineRecord) => r.year == y
  }

  /** The rows of one year group. */
  function RowsInYear(rows: seq<VaccineRecord>, y: int): seq<VaccineRecord> {
    Filter(rows, YearIs(y))
  }

  /** A year that occurs in the table has a non-empty group. */
  lemma RowsInYearNonEmpty(rows: seq<VaccineRecord>, y: int)
    requires y in Years(rows)
    ensures |RowsInYear(rows, y)| > 0
  {
    YearsMembers(rows, y);
    var r :| r in rows && r.year == y;
    FilterMembers(rows, YearIs(y));
    assert r in RowsInYear(rows, y);
  }

  /** The group-by index depends only on which rows there are, not on their order. */
  lemma DistinctYearsPermutation(s: seq<VaccineRecord>, t: seq<VaccineRecord>)
    requires multiset(s) == multiset(t)
    ensures DistinctYears(s) == DistinctYears(t)
  {
    forall y ensures y in Years(s) <==> y in Years(t) {
      YearsMembers(s, y);
      YearsMembers(t, y);
      assert forall r :: r in s <==> r in t by {
        forall r ensures r in s <==> r in t {
          assert r in s <==> r in multiset(s);
          assert r in t <==> r in multiset(t);
        }
      }
    }
    IntLeIsTotalOrder();
    SortedDistinctSameValues(Years(s), Years(t), IntLe);
  }

  /** The last entry of the year index is the latest year in the table. */
  lemma LastDistinctYearIsMax(rows: seq<VaccineRecord>)
    requires |rows| > 0
    ensures |DistinctYears(rows)| > 0
    ensures var ys := DistinctYears(rows);
            forall r :: r in rows ==> r.year <= ys[|ys| - 1]
  {
    var ys := DistinctYears(rows);
    assert rows[0].year in Years(rows);
    forall r | r in rows
      ensures r.year <= ys[|ys| - 1]
    {
      YearsMembers(rows, r.year);
      var i :| 0 <= i < |ys| && ys[i] == r.year;
    }
  }

  /** The sum of column `f` over the rows of year `y` (one cell of
      `groupby("year")[...].sum()`), accumulated row by row. */
  function YearSum(rows: seq<VaccineRecord>, y: int, f: VaccineRecord -> real): real
    decreases |rows|
  {
    if rows == [] then 0.0
    else (if rows[0].year == y then f(rows[0]) else 0.0) + YearSum(rows[1..], y, f)
  }

  /** The number of rows of year `y`. */
  function YearCount(rows: seq<VaccineRecord>, y: int): nat
    decreases |rows|
  {
    if rows == [] then 0
    else (if rows[0].year == y then 1 else 0) + YearCount(rows[1..], y)
  }

  /** The mean of column `f` over the rows of year `y`; 0 for a year with no rows. */
  function YearMean(rows: seq<VaccineRecord>, y: int, f: VaccineRecord -> real): real {
    if YearCount(rows, y) == 0 then 0.0 else YearSum(rows, y, f) / YearCount(rows, y) as real
  }

  /** A per-year sum of non-negative values is non-negative. */
  lemma {:induction false} YearSumNonNegative(rows: seq<VaccineRecord>, y: int, f: VaccineRecord -> real)
    requires forall k :: 0 <= k < |rows| ==> f(rows[k]) >= 0.0
    ensures YearSum(rows, y, f) >= 0.0
    decreases |rows|
  {
    if rows != [] {
      YearSumNonNegative(rows[1..], y, f);
    }
  }

  /** The running sum is the sum over the year's group. */
  lemma {:induction false} YearSumIsGroupSum(rows: seq<VaccineRecord>, y: int, f: VaccineRecord -> real)
    ensures YearSum(rows, y, f) == Sum(RowsInYear(rows, y), f)
    decreases |rows|
  {
    if rows != [] {
      YearSumIsGroupSum(rows[1..], y, f);
    }
  }

  /** The running count is the size of the year's group. */
  lemma {:induction false} YearCountIsGroupSize(rows: seq<VaccineRecord>, y: int)
    ensures YearCount(rows, y) == |RowsInYear(rows, y)|
    decreases |rows|
  {
    if rows != [] {
      YearCountIsGroupSize(rows[1..], y);
    }
  }

  /** The per-year mean is the mean over the year's group, which is never
      empty for a year of the table. */
  lemma YearMeanIsGroupMean(rows: seq<VaccineRecord>, y: int, f: VaccineRecord -> real)
    ensures YearMean(rows, y, f) == Mean(RowsInYear(rows, y), f)
    ensures y in Years(rows) ==> YearCount(rows, y) > 0
  {
    YearSumIsGroupSum(rows, y, f);
    YearCountIsGroupSize(rows, y);
    if y in Years(rows) {
      RowsInYearNonEmpty(rows, y);
    }
  }

  /** Per-year sums and counts do not depend on the order of the rows. */
  lemma YearGroupPermutation(s: seq<VaccineRecord>, t: seq<VaccineRecord>, y: int, f: VaccineRecord -> real)
    requires multiset(s) == multiset(t)
    ensures YearSum(s, y, f) == YearSum(t, y, f)
    ensures YearCount(s, y) == YearCount(t, y)
    ensures YearMean(s, y, f) == YearMean(t, y, f)
  {
    FilterPermutation(s, t, YearIs(y));
    SumPermutation(RowsInYear(s, y), RowsInYear(t, y), f);
    YearSumIsGroupSum(s, y, f);
    YearSumIsGroupSum(t, y, f);
    YearCountIsGroupSize(s, y);
    YearCountIsGroupSize(t, y);
    var gs, gt := RowsInYear(s, y), RowsInYear(t, y);
    assert |gs| == |multiset(gs)| == |multiset(gt)| == |gt|;
  }

  /** The latest year in a non-empty table (pandas `max()` of the year column). */
  function MaxYear(rows: seq<VaccineRecord>): (m: int)
    requires |rows| > 0
    ensures exists r :: r in rows && r.year == m
    ensures forall r :: r in rows ==> r.year <= m
    decreases |rows|
  {
    if |rows| == 1 then rows[0].year
    else
      var m := MaxYear(rows[1..]);
      assert forall r :: r in rows[1..] ==> r in rows;
      assert forall r :: r in rows ==> r == rows[0] || r in rows[1..];
      if rows[0].year > m then rows[0].year else m
  }

  /** The latest year is the last of the distinct years. */
  lemma MaxYearIsLastDistinct(rows: seq<VaccineRecord>)
    requires |rows| > 0
    ensures |DistinctYears(rows)| > 0
    ensures MaxYear(rows) == DistinctYears(rows)[|DistinctYears(rows)| - 1]
  {
    LastDistinctYearIsMax(rows);
    var ys := DistinctYears(rows);
    var last := ys[|ys| - 1];
    assert last in ys;
    YearsMembers(rows, last);
    var r :| r in rows && r.year == last;
    var q :| q in rows && q.year == MaxYear(rows);
  }

  // ---------------------------------------------------------------------
  // group by a string key, summing market size

  function KeyIs(key: VaccineRecord -> string, k: string): VaccineRecord -> bool {
    (r: VaccineRecord) => key(r) == k
  }

  /** One group of `groupby(key)["market_size_usd"].sum()`. */
  datatype KeyTotal = KeyTotal(key: string, total: real)

  /** The market-size total of the rows whose key is `k`. */
  function TotalFor(rows: seq<VaccineRecord>, key: VaccineRecord -> string, k: string): real {
    Sum(Filter(rows, KeyIs(key, k)), MarketSize)
  }

  /** `groupby(key)["market_size_usd"].sum()`: one entry per distinct key,
      keys ascending. */
  function GroupTotals(rows: seq<VaccineRecord>, key: VaccineRecord -> string): (g: seq<KeyTotal>)
    ensures forall i, j :: 0 <= i < j < |g| ==> StrLess(g[i].key, g[j].key)
    ensures forall k :: (exists i :: 0 <= i < |g| && g[i].key == k) <==> k in Column(rows, key)
    ensures forall i :: 0 <= i < |g| ==> g[i].total == TotalFor(rows, key, g[i].key)
  {
    var ks := SortedDistinct(Column(rows, key), StrLe);
    StrLeIsTotalOrder();
    SortedDistinctSpec(Column(rows, key), StrLe);
    var g := seq(|ks|, i requires 0 <= i < |ks| => KeyTotal(ks[i], TotalFor(rows, key, ks[i])));
    assert forall k :: (exists i :: 0 <= i < |g| && g[i].key == k) <==> k in ks by {
      forall k ensures (exists i :: 0 <= i < |g| && g[i].key == k) <==> k in ks {
        if k in ks {
          var i :| 0 <= i < |ks| && ks[i] == k;
          assert g[i].key == k;
        }
      }
    }
    g
  }
}
