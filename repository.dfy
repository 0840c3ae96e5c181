/** The data-access layer (backend/app/repositories/vaccine_repository.py):
    a repository that normalises the table once when it is built and then
    answers filtered, sorted and paginated queries over it. The table is a
    `const` field, so no query can change it. */
module Repository {
  import opened Wrappers
  import opened Strings
  import opened Sequences
  import opened Models
  import opened Tables

  // ---------------------------------------------------------------------
  // loading

  /** One row as it comes out of the CSV file: the insight cell may be empty. */
  datatype CsvRow = CsvRow(
    region: string,
    brand: string,
    year: int,
    marketSizeUsd: real,
    avgPriceUsd: real,
    dosesSoldMillion: real,
    growthRatePercent: real,
    insight: Option<string>)

  /** A string with no whitespace at either end. */
  predicate Stripped(s: string) {
    s == [] || (!IsSpace(s[0]) && !IsSpace(s[|s| - 1]))
  }

  /** The load-time clean-up of one row: region and brand are stripped and
      a missing insight becomes the empty string. */
  function NormalizeRow(c: CsvRow): VaccineRecord {
    VaccineRecord(Strip(c.region), Strip(c.brand), c.year, c.marketSizeUsd, c.avgPriceUsd,
                  c.dosesSoldMillion, c.growthRatePercent, c.insight.GetOr(""))
  }

  /** The cleaned table: one record per CSV row, in file order, with no
      surrounding whitespace on region or brand. */
  function NormalizeTable(rows: seq<CsvRow>): (df: seq<VaccineRecord>)
    ensures |df| == |rows|
    ensures forall i :: 0 <= i < |rows| ==> df[i] == NormalizeRow(rows[i])
    ensures forall i :: 0 <= i < |df| ==> Stripped(df[i].region) && Stripped(df[i].brand)
  {
    seq(|rows|, i requires 0 <= i < |rows| => NormalizeRow(rows[i]))
  }

  /** The record read back as a CSV row. */
  function AsCsvRow(r: VaccineRecord): CsvRow {
    CsvRow(r.region, r.brand, r.year, r.marketSizeUsd, r.avgPriceUsd,
           r.dosesSoldMillion, r.growthRatePercent, Some(r.insight))
  }

  /** Loading an already clean table again gives it back unchanged. */
  lemma NormalizeIdempotent(rows: seq<CsvRow>)
    ensures var df := NormalizeTable(rows);
            NormalizeTable(seq(|df|, i requires 0 <= i < |df| => AsCsvRow(df[i]))) == df
  {
    var df := NormalizeTable(rows);
    forall i | 0 <= i < |df|
      ensures NormalizeRow(AsCsvRow(df[i])) == df[i]
    {
      StripIdempotent(rows[i].region);
      StripIdempotent(rows[i].brand);
    }
  }

  // ---------------------------------------------------------------------
  // filtering

  /** `if filters.region:` — an absent or empty region filter imposes
      nothing; otherwise regions must agree after lowering both sides. */
  predicate MatchesRegion(r: VaccineRecord, region: Option<string>) {
    region.None? || region.value == "" || Lower(r.region) == Lower(region.value)
  }

  predicate MatchesBrand(r: VaccineRecord, brand: Option<string>) {
    brand.None? || brand.value == "" || Lower(r.brand) == Lower(brand.value)
  }

  /** `if filters.year:` — year 0 is falsy, so it imposes nothing either. */
  predicate MatchesYear(r: VaccineRecord, year: Option<int>) {
    year.None? || year.value == 0 || r.year == year.value
  }

  /** The three filters conjoined. */
  predicate Matches(r: VaccineRecord, f: VaccineFilters) {
    MatchesRegion(r, f.region) && MatchesBrand(r, f.brand) && MatchesYear(r, f.year)
  }

  function RegionMask(region: Option<string>): VaccineRecord -> bool {
    (r: VaccineRecord) => MatchesRegion(r, region)
  }

  function BrandMask(brand: Option<string>): VaccineRecord -> bool {
    (r: VaccineRecord) => MatchesBrand(r, brand)
  }

  function YearMask(year: Option<int>): VaccineRecord -> bool {
    (r: VaccineRecord) => MatchesYear(r, year)
  }

  function RegionBrandMask(f: VaccineFilters): VaccineRecord -> bool {
    (r: VaccineRecord) => MatchesRegion(r, f.region) && MatchesBrand(r, f.brand)
  }

  function FilterMask(f: VaccineFilters): VaccineRecord -> bool {
    (r: VaccineRecord) => Matches(r, f)
  }

  /** The rows of `df` that satisfy every filter, in table order. */
  function Matching(df: seq<VaccineRecord>, f: VaccineFilters): (m: seq<VaccineRecord>)
    ensures forall r :: r in m <==> r in df && Matches(r, f)
    ensures forall r :: multiset(m)[r] == if Matches(r, f) then multiset(df)[r] else 0
  {
    FilterMembers(df, FilterMask(f));
    Filter(df, FilterMask(f))
  }

  /** Narrowing the table region first, then brand, then year keeps exactly
      the rows that pass all three tests at once. */
  lemma StepwiseIsConjunction(df: seq<VaccineRecord>, f: VaccineFilters)
    ensures Filter(Filter(Filter(df, RegionMask(f.region)), BrandMask(f.brand)), YearMask(f.year))
            == Matching(df, f)
  {
    FilterFilter(df, RegionMask(f.region), BrandMask(f.brand), RegionBrandMask(f));
    FilterFilter(df, RegionBrandMask(f), YearMask(f.year), FilterMask(f));
  }

  /** With no filter set, every row matches. */
  lemma NoFiltersMatchAll(df: seq<VaccineRecord>)
    ensures Matching(df, NoFilters()) == df
  {
    FilterAll(df, FilterMask(NoFilters()));
  }

  /** Filters differing only in the case of region or brand select the same rows. */
  lemma FilterIgnoresCase(df: seq<VaccineRecord>, f: VaccineFilters, g: VaccineFilters)
    requires f.region.Some? <==> g.region.Some?
    requires f.region.Some? ==> EqualIgnoringCase(f.region.value, g.region.value)
    requires f.brand.Some? <==> g.brand.Some?
    requires f.brand.Some? ==> EqualIgnoringCase(f.brand.value, g.brand.value)
    requires f.year == g.year
    ensures Matching(df, f) == Matching(df, g)
  {
    if f.region.Some? {
      LowerEqualIff(f.region.value, g.region.value);
    }
    if f.brand.Some? {
      LowerEqualIff(f.brand.value, g.brand.value);
    }
    FilterExt(df, FilterMask(f), FilterMask(g));
  }

  // ---------------------------------------------------------------------
  // ordering

  /** `sort_values(["region", "brand", "year"])`: region, then brand, by
      Python string order on the raw (not lowered) text, then year. */
  predicate RecordLe(a: VaccineRecord, b: VaccineRecord) {
    || StrLess(a.region, b.region)
    || (a.region == b.region && StrLess(a.brand, b.brand))
    || (a.region == b.region && a.brand == b.brand && a.year <= b.year)
  }

  lemma RecordLeIsTotalPreorder()
    ensures TotalPreorder(RecordLe)
  {
    forall a, b
      ensures RecordLe(a, b) || RecordLe(b, a)
    {
      StrLessTotal(a.region, b.region);
      StrLessTotal(a.brand, b.brand);
    }
    forall a, b, c | RecordLe(a, b) && RecordLe(b, c)
      ensures RecordLe(a, c)
    {
      if StrLess(a.region, b.region) && StrLess(b.region, c.region) {
        StrLessTransitive(a.region, b.region, c.region);
      }
      if StrLess(a.brand, b.brand) && StrLess(b.brand, c.brand) {
        StrLessTransitive(a.brand, b.brand, c.brand);
      }
    }
  }

  /** The filtered view: the matching rows, ordered by (region, brand, year).
      The order among rows with equal keys is not part of the contract. */
  function SortedMatching(df: seq<VaccineRecord>, f: VaccineFilters): (rows: seq<VaccineRecord>)
    ensures multiset(rows) == multiset(Matching(df, f))
    ensures forall r :: r in rows <==> r in df && Matches(r, f)
    ensures SortedBy(rows, RecordLe)
  {
    RecordLeIsTotalPreorder();
    SortBySorted(Matching(df, f), RecordLe);
    var rows := SortBy(Matching(df, f), RecordLe);
    assert forall r :: r in rows <==> r in multiset(rows);
    rows
  }

  // ---------------------------------------------------------------------
  // pagination

  /** `iloc[offset:]`, then `iloc[:limit]` when a limit is given. */
  function Page(filtered: seq<VaccineRecord>, limit: Option<int>, offset: int): (page: seq<VaccineRecord>)
    ensures |page| <= |filtered|
  {
    var tail := Slice(filtered, offset, |filtered|);
    if limit.Some? then Slice(tail, 0, limit.value) else tail
  }

  function Min(a: int, b: int): int {
    if a <= b then a else b
  }

  /** With the bounds the query schema enforces, the page is the contiguous
      window `filtered[offset : offset + limit]` (to the end when no limit is
      given), of length `min(limit, max(0, total - offset))`; an offset at or
      past the end gives an empty page. */
  lemma PageIsWindow(filtered: seq<VaccineRecord>, limit: Option<int>, offset: int)
    requires offset >= 0
    requires limit.Some? ==> limit.value >= 0
    ensures var n := |filtered|;
            var lo := Min(offset, n);
            var hi := if limit.Some? then Min(n, lo + limit.value) else n;
            Page(filtered, limit, offset) == filtered[lo..hi]
    ensures var n := |filtered|;
            |Page(filtered, limit, offset)|
              == (if limit.Some? then Min(limit.value, if n - offset > 0 then n - offset else 0)
                  else if n - offset > 0 then n - offset else 0)
    ensures offset >= |filtered| ==> Page(filtered, limit, offset) == []
  {
    var n := |filtered|;
    var lo := Min(offset, n);
    var tail := Slice(filtered, offset, n);
    assert tail == filtered[lo..];
    if limit.Some? {
      var k := Min(limit.value, |tail|);
      assert Slice(tail, 0, limit.value) == tail[..k];
      assert tail[..k] == filtered[lo..lo + k];
    }
  }

  /** A record rejected while the page is turned into `VaccineRecord`s: its
      position in the page and the constraints it breaks. */
  datatype RecordError = RecordError(position: nat, violations: seq<Violation>)

  /** Building a model record from every row of the page; the first row
      that breaks a field constraint aborts the whole listing. */
  function BuildRecords(rows: seq<VaccineRecord>): (res: Result<seq<VaccineRecord>, RecordError>)
    ensures res.Ok? <==> forall i :: 0 <= i < |rows| ==> ValidRecord(rows[i])
    ensures res.Ok? ==> res.value == rows
    ensures res.Err? ==> var p := res.error.position;
                         && p < |rows|
                         && !ValidRecord(rows[p])
                         && res.error.violations == Violations(rows[p])
                         && forall i :: 0 <= i < p ==> ValidRecord(rows[i])
    decreases |rows|
  {
    if rows == [] then Ok([])
    else
      match BuildRecord(rows[0])
      case Err(v) => Err(RecordError(0, v))
      case Ok(r) =>
        match BuildRecords(rows[1..])
        case Err(e) => Err(RecordError(e.position + 1, e.violations))
        case Ok(rest) =>
          assert rows == [r] + rest;
          Ok([r] + rest)
  }

  /** A listing: the page of records and the size of the whole filtered set. */
  datatype Listing = Listing(records: seq<VaccineRecord>, total: nat)

  // ---------------------------------------------------------------------
  // the repository

  class VaccineRepository {
    /** The cleaned table, fixed when the repository is built. */
    const df: seq<VaccineRecord>

    constructor(rows: seq<CsvRow>)
      ensures df == NormalizeTable(rows)
    {
      df := NormalizeTable(rows);
    }

    /** `_apply_filters`: narrows a working copy region, brand, then year,
        and sorts what is left by (region, brand, year). */
    method ApplyFilters(filters: VaccineFilters) returns (rows: seq<VaccineRecord>)
      ensures rows == SortedMatching(df, filters)
      ensures multiset(rows) == multiset(Matching(df, filters))
      ensures forall r :: r in rows <==> r in df && Matches(r, filters)
      ensures SortedBy(rows, RecordLe)
    {
      var d := df;
      if filters.region.Some? && filters.region.value != "" {
        var want := Lower(filters.region.value);
        var keep := (r: VaccineRecord) => Lower(r.region) == want;
        FilterExt(d, keep, RegionMask(filters.region));
        d := Filter(d, keep);
      } else {
        FilterAll(d, RegionMask(filters.region));
      }
      assert d == Filter(df, RegionMask(filters.region));
      var afterRegion := d;
      if filters.brand.Some? && filters.brand.value != "" {
        var want := Lower(filters.brand.value);
        var keep := (r: VaccineRecord) => Lower(r.brand) == want;
        FilterExt(d, keep, BrandMask(filters.brand));
        d := Filter(d, keep);
      } else {
        FilterAll(d, BrandMask(filters.brand));
      }
      assert d == Filter(afterRegion, BrandMask(filters.brand));
      var afterBrand := d;
      if filters.year.Some? && filters.year.value != 0 {
        var want := filters.year.value;
        var keep := (r: VaccineRecord) => r.year == want;
        FilterExt(d, keep, YearMask(filters.year));
        d := Filter(d, keep);
      } else {
        FilterAll(d, YearMask(filters.year));
      }
      assert d == Filter(afterBrand, YearMask(filters.year));
      StepwiseIsConjunction(df, filters);
      rows := SortBy(d, RecordLe);
    }

    /** `list_records`: the page of the filtered, sorted rows as records,
        with the unpaginated total. */
    method ListRecords(filters: VaccineFilters, limit: Option<int>, offset: int)
      returns (res: Result<Listing, RecordError>)
      ensures var page := Page(SortedMatching(df, filters), limit, offset);
              res == match BuildRecords(page)
                     case Ok(recs) => Ok(Listing(recs, |Matching(df, filters)|))
                     case Err(e) => Err(e)
      ensures res.Ok? <==> forall r :: r in Page(SortedMatching(df, filters), limit, offset) ==> ValidRecord(r)
      ensures res.Ok? ==> res.value.records == Page(SortedMatching(df, filters), limit, offset)
      ensures res.Ok? ==> res.value.total == |Matching(df, filters)|
    {
      var filtered := ApplyFilters(filters);
      var total := |filtered|;
      assert total == |multiset(filtered)| == |multiset(Matching(df, filters))| == |Matching(df, filters)|;
      var page := Page(filtered, limit, offset);
      match BuildRecords(page)
      case Ok(recs) =>
        res := Ok(Listing(recs, total));
      case Err(e) =>
        res := Err(e);
    }

    /** `summary_metrics`: the whole filtered set, unpaginated. */
    method SummaryMetrics(filters: VaccineFilters) returns (rows: seq<VaccineRecord>)
      ensures rows == SortedMatching(df, filters)
      ensures multiset(rows) == multiset(Matching(df, filters))
    {
      rows := ApplyFilters(filters);
    }

    /** `sorted(unique(region))`: every region of the table once, ascending. */
    function DistinctRegions(): (rs: seq<string>)
      ensures forall i, j :: 0 <= i < j < |rs| ==> StrLess(rs[i], rs[j])
      ensures forall k :: k in rs <==> exists r :: r in df && r.region == k
    {
      StrLeIsTotalOrder();
      SortedDistinctSpec(Column(df, RegionOf), StrLe);
      DistinctIncreasing(SortedDistinct(Column(df, RegionOf), StrLe));
      forall k ensures k in Column(df, RegionOf) <==> exists r :: r in df && r.region == k {
        ColumnMembers(df, RegionOf, k);
      }
      SortedDistinct(Column(df, RegionOf), StrLe)
    }

    /** `sorted(unique(brand))`. */
    function DistinctBrands(): (bs: seq<string>)
      ensures forall i, j :: 0 <= i < j < |bs| ==> StrLess(bs[i], bs[j])
      ensures forall k :: k in bs <==> exists r :: r in df && r.brand == k
    {
      StrLeIsTotalOrder();
      SortedDistinctSpec(Column(df, BrandOf), StrLe);
      DistinctIncreasing(SortedDistinct(Column(df, BrandOf), StrLe));
      forall k ensures k in Column(df, BrandOf) <==> exists r :: r in df && r.brand == k {
        ColumnMembers(df, BrandOf, k);
      }
      SortedDistinct(Column(df, BrandOf), StrLe)
    }

    /** `sorted(unique(year))`. */
    function DistinctYearList(): (ys: seq<int>)
      ensures forall i, j :: 0 <= i < j < |ys| ==> ys[i] < ys[j]
      ensures forall y :: y in ys <==> exists r :: r in df && r.year == y
    {
      forall y ensures y in Years(df) <==> exists r :: r in df && r.year == y {
        YearsMembers(df, y);
      }
      DistinctYears(df)
    }
  }

  /** A duplicate-free sequence sorted by `<=` on strings is strictly increasing. */
  lemma DistinctIncreasing(s: seq<string>)
    requires SortedBy(s, StrLe) && NoDup(s)
    ensures forall i, j :: 0 <= i < j < |s| ==> StrLess(s[i], s[j])
  {
  }
}
