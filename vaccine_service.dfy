/** The service layer over the repository
    (backend/app/services/vaccine_service.py): the paginated record query
    and the KPI summary, including the compound annual growth rate of the
    market size. Values are those before `round(..., 2)`. */
module VaccineService {
  import opened Wrappers
  import opened Sequences
  import opened Models
  import opened Schemas
  import opened Tables
  import opened Repository

  /** `get_vaccine_records`: the repository's page, as a list, with its total. */
  method GetVaccineRecords(repo: VaccineRepository, filters: VaccineFilters, limit: Option<int>, offset: int)
    returns (res: Result<Listing, RecordError>)
    ensures res.Ok? <==> forall r :: r in Page(SortedMatching(repo.df, filters), limit, offset) ==> ValidRecord(r)
    ensures res.Ok? ==> res.value.records == Page(SortedMatching(repo.df, filters), limit, offset)
    ensures res.Ok? ==> res.value.total == |Matching(repo.df, filters)|
  {
    res := repo.ListRecords(filters, limit, offset);
  }

  // ---------------------------------------------------------------------
  // CAGR

  /** The summed market size of the rows of year `y`: one entry of
      `groupby("year").agg(total_market_size=("market_size_usd", "sum"))`. */
  function YearTotal(rows: seq<VaccineRecord>, y: int): real {
    YearSum(rows, y, MarketSize)
  }

  /** The last step of `_calculate_cagr`: 0 for a non-positive span or a
      non-positive starting value, otherwise the yearly growth rate in
      percent. The fractional power `x ** (1 / n)` is the parameter
      `root(x, n)`. */
  function AnnualGrowth(periods: int, firstValue: real, lastValue: real, root: (real, int) -> real): real {
    if periods <= 0 || firstValue <= 0.0 then 0.0
    else (root(lastValue / firstValue, periods) - 1.0) * 100.0
  }

  /** `_calculate_cagr` before rounding: 0 for no rows and for fewer than
      two distinct years; otherwise the growth from the earliest year's
      total market size to the latest year's. */
  function Cagr(rows: seq<VaccineRecord>, root: (real, int) -> real): real {
    if rows == [] then 0.0
    else
      var ys := DistinctYears(rows);
      if |ys| < 2 then 0.0
      else AnnualGrowth(ys[|ys| - 1] - ys[0], YearTotal(rows, ys[0]), YearTotal(rows, ys[|ys| - 1]), root)
  }

  /** The guard cascade of `_calculate_cagr`, and the value past it. */
  lemma CagrCases(rows: seq<VaccineRecord>, root: (real, int) -> real)
    ensures rows == [] ==> Cagr(rows, root) == 0.0
    ensures |DistinctYears(rows)| < 2 ==> Cagr(rows, root) == 0.0
    ensures var ys := DistinctYears(rows);
            |ys| >= 2 && YearTotal(rows, ys[0]) <= 0.0 ==> Cagr(rows, root) == 0.0
    ensures var ys := DistinctYears(rows);
            |ys| >= 2 && YearTotal(rows, ys[0]) > 0.0 ==>
              Cagr(rows, root)
                == (root(YearTotal(rows, ys[|ys| - 1]) / YearTotal(rows, ys[0]), ys[|ys| - 1] - ys[0]) - 1.0) * 100.0
  {
    if |DistinctYears(rows)| >= 2 {
      CagrSpanPositive(rows);
    }
  }

  /** The `periods <= 0` guard never fires: with two or more distinct years
      the span from the earliest to the latest is at least one year. */
  lemma CagrSpanPositive(rows: seq<VaccineRecord>)
    requires |DistinctYears(rows)| >= 2
    ensures var ys := DistinctYears(rows);
            ys[|ys| - 1] - ys[0] >= |ys| - 1
  {
    var ys := DistinctYears(rows);
    SpanOfIncreasing(ys);
  }

  lemma {:induction false} SpanOfIncreasing(ys: seq<int>)
    requires |ys| >= 1
    requires forall i, j :: 0 <= i < j < |ys| ==> ys[i] < ys[j]
    ensures ys[|ys| - 1] - ys[0] >= |ys| - 1
    decreases |ys|
  {
    if |ys| > 1 {
      SpanOfIncreasing(ys[..|ys| - 1]);
      assert ys[|ys| - 2] < ys[|ys| - 1];
    }
  }

  /** For one year of span the rate is the plain relative change, in percent. */
  lemma CagrOneYearSpan(rows: seq<VaccineRecord>, root: (real, int) -> real)
    requires forall x :: root(x, 1) == x
    requires var ys := DistinctYears(rows);
             |ys| == 2 && ys[1] - ys[0] == 1 && YearTotal(rows, ys[0]) > 0.0
    ensures var ys := DistinctYears(rows);
            Cagr(rows, root) == (YearTotal(rows, ys[1]) / YearTotal(rows, ys[0]) - 1.0) * 100.0
  {
  }

  /** The earliest and latest years are those of the rows: every row's year
      lies between them, and both occur. */
  lemma CagrEndpointsAreExtremeYears(rows: seq<VaccineRecord>)
    requires |DistinctYears(rows)| >= 2
    ensures var ys := DistinctYears(rows);
            && (forall r :: r in rows ==> ys[0] <= r.year <= ys[|ys| - 1])
            && YearTotal(rows, ys[0]) == Sum(Filter(rows, YearIs(ys[0])), MarketSize)
            && |RowsInYear(rows, ys[0])| > 0
            && |RowsInYear(rows, ys[|ys| - 1])| > 0
  {
    var ys := DistinctYears(rows);
    forall r | r in rows
      ensures ys[0] <= r.year <= ys[|ys| - 1]
    {
      YearsMembers(rows, r.year);
      var i :| 0 <= i < |ys| && ys[i] == r.year;
    }
    RowsInYearNonEmpty(rows, ys[0]);
    RowsInYearNonEmpty(rows, ys[|ys| - 1]);
    YearSumIsGroupSum(rows, ys[0], MarketSize);
  }

  /** The per-year totals do not depend on the order of the rows. */
  lemma YearTotalPermutation(s: seq<VaccineRecord>, t: seq<VaccineRecord>, y: int)
    requires multiset(s) == multiset(t)
    ensures YearTotal(s, y) == YearTotal(t, y)
  {
    YearGroupPermutation(s, t, y, MarketSize);
  }

  /** CAGR depends only on which rows there are, so sorting before it changes nothing. */
  lemma CagrPermutation(s: seq<VaccineRecord>, t: seq<VaccineRecord>, root: (real, int) -> real)
    requires multiset(s) == multiset(t)
    ensures Cagr(s, root) == Cagr(t, root)
  {
    assert |s| == |multiset(s)| == |multiset(t)| == |t|;
    DistinctYearsPermutation(s, t);
    var ys := DistinctYears(s);
    if s != [] && |ys| >= 2 {
      YearTotalPermutation(s, t, ys[0]);
      YearTotalPermutation(s, t, ys[|ys| - 1]);
      CagrPastGuards(s, root);
      CagrPastGuards(t, root);
    }
  }

  lemma YearFactsPermutation(s: seq<VaccineRecord>, t: seq<VaccineRecord>)
    requires multiset(s) == multiset(t)
    ensures s == [] <==> t == []
    ensures DistinctYears(s) == DistinctYears(t)
    ensures forall y :: YearTotal(s, y) == YearTotal(t, y)
  {
    assert |s| == |multiset(s)| == |multiset(t)| == |t|;
    DistinctYearsPermutation(s, t);
    forall y ensures YearTotal(s, y) == YearTotal(t, y) {
      YearTotalPermutation(s, t, y);
    }
  }

  lemma CagrPastGuards(rows: seq<VaccineRecord>, root: (real, int) -> real)
    requires rows != [] && |DistinctYears(rows)| >= 2
    ensures var ys := DistinctYears(rows);
            Cagr(rows, root)
              == AnnualGrowth(ys[|ys| - 1] - ys[0], YearTotal(rows, ys[0]), YearTotal(rows, ys[|ys| - 1]), root)
  {
  }

  // ---------------------------------------------------------------------
  // KPI summary

  const TotalMarketSizeLabel := "Total Market Size"
  const AveragePriceLabel := "Average Price"
  const TotalDosesLabel := "Total Doses Sold"
  const CagrLabel := "CAGR"

  const Usd := "USD"
  const Percent := "percent"
  const MillionDoses := "million doses"

  const MarketSizeDescription := "Sum of market size in USD for the selected filters."
  /** The average-price and CAGR descriptions of an empty selection differ
      from those of a non-empty one. */
  const EmptyPriceDescription := "Average price per dose for the selected filters."
  const EmptyCagrDescription := "Compound annual growth rate for the selected filters."
  const PriceDescription := "Average vaccine price per dose across the selection."
  const DosesDescription := "Total doses sold (in millions) in the selected scope."
  const CagrDescription := "Compound annual growth rate derived from total market size."

  /** The KPI list of `compute_summary` for a filtered set: three zero KPIs
      when it is empty, otherwise total market size, average price, total
      doses and CAGR, in that order. */
  function SummaryKpis(rows: seq<VaccineRecord>, root: (real, int) -> real): (kpis: seq<SummaryKPI>)
    ensures |kpis| == if rows == [] then 3 else 4
    ensures rows == [] ==> kpis[0].value == 0.0 && kpis[1].value == 0.0 && kpis[2].value == 0.0
    ensures rows != [] ==> && kpis[0].value == Sum(rows, MarketSize)
                           && kpis[1].value == Sum(rows, AvgPrice) / |rows| as real
                           && kpis[2].value == Sum(rows, DosesSold)
                           && kpis[3].value == Cagr(rows, root)
    ensures forall i :: 0 <= i < |kpis| ==> kpis[i].unit.Some? && kpis[i].description.Some?
  {
    if rows == [] then
      [ SummaryKPI(TotalMarketSizeLabel, 0.0, Some(Usd),
                   Some(MarketSizeDescription)),
        SummaryKPI(AveragePriceLabel, 0.0, Some(Usd),
                   Some(EmptyPriceDescription)),
        SummaryKPI(CagrLabel, 0.0, Some(Percent),
                   Some(EmptyCagrDescription)) ]
    else
      [ SummaryKPI(TotalMarketSizeLabel, Sum(rows, MarketSize), Some(Usd),
                   Some(MarketSizeDescription)),
        SummaryKPI(AveragePriceLabel, Mean(rows, AvgPrice), Some(Usd),
                   Some(PriceDescription)),
        SummaryKPI(TotalDosesLabel, Sum(rows, DosesSold), Some(MillionDoses),
                   Some(DosesDescription)),
        SummaryKPI(CagrLabel, Cagr(rows, root), Some(Percent),
                   Some(CagrDescription)) ]
  }

  /** The labels and units, in order: no "Total Doses Sold" for an empty
      selection. */
  lemma SummaryLabels(rows: seq<VaccineRecord>, root: (real, int) -> real)
    ensures var kpis := SummaryKpis(rows, root);
            rows == [] ==> kpis[0].name == TotalMarketSizeLabel && kpis[1].name == AveragePriceLabel
                           && kpis[2].name == CagrLabel
    ensures var kpis := SummaryKpis(rows, root);
            rows != [] ==> kpis[0].name == TotalMarketSizeLabel && kpis[1].name == AveragePriceLabel
                           && kpis[2].name == TotalDosesLabel && kpis[3].name == CagrLabel
    ensures var kpis := SummaryKpis(rows, root);
            rows == [] ==> kpis[0].unit == Some(Usd) && kpis[1].unit == Some(Usd)
                           && kpis[2].unit == Some(Percent)
    ensures var kpis := SummaryKpis(rows, root);
            rows != [] ==> kpis[0].unit == Some(Usd) && kpis[1].unit == Some(Usd)
                           && kpis[2].unit == Some(MillionDoses) && kpis[3].unit == Some(Percent)
  {
  }

  /** The summary depends only on which rows were selected, not on their order. */
  lemma SummaryPermutation(s: seq<VaccineRecord>, t: seq<VaccineRecord>, root: (real, int) -> real)
    requires multiset(s) == multiset(t)
    ensures SummaryKpis(s, root) == SummaryKpis(t, root)
  {
    assert |s| == |multiset(s)| == |t|;
    SumPermutation(s, t, MarketSize);
    MeanPermutation(s, t, AvgPrice);
    SumPermutation(s, t, DosesSold);
    CagrPermutation(s, t, root);
  }

  /** Over valid records the total market size, the average price and the
      total doses are never negative. */
  lemma SummaryNonNegative(rows: seq<VaccineRecord>, root: (real, int) -> real)
    requires forall i :: 0 <= i < |rows| ==> ValidRecord(rows[i])
    ensures var kpis := SummaryKpis(rows, root);
            kpis[0].value >= 0.0 && kpis[1].value >= 0.0 && (rows != [] ==> kpis[2].value >= 0.0)
  {
    SumNonNegative(rows, MarketSize);
    MeanNonNegative(rows, AvgPrice);
    SumNonNegative(rows, DosesSold);
  }

  /** `compute_summary`: the KPIs of the filtered set, which are those of
      the matching rows in table order. */
  method ComputeSummary(repo: VaccineRepository, filters: VaccineFilters, root: (real, int) -> real)
    returns (kpis: seq<SummaryKPI>)
    ensures kpis == SummaryKpis(Matching(repo.df, filters), root)
  {
    var rows := repo.SummaryMetrics(filters);
    SummaryPermutation(rows, Matching(repo.df, filters), root);
    kpis := SummaryKpis(rows, root);
  }
}
