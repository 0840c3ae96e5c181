/** The deterministic parts of the AI service
    (backend/app/services/ai_service.py): the trend extrapolator behind
    `get_predictions`, the context summary handed to the language model,
    the visualization-hint classifier, the code-fence extraction applied
    to the model's reply, and the fixed answers used when no model is
    configured or its reply cannot be used. The model itself is not
    modelled: what it did is a parameter (`LlmOutcome`). */
module AiService {
  import opened Wrappers
  import opened Strings
  import opened Sequences
  import opened Models
  import opened Tables
  import opened Repository

  /** What a call to the language model gave: no model configured, a
      raised exception with its message, or the reply's text. */
  datatype LlmOutcome = NoLlm | Failed(message: string) | Replied(content: string)

  // ---------------------------------------------------------------------
  // yearly aggregates

  /** One row of `groupby("year").agg(...)`: market size and doses summed,
      price and growth rate averaged. */
  datatype YearlyAggregate = YearlyAggregate(
    year: int,
    marketSize: real,
    avgPrice: real,
    dosesSold: real,
    growthRate: real)

  function Aggregate(rows: seq<VaccineRecord>, y: int): YearlyAggregate {
    YearlyAggregate(y, YearSum(rows, y, MarketSize), YearMean(rows, y, AvgPrice),
                    YearSum(rows, y, DosesSold), YearMean(rows, y, GrowthRate))
  }

  predicate YearsIncreasing(yd: seq<YearlyAggregate>) {
    forall i, j :: 0 <= i < j < |yd| ==> yd[i].year < yd[j].year
  }

  /** The yearly table: one aggregate per distinct year, years ascending. */
  function YearlyData(rows: seq<VaccineRecord>): (yd: seq<YearlyAggregate>)
    ensures YearsIncreasing(yd)
    ensures |yd| == |DistinctYears(rows)| <= |rows|
    ensures forall i :: 0 <= i < |yd| ==> yd[i].year == DistinctYears(rows)[i]
    ensures forall i :: 0 <= i < |yd| ==> yd[i] == Aggregate(rows, yd[i].year)
    ensures forall y :: (exists i :: 0 <= i < |yd| && yd[i].year == y) <==> y in Years(rows)
  {
    var ys := DistinctYears(rows);
    var yd := seq(|ys|, i requires 0 <= i < |ys| => Aggregate(rows, ys[i]));
    assert forall i :: 0 <= i < |yd| ==> yd[i].year == ys[i];
    yd
  }

  /** Each yearly aggregate is the sum or the mean over that year's rows,
      and that group is never empty. */
  lemma YearlyAggregatesAreGroupStatistics(rows: seq<VaccineRecord>, i: int)
    requires 0 <= i < |YearlyData(rows)|
    ensures var a := YearlyData(rows)[i];
            var g := RowsInYear(rows, a.year);
            && |g| > 0
            && a.marketSize == Sum(g, MarketSize)
            && a.avgPrice == Sum(g, AvgPrice) / |g| as real
            && a.dosesSold == Sum(g, DosesSold)
            && a.growthRate == Sum(g, GrowthRate) / |g| as real
  {
    var a := YearlyData(rows)[i];
    assert a.year in Years(rows);
    RowsInYearNonEmpty(rows, a.year);
    YearSumIsGroupSum(rows, a.year, MarketSize);
    YearSumIsGroupSum(rows, a.year, DosesSold);
    YearMeanIsGroupMean(rows, a.year, AvgPrice);
    YearMeanIsGroupMean(rows, a.year, GrowthRate);
  }

  /** Over valid records every yearly market size, price and doses figure
      is non-negative. */
  lemma YearlyAggregatesNonNegative(rows: seq<VaccineRecord>, i: int)
    requires forall k :: 0 <= k < |rows| ==> ValidRecord(rows[k])
    requires 0 <= i < |YearlyData(rows)|
    ensures var a := YearlyData(rows)[i];
            a.marketSize >= 0.0 && a.avgPrice >= 0.0 && a.dosesSold >= 0.0
  {
    var y := YearlyData(rows)[i].year;
    YearSumNonNegative(rows, y, MarketSize);
    YearSumNonNegative(rows, y, AvgPrice);
    YearSumNonNegative(rows, y, DosesSold);
    if YearCount(rows, y) > 0 {
      var c := YearCount(rows, y) as real;
      assert YearSum(rows, y, AvgPrice) / c >= 0.0;
    }
  }

  /** Sorting by year before grouping changes nothing: the yearly table
      depends only on which rows there are. */
  lemma YearlyDataPermutation(s: seq<VaccineRecord>, t: seq<VaccineRecord>)
    requires multiset(s) == multiset(t)
    ensures YearlyData(s) == YearlyData(t)
  {
    DistinctYearsPermutation(s, t);
    var ys := DistinctYears(s);
    forall i | 0 <= i < |ys|
      ensures Aggregate(s, ys[i]) == Aggregate(t, ys[i])
    {
      YearGroupPermutation(s, t, ys[i], MarketSize);
      YearGroupPermutation(s, t, ys[i], AvgPrice);
      YearGroupPermutation(s, t, ys[i], DosesSold);
      YearGroupPermutation(s, t, ys[i], GrowthRate);
    }
  }

  /** The latest year of the rows is the year of the last yearly aggregate. */
  lemma LatestYearIsLastAggregate(rows: seq<VaccineRecord>)
    requires |rows| > 0
    ensures |YearlyData(rows)| > 0
    ensures MaxYear(rows) == YearlyData(rows)[|YearlyData(rows)| - 1].year
  {
    MaxYearIsLastDistinct(rows);
  }

  lemma MaxYearPermutation(s: seq<VaccineRecord>, t: seq<VaccineRecord>)
    requires |s| > 0 && multiset(s) == multiset(t)
    ensures |t| > 0 && MaxYear(s) == MaxYear(t)
  {
    assert |t| == |multiset(t)| == |multiset(s)| == |s|;
    forall r ensures r in s <==> r in t {
      assert r in s <==> r in multiset(s);
      assert r in t <==> r in multiset(t);
    }
  }

  // ---------------------------------------------------------------------
  // extrapolation

  function MarketOf(a: YearlyAggregate): real { a.marketSize }
  function PriceOf(a: YearlyAggregate): real { a.avgPrice }
  function GrowthOf(a: YearlyAggregate): real { a.growthRate }

  /** The change of `f` per year between two yearly aggregates. */
  function Slope(prev: YearlyAggregate, last: YearlyAggregate, f: YearlyAggregate -> real): real
    requires prev.year < last.year
  {
    (f(last) - f(prev)) / (last.year - prev.year) as real
  }

  /** The unclamped estimate of `f` for step `i` ahead: the last yearly
      value plus `i` times the slope between the last two yearly values,
      or the last value itself when there is only one year. */
  function Estimate(yd: seq<YearlyAggregate>, f: YearlyAggregate -> real, i: int): real
    requires |yd| >= 1 && YearsIncreasing(yd)
  {
    var last := yd[|yd| - 1];
    if |yd| >= 2 then f(last) + Slope(yd[|yd| - 2], last, f) * i as real else f(last)
  }

  /** The growth rate reported with every prediction: the mean of the
      yearly mean growth rates, or 0 when there is only one year. */
  function ForecastGrowth(yd: seq<YearlyAggregate>): real
    requires |yd| >= 1
  {
    if |yd| >= 2 then Mean(yd, GrowthOf) else 0.0
  }

  /** Python's `max(0, x)`. */
  function Max0(x: real): (m: real)
    ensures m >= 0.0 && m >= x
    ensures m == x || m == 0.0
  {
    if x >= 0.0 then x else 0.0
  }

  /** One predicted year. */
  datatype Prediction = Prediction(
    year: int,
    marketSize: real,
    avgPrice: real,
    growthRate: real,
    lower: real,
    upper: real)

  /** The prediction `i` years past `latest`: clamped market size and price,
      and bounds at 85 % and 115 % of the unclamped market estimate. */
  function PredictionAt(yd: seq<YearlyAggregate>, latest: int, i: int): (p: Prediction)
    requires |yd| >= 1 && YearsIncreasing(yd)
    ensures p.year == latest + i
    ensures p.marketSize >= 0.0 && p.avgPrice >= 0.0
    ensures Estimate(yd, MarketOf, i) >= 0.0 ==> p.marketSize == Estimate(yd, MarketOf, i)
    ensures Estimate(yd, PriceOf, i) >= 0.0 ==> p.avgPrice == Estimate(yd, PriceOf, i)
    ensures Estimate(yd, MarketOf, i) < 0.0 ==> p.marketSize == 0.0
    ensures Estimate(yd, PriceOf, i) < 0.0 ==> p.avgPrice == 0.0
    ensures p.lower == Estimate(yd, MarketOf, i) * 0.85 && p.upper == Estimate(yd, MarketOf, i) * 1.15
    ensures p.growthRate == if |yd| >= 2 then Mean(yd, GrowthOf) else 0.0
  {
    var m := Estimate(yd, MarketOf, i);
    var pr := Estimate(yd, PriceOf, i);
    Prediction(latest + i, Max0(m), Max0(pr), ForecastGrowth(yd), m * 0.85, m * 1.15)
  }

  /** The bounds are taken from the unclamped estimate, so they are in
      order exactly when that estimate is not negative, and then they
      bracket the reported market size. */
  lemma BoundsOrderedIffEstimateNonNegative(yd: seq<YearlyAggregate>, latest: int, i: int)
    requires |yd| >= 1 && YearsIncreasing(yd)
    ensures var p := PredictionAt(yd, latest, i);
            p.lower <= p.upper <==> Estimate(yd, MarketOf, i) >= 0.0
    ensures var p := PredictionAt(yd, latest, i);
            Estimate(yd, MarketOf, i) >= 0.0 ==> p.lower <= p.marketSize <= p.upper
  {
  }

  /** A negative estimate is reported as 0, above both of its bounds. */
  lemma NegativeEstimateOutsideBounds(yd: seq<YearlyAggregate>, latest: int, i: int)
    requires |yd| >= 1 && YearsIncreasing(yd)
    requires Estimate(yd, MarketOf, i) < 0.0
    ensures var p := PredictionAt(yd, latest, i);
            p.marketSize == 0.0 && p.upper < p.lower < p.marketSize
  {
  }

  /** With a single year the forecast is flat at that year's figures and
      the predicted growth is 0. */
  lemma SingleYearForecastIsFlat(yd: seq<YearlyAggregate>, latest: int, i: int)
    requires |yd| == 1
    ensures var p := PredictionAt(yd, latest, i);
            && p.marketSize == Max0(yd[0].marketSize)
            && p.avgPrice == Max0(yd[0].avgPrice)
            && p.growthRate == 0.0
            && p.lower == yd[0].marketSize * 0.85
            && p.upper == yd[0].marketSize * 1.15
  {
  }

  /** With two or more years the estimates lie on the straight line through
      the last two yearly values: step 0 is the last value, the step one
      span back is the previous value, and each step adds the slope. */
  lemma EstimateIsLineThroughLastTwo(yd: seq<YearlyAggregate>, f: YearlyAggregate -> real, i: int)
    requires |yd| >= 2 && YearsIncreasing(yd)
    ensures var last, prev := yd[|yd| - 1], yd[|yd| - 2];
            && Estimate(yd, f, 0) == f(last)
            && Estimate(yd, f, -(last.year - prev.year)) == f(prev)
            && Estimate(yd, f, i + 1) - Estimate(yd, f, i) == Slope(prev, last, f)
  {
    var last, prev := yd[|yd| - 1], yd[|yd| - 2];
    var d := (last.year - prev.year) as real;
    var s := Slope(prev, last, f);
    assert s * d == f(last) - f(prev);
    assert s * (-(last.year - prev.year)) as real == -(s * d);
    assert s * (i + 1) as real == s * i as real + s;
  }

  /** The result of `get_predictions`. `aiInsight` is absent from the
      insufficient-data answer. */
  datatype PredictionResult = PredictionResult(
    predictions: seq<Prediction>,
    confidence: real,
    methodName: string,  // the result's `method`
    aiInsight: Option<string>)

  const InsufficientData := "insufficient_data"
  const LinearExtrapolation := "linear_extrapolation"

  /** The insight text attached to predictions: empty without a model, the
      reply when there is one, a fixed notice when the call failed. */
  function PredictionInsight(llm: LlmOutcome): string {
    match llm
    case NoLlm => ""
    case Failed(_) => "AI analysis unavailable."
    case Replied(content) => content
  }

  /** `get_predictions`: region and brand narrow the rows (the year filter
      is not used); with fewer than two rows nothing is predicted;
      otherwise one prediction per year ahead, built step by step. */
  method GetPredictions(repo: VaccineRepository, region: Option<string>, brand: Option<string>,
                        yearsAhead: int, llm: LlmOutcome)
    returns (res: PredictionResult)
    ensures var rows := Matching(repo.df, VaccineFilters(region, brand, None));
            |rows| < 2 ==> res == PredictionResult([], 0.0, InsufficientData, None)
    ensures var rows := Matching(repo.df, VaccineFilters(region, brand, None));
            |rows| >= 2 ==>
              && res.confidence == 0.75
              && res.methodName == LinearExtrapolation
              && res.aiInsight == Some(PredictionInsight(llm))
              && |res.predictions| == (if yearsAhead > 0 then yearsAhead else 0)
              && |YearlyData(rows)| >= 1
              && forall k :: 0 <= k < |res.predictions| ==>
                   res.predictions[k] == PredictionAt(YearlyData(rows), MaxYear(rows), k + 1)
  {
    var filters := VaccineFilters(region, brand, None);
    var rows := repo.SummaryMetrics(filters);
    ghost var matching := Matching(repo.df, filters);
    assert |rows| == |multiset(rows)| == |multiset(matching)| == |matching|;
    if |rows| < 2 {
      res := PredictionResult([], 0.0, InsufficientData, None);
      return;
    }
    SortedRowsGiveSameForecastInputs(rows, matching);
    var yd := YearlyData(rows);
    var latest := MaxYear(rows);
    var predictions := ExtrapolateYears(yd, latest, yearsAhead);
    res := PredictionResult(predictions, 0.75, LinearExtrapolation, Some(PredictionInsight(llm)));
  }

  /** The loop of `get_predictions`: one prediction per step `i` in
      `1..yearsAhead`, appended in order. */
  method ExtrapolateYears(yd: seq<YearlyAggregate>, latest: int, yearsAhead: int)
    returns (predictions: seq<Prediction>)
    requires |yd| >= 1 && YearsIncreasing(yd)
    ensures |predictions| == if yearsAhead > 0 then yearsAhead else 0
    ensures forall k :: 0 <= k < |predictions| ==> predictions[k] == PredictionAt(yd, latest, k + 1)
  {
    predictions := [];
    var i := 1;
    while i <= yearsAhead
      invariant 1 <= i <= (if yearsAhead > 0 then yearsAhead else 0) + 1
      invariant |predictions| == i - 1
      invariant forall k :: 0 <= k < |predictions| ==> predictions[k] == PredictionAt(yd, latest, k + 1)
      decreases yearsAhead - i
    {
      var futureYear := latest + i;
      var predictedMarket, predictedPrice, avgGrowth;
      if |yd| >= 2 {
        var last, prev := yd[|yd| - 1], yd[|yd| - 2];
        var marketTrend := (last.marketSize - prev.marketSize) / (last.year - prev.year) as real;
        predictedMarket := last.marketSize + marketTrend * i as real;
        var priceTrend := (last.avgPrice - prev.avgPrice) / (last.year - prev.year) as real;
        predictedPrice := last.avgPrice + priceTrend * i as real;
        avgGrowth := Mean(yd, GrowthOf);
      } else {
        predictedMarket := yd[|yd| - 1].marketSize;
        predictedPrice := yd[|yd| - 1].avgPrice;
        avgGrowth := 0.0;
      }
      predictions := predictions + [Prediction(futureYear, Max0(predictedMarket), Max0(predictedPrice),
                                               avgGrowth, predictedMarket * 0.85, predictedMarket * 1.15)];
      i := i + 1;
    }
  }

  /** The forecast inputs of the sorted view equal those of the matching
      rows in table order. */
  lemma SortedRowsGiveSameForecastInputs(rows: seq<VaccineRecord>, matching: seq<VaccineRecord>)
    requires |rows| >= 1 && multiset(rows) == multiset(matching)
    ensures YearlyData(rows) == YearlyData(matching)
    ensures MaxYear(rows) == MaxYear(matching)
    ensures |YearlyData(rows)| >= 1
  {
    YearlyDataPermutation(rows, matching);
    MaxYearPermutation(rows, matching);
    LatestYearIsLastAggregate(rows);
  }

  /** The predicted years are consecutive, starting the year after the
      latest year of the rows. */
  lemma PredictionYearsConsecutive(yd: seq<YearlyAggregate>, latest: int, preds: seq<Prediction>)
    requires |yd| >= 1 && YearsIncreasing(yd)
    requires forall k :: 0 <= k < |preds| ==> preds[k] == PredictionAt(yd, latest, k + 1)
    ensures forall k :: 0 <= k < |preds| ==> preds[k].year == latest + k + 1
    ensures forall j, k :: 0 <= j < k < |preds| ==> preds[j].year < preds[k].year
  {
    forall k | 0 <= k < |preds|
      ensures preds[k].year == latest + k + 1
    {
      assert preds[k] == PredictionAt(yd, latest, k + 1);
    }
  }

  // ---------------------------------------------------------------------
  // context for the language model

  /** `sort_values(ascending=False)` on per-key totals. */
  predicate TotalDesc(a: KeyTotal, b: KeyTotal) {
    a.total >= b.total
  }

  function ByTotalDesc(g: seq<KeyTotal>): (s: seq<KeyTotal>)
    ensures multiset(s) == multiset(g)
    ensures SortedBy(s, TotalDesc)
  {
    SortBySorted(g, TotalDesc);
    SortBy(g, TotalDesc)
  }

  /** The five brands with the largest total market size, largest first
      (fewer when there are fewer brands). */
  function TopBrands(rows: seq<VaccineRecord>): (top: seq<KeyTotal>)
    ensures var g := GroupTotals(rows, BrandOf);
            |top| == if |g| < 5 then |g| else 5
    ensures SortedBy(top, TotalDesc)
    ensures forall t :: t in top ==> t in GroupTotals(rows, BrandOf)
    ensures multiset(top) <= multiset(GroupTotals(rows, BrandOf))
    ensures forall i, j :: 0 <= i < j < |top| ==> top[i].key != top[j].key
    ensures forall t, u :: t in top && u in GroupTotals(rows, BrandOf) && u !in top ==> u.total <= t.total
  {
    var g := GroupTotals(rows, BrandOf);
    TopOfDescending(g, 5);
    var top := Take(ByTotalDesc(g), 5);
    SubMultisetKeysDistinct(g, top);
    top
  }

  /** A sub-multiset of totals whose keys strictly increase has distinct keys. */
  lemma SubMultisetKeysDistinct(g: seq<KeyTotal>, top: seq<KeyTotal>)
    requires forall i, j :: 0 <= i < j < |g| ==> StrLess(g[i].key, g[j].key)
    requires multiset(top) <= multiset(g)
    ensures forall i, j :: 0 <= i < j < |top| ==> top[i].key != top[j].key
  {
    forall i, j | 0 <= i < j < |g|
      ensures g[i] != g[j]
    {
      StrLessIrreflexive(g[i].key);
    }
    NoDupCounts(g);
    forall i, j | 0 <= i < j < |top|
      ensures top[i].key != top[j].key
    {
      assert top[i] in multiset(g) && top[j] in multiset(g);
      var a :| 0 <= a < |g| && g[a] == top[i];
      var b :| 0 <= b < |g| && g[b] == top[j];
      if a < b {
        StrLessIrreflexive(g[a].key);
      } else if b < a {
        StrLessIrreflexive(g[b].key);
      } else {
        RepeatedCount(top, i, j);
      }
    }
  }

  /** The first `n` of the totals sorted in descending order are sorted,
      come from the totals, and none of the rest exceeds any of them. */
  lemma TopOfDescending(g: seq<KeyTotal>, n: nat)
    ensures var top := Take(ByTotalDesc(g), n);
            && |top| == (if |g| < n then |g| else n)
            && SortedBy(top, TotalDesc)
            && (forall t :: t in top ==> t in g)
            && multiset(top) <= multiset(g)
            && (forall t, u :: t in top && u in g && u !in top ==> u.total <= t.total)
  {
    var s := ByTotalDesc(g);
    assert |s| == |multiset(s)| == |multiset(g)| == |g|;
    var top := Take(s, n);
    PrefixDominates(s, |top|);
    forall u | u in g
      ensures u in s
    {
      assert u in multiset(g);
    }
    TakeSubMultiset(s, n);
    forall t | t in top
      ensures t in g
    {
      assert t in multiset(s);
    }
  }

  /** In a descending order no element after the first `k` exceeds any of them. */
  lemma PrefixDominates(s: seq<KeyTotal>, k: nat)
    requires SortedBy(s, TotalDesc) && k <= |s|
    ensures forall t, u :: t in s[..k] && u in s && u !in s[..k] ==> u.total <= t.total
  {
    forall t, u | t in s[..k] && u in s && u !in s[..k]
      ensures u.total <= t.total
    {
      var i :| 0 <= i < k && s[i] == t;
      var j :| 0 <= j < |s| && s[j] == u;
      assert TotalDesc(s[i], s[j]);
    }
  }


  /** Every region with its total market size, largest first. */
  function RegionalSummary(rows: seq<VaccineRecord>): (rs: seq<KeyTotal>)
    ensures multiset(rs) == multiset(GroupTotals(rows, RegionOf))
    ensures SortedBy(rs, TotalDesc)
  {
    ByTotalDesc(GroupTotals(rows, RegionOf))
  }

  /** One line of the context text, before number formatting. */
  datatype ContextLine =
    | NoData
    | TotalRecords(count: nat)
    | RegionNames(regions: seq<string>)
    | BrandNames(brands: seq<string>)
    | YearNumbers(years: seq<int>)
    | TotalMarketLine(usd: real)
    | AveragePriceLine(usd: real)
    | TotalDosesLine(millions: real)
    | TopBrandsHeading
    | BrandLine(brand: string, usd: real)
    | RegionHeading
    | RegionLine(region: string, usd: real)

  /** The seven summary lines that open the context. */
  function SummaryLines(rows: seq<VaccineRecord>): seq<ContextLine> {
    [ TotalRecords(|rows|),
      RegionNames(Unique(Column(rows, RegionOf))),
      BrandNames(Unique(Column(rows, BrandOf))),
      YearNumbers(DistinctYears(rows)),
      TotalMarketLine(Sum(rows, MarketSize)),
      AveragePriceLine(Mean(rows, AvgPrice)),
      TotalDosesLine(Sum(rows, DosesSold)) ]
  }

  /** One "  - brand: total" line per entry. */
  function BrandLines(ts: seq<KeyTotal>): (lines: seq<ContextLine>)
    ensures |lines| == |ts|
    ensures forall k :: 0 <= k < |ts| ==> lines[k] == BrandLine(ts[k].key, ts[k].total)
  {
    seq(|ts|, k requires 0 <= k < |ts| => BrandLine(ts[k].key, ts[k].total))
  }

  /** One "  - region: total" line per entry. */
  function RegionLines(ts: seq<KeyTotal>): (lines: seq<ContextLine>)
    ensures |lines| == |ts|
    ensures forall k :: 0 <= k < |ts| ==> lines[k] == RegionLine(ts[k].key, ts[k].total)
  {
    seq(|ts|, k requires 0 <= k < |ts| => RegionLine(ts[k].key, ts[k].total))
  }

  /** `_get_context_data`: a fixed line for an empty selection; otherwise
      the summary lines, then one line per top brand and one per region,
      appended in a loop each. */
  method GetContextData(repo: VaccineRepository, filters: VaccineFilters) returns (context: seq<ContextLine>)
    ensures var rows := SortedMatching(repo.df, filters);
            rows == [] ==> context == [NoData]
    ensures var rows := SortedMatching(repo.df, filters);
            rows != [] ==>
              context == SummaryLines(rows) + [TopBrandsHeading] + BrandLines(TopBrands(rows))
                         + [RegionHeading] + RegionLines(RegionalSummary(rows))
  {
    var rows := repo.SummaryMetrics(filters);
    if rows == [] {
      context := [NoData];
      return;
    }
    context := SummaryLines(rows) + [TopBrandsHeading];
    context := AppendBrandLines(context, TopBrands(rows));
    context := context + [RegionHeading];
    context := AppendRegionLines(context, RegionalSummary(rows));
  }

  /** `for brand, size in top_brands.items(): context.append(...)`. */
  method AppendBrandLines(context0: seq<ContextLine>, top: seq<KeyTotal>) returns (context: seq<ContextLine>)
    ensures context == context0 + BrandLines(top)
  {
    context := context0;
    var k := 0;
    while k < |top|
      invariant 0 <= k <= |top|
      invariant context == context0 + BrandLines(top[..k])
    {
      assert BrandLines(top[..k + 1]) == BrandLines(top[..k]) + [BrandLine(top[k].key, top[k].total)];
      context := context + [BrandLine(top[k].key, top[k].total)];
      k := k + 1;
    }
    assert top[..k] == top;
  }

  /** `for region, size in regional_summary.items(): context.append(...)`. */
  method AppendRegionLines(context0: seq<ContextLine>, regional: seq<KeyTotal>) returns (context: seq<ContextLine>)
    ensures context == context0 + RegionLines(regional)
  {
    context := context0;
    var k := 0;
    while k < |regional|
      invariant 0 <= k <= |regional|
      invariant context == context0 + RegionLines(regional[..k])
    {
      assert RegionLines(regional[..k + 1]) == RegionLines(regional[..k]) + [RegionLine(regional[k].key, regional[k].total)];
      context := context + [RegionLine(regional[k].key, regional[k].total)];
      k := k + 1;
    }
    assert regional[..k] == regional;
  }

  /** Because the filtered view is sorted by region first, the "Regions"
      line (regions in order of first appearance) lists them ascending. */
  lemma {:induction false} UniqueOfSortedIsIncreasing(s: seq<string>)
    requires SortedBy(s, StrLe)
    ensures forall i, j :: 0 <= i < j < |Unique(s)| ==> StrLess(Unique(s)[i], Unique(s)[j])
    decreases |s|
  {
    if s != [] {
      var init := s[..|s| - 1];
      var x := s[|s| - 1];
      assert SortedBy(init, StrLe);
      UniqueOfSortedIsIncreasing(init);
      var u := Unique(init);
      assert Unique(s) == if x in u then u else u + [x];
      if x !in u {
        var v := u + [x];
        forall i, j | 0 <= i < j < |v|
          ensures StrLess(v[i], v[j])
        {
          if j == |u| {
            assert v[i] == u[i] && v[j] == x;
            assert u[i] in init;
            var k :| 0 <= k < |init| && init[k] == u[i];
            assert s[k] == u[i] && k < |s| - 1;
            assert StrLe(u[i], x);
            assert u[i] != x;
          } else {
            assert v[i] == u[i] && v[j] == u[j];
            assert StrLess(u[i], u[j]);
          }
        }
      }
    }
  }

  lemma RegionColumnSorted(rows: seq<VaccineRecord>)
    requires SortedBy(rows, RecordLe)
    ensures SortedBy(Column(rows, RegionOf), StrLe)
  {
  }

  /** The regions named in the context are listed in ascending order. */
  lemma ContextRegionsAscending(repo: VaccineRepository, filters: VaccineFilters)
    ensures var u := Unique(Column(SortedMatching(repo.df, filters), RegionOf));
            forall i, j :: 0 <= i < j < |u| ==> StrLess(u[i], u[j])
  {
    RegionColumnSorted(SortedMatching(repo.df, filters));
    UniqueOfSortedIsIncreasing(Column(SortedMatching(repo.df, filters), RegionOf));
  }

  // ---------------------------------------------------------------------
  // chat answers

  /** The suggested chart. */
  datatype Visualization = BarChart | LineChart | PieChart | Table

  /** Testing for `word_chart` or `word` finds exactly what testing for
      `word` finds, since the longer word starts with the shorter. */
  lemma LongFormRedundant(s: string, word: string, long: string)
    requires |word| <= |long| && long[..|word|] == word
    ensures (Contains(s, long) || Contains(s, word)) == Contains(s, word)
  {
    if Contains(s, long) {
      ContainsPrefix(s, long, word);
    }
  }

  /** The keyword cascade on the lowered reply: "bar" first, then "line",
      then "pie", else a table. */
  function VisualizationHint(content: string): (v: Visualization)
    ensures var lc := Lower(content);
            && (v == BarChart <==> Contains(lc, "bar"))
            && (v == LineChart <==> !Contains(lc, "bar") && Contains(lc, "line"))
            && (v == PieChart <==> !Contains(lc, "bar") && !Contains(lc, "line") && Contains(lc, "pie"))
            && (v == Table <==> !Contains(lc, "bar") && !Contains(lc, "line") && !Contains(lc, "pie"))
  {
    var lc := Lower(content);
    LongFormRedundant(lc, "bar", "bar_chart");
    LongFormRedundant(lc, "line", "line_chart");
    LongFormRedundant(lc, "pie", "pie_chart");
    if Contains(lc, "bar_chart") || Contains(lc, "bar") then BarChart
    else if Contains(lc, "line_chart") || Contains(lc, "line") then LineChart
    else if Contains(lc, "pie_chart") || Contains(lc, "pie") then PieChart
    else Table
  }

  /** The classifier ignores ASCII case. */
  lemma VisualizationHintIgnoresCase(a: string, b: string)
    requires EqualIgnoringCase(a, b)
    ensures VisualizationHint(a) == VisualizationHint(b)
  {
    LowerEqualIff(a, b);
  }

  datatype ChatAnswer = ChatAnswer(answer: string, visualization: Option<Visualization>, confidence: real)

  const NoLlmAnswer := "AI features are not available. Please configure GROQ_API_KEY."
  const ErrorPrefix := "I encountered an error processing your query: "

  /** `chat_query`: a fixed notice without a model, the error text when the
      call failed, otherwise the reply with its hint at confidence 0.85. */
  function ChatQuery(llm: LlmOutcome): (a: ChatAnswer)
    ensures llm.NoLlm? ==> a == ChatAnswer(NoLlmAnswer, None, 0.0)
    ensures llm.Failed? ==> a.answer == ErrorPrefix + llm.message && a.visualization.None? && a.confidence == 0.0
    ensures llm.Replied? ==> a.answer == llm.content && a.visualization == Some(VisualizationHint(llm.content))
                             && a.confidence == 0.85
  {
    match llm
    case NoLlm => ChatAnswer(NoLlmAnswer, None, 0.0)
    case Failed(msg) => ChatAnswer(ErrorPrefix + msg, None, 0.0)
    case Replied(content) => ChatAnswer(content, Some(VisualizationHint(content)), 0.85)
  }

  /** A hint is given exactly when the confidence is positive, which is
      exactly when the model replied. */
  lemma ChatHintIffConfident(llm: LlmOutcome)
    ensures var a := ChatQuery(llm);
            (a.visualization.Some? <==> a.confidence > 0.0) && (a.confidence > 0.0 <==> llm.Replied?)
  {
  }

  // ---------------------------------------------------------------------
  // recommendations

  const JsonFence := "```json"
  const Fence := "```"

  /** The text after the first `open` marker up to the next "```", stripped.
      A missing closing fence makes `find` give -1, and the slice then
      stops one character before the end. */
  function FencedPayload(content: string, open: string): string
    requires Contains(content, open)
  {
    var start := FenceStart(content, open);
    var end := Find(content, Fence, start);
    Strip(Slice(content, start, end))
  }

  /** The position just after the first `open` marker. */
  function FenceStart(content: string, open: string): (start: nat)
    requires Contains(content, open)
    ensures start <= |content|
    ensures start >= |open| && content[start - |open|..start] == open
    ensures forall i :: 0 <= i < start - |open| ==> !OccursAt(content, open, i)
  {
    ContainsIffFound(content, open);
    Find(content, open, 0) + |open|
  }

  /** The code-fence extraction applied to the model's reply before JSON parsing. */
  function ExtractPayload(content: string): (payload: string)
    ensures !Contains(content, Fence) && !Contains(content, JsonFence) ==> payload == content
    ensures Contains(content, JsonFence) ==> payload == FencedPayload(content, JsonFence)
    ensures !Contains(content, JsonFence) && Contains(content, Fence) ==> payload == FencedPayload(content, Fence)
  {
    if Contains(content, JsonFence) then FencedPayload(content, JsonFence)
    else if Contains(content, Fence) then FencedPayload(content, Fence)
    else content
  }

  /** A closed fence: the payload is the stripped text strictly between the
      opening marker and the next fence, and that text holds no fence. */
  lemma PayloadBetweenFences(content: string, open: string)
    requires Contains(content, open)
    requires Find(content, Fence, FenceStart(content, open)) >= 0
    ensures var start := FenceStart(content, open);
            var end := Find(content, Fence, start);
            && start <= end <= |content|
            && FencedPayload(content, open) == Strip(content[start..end])
            && !Contains(content[start..end], Fence)
  {
    var start := FenceStart(content, open);
    assert |Fence| == 3;
    NothingBeforeFound(content, Fence, start);
  }

  /** An unclosed fence: the payload runs to the second-last character, so
      the reply's final character is lost. */
  lemma UnclosedFenceDropsLastChar(content: string, open: string)
    requires Contains(content, open)
    requires Find(content, Fence, FenceStart(content, open)) == -1
    ensures var start := FenceStart(content, open);
            FencedPayload(content, open)
              == (if start < |content| then Strip(content[start..|content| - 1]) else [])
  {
  }

  /** An opening "```json" takes precedence over a plain fence. */
  lemma JsonFencePreferred(content: string)
    requires Contains(content, JsonFence)
    ensures ExtractPayload(content) == FencedPayload(content, JsonFence)
  {
  }

  /** One recommendation; `action` is a JSON object of string values. */
  datatype Recommendation = Recommendation(title: string, description: string, action: map<string, string>)

  /** What `json.loads` made of the payload: a list, another JSON value, or
      an error. */
  datatype Parsed = ParsedList(items: seq<Recommendation>) | ParsedOther | Unparsable

  const TypeKey := "type"
  const FieldKey := "field"
  const ExploreTitle := "Explore by Region"
  const ExploreDescription := "Filter data by different regions to compare market performance."
  const BrandsTitle := "Compare Top Brands"
  const BrandsDescription := "Analyze market share differences between leading vaccine brands."
  const RegionsTitle := "Regional Performance"
  const RegionsDescription := "Explore how different regions compare in market size and growth."
  const TrendsTitle := "Year-over-Year Trends"
  const TrendsDescription := "Examine how the market has evolved over time."

  function ExploreByRegion(): Recommendation {
    Recommendation(ExploreTitle, ExploreDescription, map[TypeKey := "filter", FieldKey := "region"])
  }

  /** The three fixed recommendations. */
  function FallbackRecommendations(): (f: seq<Recommendation>)
    ensures |f| == 3
  {
    [ Recommendation(BrandsTitle, BrandsDescription, map[TypeKey := "filter", FieldKey := "brand"]),
      Recommendation(RegionsTitle, RegionsDescription, map[TypeKey := "filter", FieldKey := "region"]),
      Recommendation(TrendsTitle, TrendsDescription, map[TypeKey := "analysis", TypeKey := "time_series"]) ]
  }

  /** The third fallback's action repeats the key "type"; the later value
      wins, so "analysis" is lost. */
  lemma FallbackTrendIsTimeSeries()
    ensures FallbackRecommendations()[2].action == map[TypeKey := "time_series"]
    ensures FallbackRecommendations()[2].action.Keys == {TypeKey}
  {
  }

  /** `get_recommendations`: one fixed item without a model; the parsed list
      when the reply's payload parses as a list; the fallback otherwise. */
  function GetRecommendations(llm: LlmOutcome, parse: string -> Parsed): (recs: seq<Recommendation>)
    ensures llm.NoLlm? ==> recs == [ExploreByRegion()]
    ensures llm.Failed? ==> recs == FallbackRecommendations()
    ensures llm.Replied? && parse(ExtractPayload(llm.content)).ParsedList? ==>
              recs == parse(ExtractPayload(llm.content)).items
    ensures llm.Replied? && !parse(ExtractPayload(llm.content)).ParsedList? ==>
              recs == FallbackRecommendations()
  {
    match llm
    case NoLlm => [ExploreByRegion()]
    case Failed(_) => FallbackRecommendations()
    case Replied(content) =>
      match parse(ExtractPayload(content))
      case ParsedList(items) => items
      case _ => FallbackRecommendations()
  }

  /** The only way to get no recommendation at all is a reply that parses
      as an empty list. */
  lemma RecommendationsEmptyOnlyFromEmptyList(llm: LlmOutcome, parse: string -> Parsed)
    ensures GetRecommendations(llm, parse) == [] <==>
              llm.Replied? && parse(ExtractPayload(llm.content)) == ParsedList([])
  {
  }
}
