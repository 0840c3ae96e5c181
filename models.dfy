/** The domain model of the backend (backend/app/models/vaccine.py): one
    vaccine-market record with its field constraints, and the optional
    filter triple used by every query. */
module Models {
  import opened Wrappers

  /** One row of the vaccine-market table. Numbers are reals; `insight` is
      a required free-text note. */
  datatype VaccineRecord = VaccineRecord(
    region: string,
    brand: string,
    year: int,
    marketSizeUsd: real,
    avgPriceUsd: real,
    dosesSoldMillion: real,
    growthRatePercent: real,
    insight: string)

  /** The constraints the record model declares: a year from 1900 on and
      non-negative market size, price and doses. Growth rate and insight
      are unconstrained. */
  predicate ValidRecord(r: VaccineRecord) {
    && r.year >= 1900
    && r.marketSizeUsd >= 0.0
    && r.avgPriceUsd >= 0.0
    && r.dosesSoldMillion >= 0.0
  }

  /** One failed field constraint, as reported when a record is built. */
  datatype Violation =
    | YearBelow1900
    | NegativeMarketSize
    | NegativeAvgPrice
    | NegativeDosesSold

  /** Every constraint the record breaks, in field order. */
  function Violations(r: VaccineRecord): (v: seq<Violation>)
    ensures v == [] <==> ValidRecord(r)
    ensures YearBelow1900 in v <==> r.year < 1900
    ensures NegativeMarketSize in v <==> r.marketSizeUsd < 0.0
    ensures NegativeAvgPrice in v <==> r.avgPriceUsd < 0.0
    ensures NegativeDosesSold in v <==> r.dosesSoldMillion < 0.0
  {
    (if r.year < 1900 then [YearBelow1900] else [])
    + (if r.marketSizeUsd < 0.0 then [NegativeMarketSize] else [])
    + (if r.avgPriceUsd < 0.0 then [NegativeAvgPrice] else [])
    + (if r.dosesSoldMillion < 0.0 then [NegativeDosesSold] else [])
  }

  /** Building a `VaccineRecord` from a row: the row itself when it meets
      the constraints, otherwise the list of broken constraints. */
  function BuildRecord(r: VaccineRecord): (res: Result<VaccineRecord, seq<Violation>>)
    ensures res.Ok? <==> ValidRecord(r)
    ensures res.Ok? ==> res.value == r
    ensures res.Err? ==> res.error == Violations(r) && res.error != []
  {
    var v := Violations(r);
    if v == [] then Ok(r) else Err(v)
  }

  /** A valid record keeps its validity whatever its growth rate (which may
      be negative) and whatever its insight text. */
  lemma GrowthRateAndInsightUnconstrained(r: VaccineRecord, g: real, note: string)
    requires ValidRecord(r)
    ensures ValidRecord(r.(growthRatePercent := g, insight := note))
  {
  }

  /** The query filters; an absent field means "no constraint". */
  datatype VaccineFilters = VaccineFilters(
    region: Option<string>,
    brand: Option<string>,
    year: Option<int>)

  /** The filters with every field left at its default. */
  function NoFilters(): (f: VaccineFilters)
    ensures f.region.None? && f.brand.None? && f.year.None?
  {
    VaccineFilters(None, None, None)
  }
}
