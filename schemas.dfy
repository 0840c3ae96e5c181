/** The API schemas (backend/app/api/schemas/vaccine.py): query parameters
    with their bounds, the paginated list response, a KPI and the summary
    response that echoes its filters. */
module Schemas {
  import opened Wrappers
  import opened Models

  /** Query parameters of the record listing. `limit` defaults to absent
      and `offset` to 0. */
  datatype VaccineQueryParams = VaccineQueryParams(
    region: Option<string>,
    brand: Option<string>,
    year: Option<int>,
    limit: Option<int>,
    offset: Option<int>)

  const MaxLimit: int := 500

  /** `limit`, when given, lies in [1, 500]; `offset`, when given, is not negative. */
  predicate ValidQueryParams(q: VaccineQueryParams) {
    && (q.limit.Some? ==> 1 <= q.limit.value <= MaxLimit)
    && (q.offset.Some? ==> q.offset.value >= 0)
  }

  datatype QueryViolation = LimitOutOfRange | NegativeOffset

  /** The bound violations reported when the parameters are validated. */
  function QueryViolations(q: VaccineQueryParams): (v: seq<QueryViolation>)
    ensures v == [] <==> ValidQueryParams(q)
    ensures LimitOutOfRange in v <==> q.limit.Some? && (q.limit.value < 1 || q.limit.value > MaxLimit)
    ensures NegativeOffset in v <==> q.offset.Some? && q.offset.value < 0
  {
    (if q.limit.Some? && (q.limit.value < 1 || q.limit.value > MaxLimit) then [LimitOutOfRange] else [])
    + (if q.offset.Some? && q.offset.value < 0 then [NegativeOffset] else [])
  }

  /** The parameters built from the three filters alone, every other field
      at its default: no limit, offset 0. Always valid. */
  function DefaultQueryParams(region: Option<string>, brand: Option<string>, year: Option<int>): (q: VaccineQueryParams)
    ensures ValidQueryParams(q)
    ensures q.limit.None? && q.offset == Some(0)
    ensures q.region == region && q.brand == brand && q.year == year
  {
    VaccineQueryParams(region, brand, year, None, Some(0))
  }

  /** The paginated listing: the full filtered count and the size of the page. */
  datatype VaccineListResponse = VaccineListResponse(
    total: int,
    returned: int,
    data: seq<VaccineRecord>)

  predicate ValidListResponse(r: VaccineListResponse) {
    r.total >= 0 && r.returned >= 0
  }

  /** The response the listing route builds from a page and its total:
      `returned` is the page length. */
  function ListResponse(records: seq<VaccineRecord>, total: nat): (r: VaccineListResponse)
    ensures ValidListResponse(r)
    ensures r.returned == |r.data| && r.data == records && r.total == total
  {
    VaccineListResponse(total, |records|, records)
  }

  /** One KPI: a label and a value are required, unit and description are optional. */
  datatype SummaryKPI = SummaryKPI(
    name: string,  // the KPI's `label` (a reserved word in Dafny)
    value: real,
    unit: Option<string>,
    description: Option<string>)

  datatype SummaryResponse = SummaryResponse(
    kpis: seq<SummaryKPI>,
    filtersApplied: VaccineQueryParams)

  /** The summary route's response: the KPIs, and an echo of exactly the
      region, brand and year that produced them. */
  function MakeSummaryResponse(region: Option<string>, brand: Option<string>, year: Option<int>,
                               kpis: seq<SummaryKPI>): (r: SummaryResponse)
    ensures r.kpis == kpis
    ensures r.filtersApplied.region == region
    ensures r.filtersApplied.brand == brand
    ensures r.filtersApplied.year == year
    ensures ValidQueryParams(r.filtersApplied)
  {
    SummaryResponse(kpis, DefaultQueryParams(region, brand, year))
  }
}
