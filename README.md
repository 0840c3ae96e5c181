# Health Insight Dashboard — a Dafny model of the data pipeline

This project models the data core of the Health Insight Dashboard. That is the
backend's vaccine-market pipeline and the legacy vaccination data service.

The backend pipeline works in these steps:

- It loads the vaccine-market table and normalises its region and brand columns.
- It filters by region, brand and year. Text matches ignore case.
- It sorts by region, brand and year, then pages the result with limit and offset.
- It aggregates the selected rows into summary KPIs, including a compound annual growth rate.
- It groups the rows by year and extrapolates market size and price linearly into future years.
- It builds the context lines handed to the assistant, picks a chart hint from the assistant's reply, and extracts recommendations from a fenced JSON block. Each of these has its fallbacks.

The legacy service works in these steps:

- It loads the vaccination table once and caches it.
- It splits each row's comma-separated vaccine list into stripped brand names.
- It forward-fills the four numeric columns within each country, filling 0 where nothing came before.
- It filters by country and year. For a vaccine filter it explodes the brand lists.

Modules:

- `Wrappers`: `Option` and `Result`.
- `Strings`: ASCII lower-casing, whitespace strip, substring search, split/join and lexicographic order.
- `Sequences`: filter, stable insertion sort, unique values, sums and means, and slicing with Python's clamping rules.
- `Models` and `Schemas`: the validated record, filter, query-parameter and response types.
- `Tables`: column projections, distinct years, per-year group statistics and group totals.
- `Repository`: the `VaccineRepository` class, which holds the normalised table.
- `VaccineService`: record listing and the KPI summary.
- `AiService`: context, chat, predictions and recommendations.
- `DataService`: the legacy loader and filter, including the `DataCache` class that stands for the function-level cache.

The assistant's language model is never called. Every operation that consults
it takes an `LlmOutcome` parameter instead: no model configured, a reply, or a
failure with a message.

## Model

| member | source | states |
|---|---|---|
| Models.Violations | backend/app/models/vaccine.py:10-24 | a record has no violations exactly when it is valid; each violation kind is reported iff its field breaks the bound (year below 1900, negative market size, price or doses) |
| Models.BuildRecord | backend/app/models/vaccine.py:10-24 | record construction succeeds iff the record satisfies the field bounds, returns the record unchanged, and otherwise fails with the full violation list |
| Models.GrowthRateAndInsightUnconstrained | backend/app/models/vaccine.py:21-24 | growth rate and insight carry no bound: changing them never makes a valid record invalid |
| Models.NoFilters | backend/app/models/vaccine.py:27-32 | the default filter sets region, brand and year all to none |
| Schemas.QueryViolations | backend/app/api/schemas/vaccine.py:14-25 | query parameters are valid iff limit, when given, lies in 1..500 and offset, when given, is non-negative; each violation is reported iff its bound is broken |
| Schemas.DefaultQueryParams | backend/app/api/schemas/vaccine.py:14-25 | the defaults (no limit, offset 0) with any filters are valid parameters |
| Schemas.ListResponse | backend/app/api/schemas/vaccine.py:28-35 | a list response carries the records, the total, and a returned count equal to the number of records |
| Schemas.MakeSummaryResponse | backend/app/api/schemas/vaccine.py:47-55 | a summary response echoes the filters it was computed for, as valid parameters, next to its KPIs |
| Strings.Lower | backend/app/repositories/vaccine_repository.py:88-91 | lower-casing keeps the length, leaves no upper-case letter, and maps each character to itself or to the same letter in the other ASCII case |
| Strings.LowerEqualIff | backend/app/repositories/vaccine_repository.py:88-91 | two texts lower-case to the same text iff they have the same length and agree character by character up to ASCII case |
| Strings.LowerIdempotent | backend/app/repositories/vaccine_repository.py:88-91 | lower-casing twice is lower-casing once |
| Strings.Strip | backend/app/repositories/vaccine_repository.py:77-78 | the stripped text is a slice of the input with only whitespace before and after it, and it neither starts nor ends with whitespace |
| Strings.StripOfPadded | backend/app/repositories/vaccine_repository.py:77-78 | stripping whitespace padding off a text that neither starts nor ends with whitespace gives back exactly that text |
| Strings.StripIdempotent | backend/app/repositories/vaccine_repository.py:77-78 | stripping twice is stripping once |
| Strings.Find | backend/app/services/ai_service.py:286-294 | the search returns -1 iff the pattern occurs nowhere from the start position, and otherwise the first occurrence at or after it |
| Strings.ContainsIffFound | backend/app/services/ai_service.py:286-294 | the `in` test holds iff a search from 0 finds the pattern |
| Strings.Split | app/services/data_service.py:23 | splitting gives at least one piece, and no piece holds the separator |
| Strings.JoinSplit | app/services/data_service.py:23 | joining the pieces of a split with the separator gives back the text |
| Strings.SplitJoin | app/services/data_service.py:23 | splitting a join of separator-free pieces gives back the pieces |
| Strings.StrLessTotal | backend/app/repositories/vaccine_repository.py:94 | string order is total: two strings are equal or one is smaller |
| Strings.StrLessTransitive | backend/app/repositories/vaccine_repository.py:94 | string order is transitive |
| Sequences.Filter | backend/app/repositories/vaccine_repository.py:85-94 | a boolean-mask selection keeps each value exactly as often as in the input when it passes, and never otherwise |
| Sequences.FilterFilter | backend/app/repositories/vaccine_repository.py:85-94 | two successive mask selections equal one selection by the conjunction |
| Sequences.SortBy | backend/app/repositories/vaccine_repository.py:94 | sorting returns a permutation of its input |
| Sequences.SortBySorted | backend/app/repositories/vaccine_repository.py:94 | under a total preorder the sorted result is ordered |
| Sequences.Unique | backend/app/services/ai_service.py:48-50 | the unique values have no duplicate and are exactly the input's values |
| Sequences.FirstIndex | backend/app/services/ai_service.py:48-50 | the first index of a value holds that value and no earlier index does |
| Sequences.UniqueFirstAppearanceOrder | backend/app/services/ai_service.py:48-50 | the unique values come in the order of their first appearance in the column |
| Sequences.SortedDistinctSpec | backend/app/repositories/vaccine_repository.py:130-140 | sorted distinct values are ordered, duplicate-free and exactly the input's values |
| Sequences.SumPermutation | backend/app/services/vaccine_service.py:86-92 | a column sum does not depend on the order of the rows |
| Sequences.SumNonNegative | backend/app/services/vaccine_service.py:86-92 | a sum of non-negative values is non-negative |
| Sequences.Slice | backend/app/repositories/vaccine_repository.py:106-108 | slicing follows Python's rule: in-range bounds give that window, a stop of -1 drops the last element, a start past the end gives nothing |
| Sequences.Take | backend/app/services/ai_service.py:60-69 | taking n gives the first min(n, length) elements |
| Tables.DistinctYears | backend/app/repositories/vaccine_repository.py:138-140 | the distinct years are strictly increasing and are exactly the years of the rows |
| Tables.DistinctYearsPermutation | backend/app/services/vaccine_service.py:37-41 | the distinct years do not depend on the order of the rows |
| Tables.LastDistinctYearIsMax | backend/app/services/vaccine_service.py:43-55 | the last distinct year is at least every row's year |
| Tables.MaxYear | backend/app/services/ai_service.py:172 | the latest year is some row's year and no row is later |
| Tables.MaxYearIsLastDistinct | backend/app/services/ai_service.py:172 | the latest year is the last of the distinct years |
| Tables.YearMeanIsGroupMean | backend/app/services/ai_service.py:175-186 | the per-year mean is the mean of that year's group, and a year that occurs has a non-empty group |
| Tables.YearGroupPermutation | backend/app/services/ai_service.py:175-186 | per-year sums, counts and means do not depend on the order of the rows |
| Tables.GroupTotals | backend/app/services/ai_service.py:60-77 | group totals have one entry per distinct key, in ascending key order, each holding the sum of its group |
| Repository.NormalizeTable | backend/app/repositories/vaccine_repository.py:36-83 | loading keeps one record per row, with region and brand stripped |
| Repository.NormalizeIdempotent | backend/app/repositories/vaccine_repository.py:77-78 | normalising an already normalised table changes nothing |
| Repository.Matching | backend/app/repositories/vaccine_repository.py:85-93 | a record is selected iff it is in the table and passes every given filter, with its multiplicity kept |
| Repository.StepwiseIsConjunction | backend/app/repositories/vaccine_repository.py:88-93 | applying the region, brand and year filters one after the other equals filtering by their conjunction |
| Repository.NoFiltersMatchAll | backend/app/repositories/vaccine_repository.py:85-93 | with no filter the whole table is selected, in order |
| Repository.FilterIgnoresCase | backend/app/repositories/vaccine_repository.py:88-91 | region and brand filters that agree character by character up to ASCII case select the same records |
| Repository.RecordLeIsTotalPreorder | backend/app/repositories/vaccine_repository.py:94 | the region, brand, year ordering is a total preorder |
| Repository.SortedMatching | backend/app/repositories/vaccine_repository.py:85-94 | the filtered table is a permutation of the selection, holds exactly the matching records, and is ordered by region, brand, year |
| Repository.Page | backend/app/repositories/vaccine_repository.py:106-108 | a page is never longer than the filtered table |
| Repository.PageIsWindow | backend/app/repositories/vaccine_repository.py:106-108 | a page is the window from the clamped offset of at most limit records, and is empty once the offset passes the end |
| Repository.BuildRecords | backend/app/repositories/vaccine_repository.py:110-122 | building the response records succeeds iff every row is valid, and otherwise reports the first invalid row with its violations |
| Repository.VaccineRepository.constructor | backend/app/repositories/vaccine_repository.py:31-34 | the repository holds the normalised table |
| Repository.VaccineRepository.ApplyFilters | backend/app/repositories/vaccine_repository.py:85-94 | the stepwise filter loop and the sort give exactly the matching records, as a permutation of the selection, in region, brand, year order |
| Repository.VaccineRepository.ListRecords | backend/app/repositories/vaccine_repository.py:96-124 | the listing is the requested page of the sorted selection, with the total counted before paging, or the first record error |
| Repository.VaccineRepository.SummaryMetrics | backend/app/repositories/vaccine_repository.py:126-128 | the rows for the summary are the sorted selection |
| Repository.VaccineRepository.DistinctRegions | backend/app/repositories/vaccine_repository.py:130-132 | the region list is strictly ascending and holds exactly the regions of the table |
| Repository.VaccineRepository.DistinctBrands | backend/app/repositories/vaccine_repository.py:134-136 | the brand list is strictly ascending and holds exactly the brands of the table |
| Repository.VaccineRepository.DistinctYearList | backend/app/repositories/vaccine_repository.py:138-140 | the year list is strictly ascending and holds exactly the years of the table |
| VaccineService.GetVaccineRecords | backend/app/services/vaccine_service.py:23-29 | the service returns the repository's page of the sorted selection and the pre-paging total, and fails iff a record on the page is invalid |
| VaccineService.CagrCases | backend/app/services/vaccine_service.py:32-56 | growth is 0 for no rows, for fewer than two years and for a non-positive first-year total; otherwise it is ((last/first)^(1/span) - 1) * 100 over the first and last year totals |
| VaccineService.CagrSpanPositive | backend/app/services/vaccine_service.py:51-55 | with two or more years the span between first and last year is positive, so the root is well defined |
| VaccineService.CagrOneYearSpan | backend/app/services/vaccine_service.py:55 | over two consecutive years the growth is the plain relative change in percent |
| VaccineService.CagrEndpointsAreExtremeYears | backend/app/services/vaccine_service.py:37-44 | the growth compares the earliest and the latest year of the selection |
| VaccineService.CagrPermutation | backend/app/services/vaccine_service.py:32-56 | the growth does not depend on the order of the rows |
| VaccineService.SummaryKpis | backend/app/services/vaccine_service.py:59-119 | no rows give three zero KPIs; otherwise four KPIs hold the total market size, the mean price, the total doses and the growth rate, each with a unit and a description |
| VaccineService.SummaryLabels | backend/app/services/vaccine_service.py:64-119 | the KPIs carry the source's names and units in order, with the doses KPI only when rows exist |
| VaccineService.SummaryPermutation | backend/app/services/vaccine_service.py:59-119 | the summary depends only on which rows were selected, not on their order |
| VaccineService.SummaryNonNegative | backend/app/services/vaccine_service.py:86-92 | over valid records market size, mean price and doses are non-negative |
| VaccineService.ComputeSummary | backend/app/services/vaccine_service.py:59-119 | the service's summary is the KPI summary of the matching records |
| AiService.YearlyData | backend/app/services/ai_service.py:175-186 | the yearly aggregates are in strictly increasing year order, one per distinct year, each the aggregate of its year's group |
| AiService.YearlyAggregatesAreGroupStatistics | backend/app/services/ai_service.py:175-186 | each yearly aggregate is the sum of market size, the mean price and the sum of doses over a non-empty year group |
| AiService.YearlyAggregatesNonNegative | backend/app/services/ai_service.py:175-186 | over valid records the yearly aggregates are non-negative |
| AiService.YearlyDataPermutation | backend/app/services/ai_service.py:171-186 | the yearly aggregates do not depend on the order of the rows |
| AiService.LatestYearIsLastAggregate | backend/app/services/ai_service.py:172-186 | the latest year of the rows is the year of the last aggregate |
| AiService.MaxYearPermutation | backend/app/services/ai_service.py:171-172 | the latest year does not depend on the order of the rows |
| AiService.Max0 | backend/app/services/ai_service.py:217-226 | clamping gives a non-negative value at least the input, equal to it or to 0 |
| AiService.PredictionAt | backend/app/services/ai_service.py:188-226 | a prediction is for the latest year plus the step, with the estimates clamped at 0 and kept when non-negative; the lower and upper bounds are the estimate times 0.85 and 1.15; the growth rate is the mean growth over the years when there are two or more, else 0 |
| AiService.BoundsOrderedIffEstimateNonNegative | backend/app/services/ai_service.py:217-226 | the lower bound is at most the upper bound iff the market estimate is non-negative, and then it brackets the estimate |
| AiService.NegativeEstimateOutsideBounds | backend/app/services/ai_service.py:217-226 | a negative market estimate is reported as 0, above both of its inverted bounds |
| AiService.SingleYearForecastIsFlat | backend/app/services/ai_service.py:212-215 | with one year the forecast is flat at that year's figures, with growth 0 and bounds at 85% and 115% |
| AiService.EstimateIsLineThroughLastTwo | backend/app/services/ai_service.py:193-209 | with two or more years the estimates lie on the line through the last two yearly values |
| AiService.GetPredictions | backend/app/services/ai_service.py:149-250 | fewer than two rows give the insufficient-data result; otherwise one prediction per year ahead for the consecutive years after the latest, with confidence 0.75 and the linear method |
| AiService.ExtrapolateYears | backend/app/services/ai_service.py:188-226 | the loop produces exactly max(0, years ahead) predictions, the k-th being the prediction k+1 years after the latest |
| AiService.SortedRowsGiveSameForecastInputs | backend/app/services/ai_service.py:171-186 | sorting the rows first leaves the yearly aggregates and the latest year unchanged |
| AiService.PredictionYearsConsecutive | backend/app/services/ai_service.py:188-226 | the predicted years are consecutive and strictly increasing from the year after the latest |
| AiService.ByTotalDesc | backend/app/services/ai_service.py:60-77 | ordering group totals by descending total gives a permutation in that order |
| AiService.TopBrands | backend/app/services/ai_service.py:60-69 | the top brands are at most five brand totals in descending order, taken without repetition from the brand totals (a sub-multiset, with distinct brands), and no brand left out has a larger total than one kept |
| AiService.TopOfDescending | backend/app/services/ai_service.py:60-69 | the first n of a descending order are min(n, length) elements taken without repetition from the input (a sub-multiset), in descending order, and none left out is larger than one kept |
| AiService.PrefixDominates | backend/app/services/ai_service.py:60-69 | in a descending order no element after the first k is larger than any of the first k |
| AiService.SubMultisetKeysDistinct | backend/app/services/ai_service.py:60-69 | a sub-multiset of brand totals with strictly increasing keys has distinct keys |
| Sequences.TakeSubMultiset | backend/app/services/ai_service.py:60-69 | head(n) takes each element at most as often as the input holds it |
| AiService.RegionalSummary | backend/app/services/ai_service.py:71-77 | the regional totals are all region groups in descending order of total |
| AiService.BrandLines | backend/app/services/ai_service.py:60-69 | one brand line per top brand, in order |
| AiService.RegionLines | backend/app/services/ai_service.py:71-77 | one region line per region total, in order |
| AiService.GetContextData | backend/app/services/ai_service.py:32-79 | no matching rows give the no-data line; otherwise the summary lines, then the top-brand and regional sections |
| AiService.AppendBrandLines | backend/app/services/ai_service.py:60-69 | the loop appends exactly the brand lines |
| AiService.AppendRegionLines | backend/app/services/ai_service.py:71-77 | the loop appends exactly the region lines |
| AiService.UniqueOfSortedIsIncreasing | backend/app/services/ai_service.py:48 | the unique values of a sorted column are strictly increasing |
| AiService.ContextRegionsAscending | backend/app/services/ai_service.py:48 | the regions seen in the sorted selection appear in strictly ascending order |
| AiService.LongFormRedundant | backend/app/services/ai_service.py:129-135 | testing for "bar_chart" as well as "bar" adds nothing, since the long form contains the short one |
| AiService.VisualizationHint | backend/app/services/ai_service.py:129-135 | the hint is a bar chart iff the lower-cased reply mentions "bar", else a line chart iff "line", else a pie chart iff "pie", else a table |
| AiService.VisualizationHintIgnoresCase | backend/app/services/ai_service.py:129-135 | replies that agree character by character up to ASCII case give the same hint |
| AiService.ChatQuery | backend/app/services/ai_service.py:81-147 | no model gives the fixed notice, a failure gives the error text with no hint, and a reply is returned with its hint |
| AiService.ChatHintIffConfident | backend/app/services/ai_service.py:81-147 | an answer has a hint iff it has positive confidence iff the model replied |
| AiService.FenceStart | backend/app/services/ai_service.py:286-294 | the payload starts right after the first occurrence of the opening fence |
| AiService.ExtractPayload | backend/app/services/ai_service.py:286-294 | a reply with a ```json fence yields the text inside that fence; otherwise a reply with a plain ``` fence yields the text inside it; a reply without a fence is parsed whole |
| AiService.PayloadBetweenFences | backend/app/services/ai_service.py:286-294 | with a closing fence the payload is the stripped text between the opening fence and the next fence, which holds no fence |
| AiService.UnclosedFenceDropsLastChar | backend/app/services/ai_service.py:286-294 | with no closing fence the payload runs to the second-last character, so the reply's last character is lost |
| AiService.JsonFencePreferred | backend/app/services/ai_service.py:286-294 | an opening json fence takes precedence over a plain fence |
| AiService.FallbackRecommendations | backend/app/services/ai_service.py:302-319 | the fallback is three fixed recommendations |
| AiService.FallbackTrendIsTimeSeries | backend/app/services/ai_service.py:312-317 | the repeated "type" key in the third fallback leaves only its last value, time_series |
| AiService.GetRecommendations | backend/app/services/ai_service.py:252-319 | no model gives the explore-by-region suggestion, a failure or an unparsable reply gives the fallback, and a parsed list is returned as is |
| AiService.RecommendationsEmptyOnlyFromEmptyList | backend/app/services/ai_service.py:252-319 | no recommendation at all comes only from a reply that parses as an empty list |
| DataService.SplitBrands | app/services/data_service.py:23 | the brand list has at least one entry, each free of commas and already stripped |
| DataService.SplitBrandsOfJoin | app/services/data_service.py:23 | a text made of comma-free pieces joined by commas gives one brand per piece, each the piece with its surrounding whitespace stripped |
| DataService.LastPresentIsLatest | app/services/data_service.py:26-27 | a country has no last value iff none of its rows has the reading, and otherwise its last value is the reading of its latest row that has one |
| DataService.FilledIsForwardFill | app/services/data_service.py:26-27 | a present reading is kept; a missing one takes the country's latest earlier reading, or 0 when there is none |
| DataService.FilledReadings | app/services/data_service.py:26-27 | every numeric column of a cleaned row holds the forward-filled value |
| DataService.Clean | app/services/data_service.py:19-27 | cleaning keeps one row per input row with country, year and vaccines kept, the brand list split, and every reading forward-filled |
| DataService.Remember | app/services/data_service.py:26-27 | the scan memory updates a country's last value for exactly the readings a row has |
| DataService.RememberExtends | app/services/data_service.py:26-27 | remembering one more row keeps the memory equal to the last values of the prefix |
| DataService.LoadAndClean | app/services/data_service.py:7-34 | the single-pass loader returns the cleaned table, or an empty table when the file is missing |
| DataService.DataCache.constructor | app/services/data_service.py:7 | a new cache holds nothing |
| DataService.DataCache.Load | app/services/data_service.py:7-34 | the first load stores the cleaned table; later loads return the stored table unchanged |
| DataService.ExplodeList | app/services/data_service.py:54-57 | exploding a brand list gives one row per brand, the i-th row being the original row with its brand set to the i-th brand |
| DataService.FilteredRecords | app/services/data_service.py:36-60 | an empty table gives nothing; without a vaccine the result is exactly the table filtered, in order, by the given country and year |
| DataService.ExplodeThenFilter | app/services/data_service.py:54-57 | exploding and then keeping the vaccine's rows gives each row once per occurrence of the vaccine in its list |
| DataService.PerOccurrenceMembers | app/services/data_service.py:54-57 | a record is in the per-occurrence result iff it is a row naming the vaccine, with its brand set to the vaccine |
| DataService.VaccineFilterPerOccurrence | app/services/data_service.py:47-57 | with a vaccine the result is the per-occurrence expansion of the rows passing country and year |
| DataService.VaccineFilterMembers | app/services/data_service.py:47-57 | with a vaccine a record is returned iff it is a row passing country and year whose brand list names the vaccine, with its brand set to the vaccine |
| DataService.NoFiltersReturnAll | app/services/data_service.py:44-60 | with no filter the whole cached table is returned |
| DataService.StepwiseKeeps | app/services/data_service.py:47-52 | the country filter then the year filter equals one filter by both |
| DataService.GetFilteredVaccineData | app/services/data_service.py:36-60 | the service loads through the cache and returns the filtered records of the cached table, leaving an already loaded table unchanged |

## Left out

- Language-model calls are not made. Each operation that uses one takes an `LlmOutcome` parameter: not configured, a reply text, or a failure message. Prompt texts and model settings are not modelled.
- The wording and number formatting of context lines and insights are not modelled. Lines are a datatype holding the values they print.
- JSON decoding of recommendations is a `parse` parameter. A decoded list is taken to hold recommendation-shaped items.
- VaccineService.CagrCases: the fractional power is a `root` parameter, and rounding to two decimals is not modelled.
- VaccineService.CagrCases: a negative latest-year total over a span of two or more years makes the source's numpy power of a negative base NaN, so the growth KPI is NaN. The model hands the ratio to `root`, which returns a real, so NaN is not modelled.
- VaccineService.SummaryKpis: the source rounds the total market size, the average price and the total doses to two decimals (backend/app/services/vaccine_service.py:86-90). The model gives the unrounded sums and mean.
- Floating point is modelled as exact reals, so NaN and infinity do not arise.
- CSV reading, date parsing, numeric coercion and column-name normalisation are not modelled. Loading starts from parsed rows with the year already extracted.
- The repository's missing-file error is not modelled. The legacy loader's missing file is `None`, which gives an empty table.
- HTTP routes are not part of this model. This includes the route's 1..5 bound on years ahead; `GetPredictions` accepts any integer.
- Sequences.SortBy: the stable order among records with equal region, brand and year is not pinned down. The contracts state only a sorted permutation.
- Strings.Lower and Strings.IsSpace cover ASCII letters and whitespace only. Unicode case folding and Unicode whitespace are not modelled.
- The mean of an empty selection is taken as 0. The source never averages an empty group.
- The process-wide caches of the repository and assistant singletons are not modelled. The legacy loader's cache is the `DataCache` object, passed explicitly.
- Rows whose country is missing are not modelled. A group-wise forward fill would leave them out of every group.
- Pandas index labels, column dtypes and the records-to-dictionaries conversion are not modelled. Results are sequences of row values.
- DataService.Clean: a missing vaccines cell makes the source's split raise an AttributeError, which the missing-file handler does not catch. In the model every row's vaccines text is a string, so loading never fails this way.
- DataService.Clean: the source keeps every CSV column and returns them all through `to_dict(orient='records')` (app/services/data_service.py:60). The other columns, such as date and iso_code, pass through untouched and are not modelled. A row holds only country, year, vaccines, the brand cell and the four readings.
- DataService.ExplodeList: an empty brand list explodes to a single row with a missing brand (`BrandMissing`), as pandas does.
