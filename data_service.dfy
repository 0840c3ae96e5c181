/** The legacy vaccination-data service (app/services/data_service.py): a
    loader that splits each row's vaccine list and fills the numeric
    columns forward within each country, a cache that loads only once, and
    a filter by country, year and vaccine that explodes the vaccine lists. */
module DataService {
  import opened Wrappers
  import opened Strings
  import opened Sequences

  // ---------------------------------------------------------------------
  // the table

  /** The four numeric columns that are filled after loading. */
  datatype NumericColumn = TotalVaccinations | PeopleVaccinated | PeopleFullyVaccinated | DailyVaccinations

  /** One value per numeric column. */
  datatype Readings<T> = Readings(
    totalVaccinations: T,
    peopleVaccinated: T,
    peopleFullyVaccinated: T,
    dailyVaccinations: T)

  function Reading<T>(r: Readings<T>, c: NumericColumn): T {
    match c
    case TotalVaccinations => r.totalVaccinations
    case PeopleVaccinated => r.peopleVaccinated
    case PeopleFullyVaccinated => r.peopleFullyVaccinated
    case DailyVaccinations => r.dailyVaccinations
  }

  /** A row as read from the file; `year` is the year of its `date`, and a
      numeric cell may be missing. */
  datatype RawRow = RawRow(
    country: string,
    year: int,
    vaccines: string,
    readings: Readings<Option<real>>)

  /** The `vaccine_brand` cell: the list made when loading, one brand after
      `explode`, or missing (what `explode` makes of an empty list). */
  datatype BrandCell = BrandList(brands: seq<string>) | BrandScalar(brand: string) | BrandMissing

  /** A cleaned row: no numeric cell is missing any more. */
  datatype CleanRow = CleanRow(
    country: string,
    year: int,
    vaccines: string,
    vaccineBrand: BrandCell,
    readings: Readings<real>)

  // ---------------------------------------------------------------------
  // cleaning

  /** `[v.strip() for v in x.split(',')]`. */
  function SplitBrands(vaccines: string): (brands: seq<string>)
    ensures |brands| >= 1
    ensures forall i :: 0 <= i < |brands| ==> ',' !in brands[i]
    ensures forall i :: 0 <= i < |brands| ==> Strip(brands[i]) == brands[i]
  {
    var parts := Split(vaccines, ',');
    var brands := seq(|parts|, i requires 0 <= i < |parts| => Strip(parts[i]));
    forall i | 0 <= i < |brands|
      ensures ',' !in brands[i] && Strip(brands[i]) == brands[i]
    {
      StripIdempotent(parts[i]);
    }
    brands
  }

  /** A vaccines text written as comma-separated pieces reads back as those
      pieces, each stripped; every text is such a join (`JoinSplit`), so
      this pins the brand list of any text. */
  lemma SplitBrandsOfJoin(pieces: seq<string>)
    requires |pieces| >= 1
    requires forall i :: 0 <= i < |pieces| ==> ',' !in pieces[i]
    ensures |SplitBrands(Join(pieces, ','))| == |pieces|
    ensures forall i :: 0 <= i < |pieces| ==> SplitBrands(Join(pieces, ','))[i] == Strip(pieces[i])
  {
    SplitJoin(pieces, ',');
  }

  /** The most recent present value of column `c` among the rows of
      `country`, or None when there is none. */
  function LastPresent(rows: seq<RawRow>, country: string, c: NumericColumn): Option<real>
    decreases |rows|
  {
    if rows == [] then None
    else
      var r := rows[|rows| - 1];
      if r.country == country && Reading(r.readings, c).Some? then Reading(r.readings, c)
      else LastPresent(rows[..|rows| - 1], country, c)
  }

  /** Row `k` is the last row of `country` in `rows` with column `c` present. */
  ghost predicate LatestPresentAt(rows: seq<RawRow>, country: string, c: NumericColumn, k: int) {
    && 0 <= k < |rows|
    && rows[k].country == country
    && Reading(rows[k].readings, c).Some?
    && forall j :: k < j < |rows| && rows[j].country == country ==> Reading(rows[j].readings, c).None?
  }

  /** `LastPresent` finds nothing exactly when no row of the country has the
      value, and otherwise finds the value of the latest row that has it. */
  lemma {:induction false} LastPresentIsLatest(rows: seq<RawRow>, country: string, c: NumericColumn)
    ensures LastPresent(rows, country, c).None? <==>
              forall k :: 0 <= k < |rows| && rows[k].country == country ==> Reading(rows[k].readings, c).None?
    ensures forall k :: LatestPresentAt(rows, country, c, k) ==>
              LastPresent(rows, country, c) == Reading(rows[k].readings, c)
    decreases |rows|
  {
    if rows != [] {
      var n := |rows| - 1;
      var init := rows[..n];
      LastPresentIsLatest(init, country, c);
      if rows[n].country == country && Reading(rows[n].readings, c).Some? {
        forall k | LatestPresentAt(rows, country, c, k)
          ensures k == n
        {
        }
      } else {
        forall k | LatestPresentAt(rows, country, c, k)
          ensures LatestPresentAt(init, country, c, k)
        {
        }
      }
    }
  }

  /** The cleaned value of column `c` in row `i`: the latest value present
      in that column among the rows of the same country up to row `i`, or 0. */
  function FilledValue(raw: seq<RawRow>, i: nat, c: NumericColumn): real
    requires i < |raw|
  {
    LastPresent(raw[..i + 1], raw[i].country, c).GetOr(0.0)
  }

  /** `groupby('country').ffill().fillna(0)`, stated cell by cell: a present
      cell keeps its value; a missing one takes the value of the latest
      earlier row of the same country that has one, or 0 if none does. */
  lemma FilledIsForwardFill(raw: seq<RawRow>, i: nat, c: NumericColumn)
    requires i < |raw|
    ensures Reading(raw[i].readings, c).Some? ==> FilledValue(raw, i, c) == Reading(raw[i].readings, c).value
    ensures forall k :: LatestPresentAt(raw[..i + 1], raw[i].country, c, k) ==>
              FilledValue(raw, i, c) == Reading(raw[k].readings, c).value
    ensures (forall k :: 0 <= k <= i && raw[k].country == raw[i].country ==> Reading(raw[k].readings, c).None?) ==>
              FilledValue(raw, i, c) == 0.0
  {
    var rows := raw[..i + 1];
    LastPresentIsLatest(rows, raw[i].country, c);
    if forall k :: 0 <= k <= i && raw[k].country == raw[i].country ==> Reading(raw[k].readings, c).None? {
      forall k | 0 <= k < |rows| && rows[k].country == raw[i].country
        ensures Reading(rows[k].readings, c).None?
      {
        assert rows[k] == raw[k];
      }
    }
  }

  function FilledReadings(raw: seq<RawRow>, i: nat): (r: Readings<real>)
    requires i < |raw|
    ensures forall c :: Reading(r, c) == FilledValue(raw, i, c)
  {
    Readings(FilledValue(raw, i, TotalVaccinations), FilledValue(raw, i, PeopleVaccinated),
             FilledValue(raw, i, PeopleFullyVaccinated), FilledValue(raw, i, DailyVaccinations))
  }

  function CleanRowAt(raw: seq<RawRow>, i: nat): CleanRow
    requires i < |raw|
  {
    CleanRow(raw[i].country, raw[i].year, raw[i].vaccines,
             BrandList(SplitBrands(raw[i].vaccines)), FilledReadings(raw, i))
  }

  /** The cleaned table: one row per raw row, in the same order, keeping
      country, year and vaccines, with the brand list and filled values. */
  function Clean(raw: seq<RawRow>): (df: seq<CleanRow>)
    ensures |df| == |raw|
    ensures forall i :: 0 <= i < |raw| ==>
              && df[i].country == raw[i].country
              && df[i].year == raw[i].year
              && df[i].vaccines == raw[i].vaccines
              && df[i].vaccineBrand == BrandList(SplitBrands(raw[i].vaccines))
    ensures forall i, c :: 0 <= i < |raw| ==> Reading(df[i].readings, c) == FilledValue(raw, i, c)
  {
    seq(|raw|, i requires 0 <= i < |raw| => CleanRowAt(raw, i))
  }

  /** What loading gives: the cleaned table, or an empty one when the file
      is not found. */
  function Loaded(file: Option<seq<RawRow>>): seq<CleanRow> {
    if file.Some? then Clean(file.value) else []
  }

  /** The scan's memory: the last present value per country and column. */
  type LastSeen = map<(string, NumericColumn), real>

  function Lookup(last: LastSeen, country: string, c: NumericColumn): Option<real> {
    if (country, c) in last then Some(last[(country, c)]) else None
  }

  function Note(last: LastSeen, country: string, c: NumericColumn, cell: Option<real>): LastSeen {
    if cell.Some? then last[(country, c) := cell.value] else last
  }

  /** The memory after seeing row `r`: its present cells replace what was
      remembered for its country; everything else is kept. */
  function Remember(last: LastSeen, r: RawRow): (next: LastSeen)
    ensures forall country, c :: Lookup(next, country, c) ==
              if country == r.country && Reading(r.readings, c).Some? then Reading(r.readings, c)
              else Lookup(last, country, c)
  {
    var l1 := Note(last, r.country, TotalVaccinations, r.readings.totalVaccinations);
    var l2 := Note(l1, r.country, PeopleVaccinated, r.readings.peopleVaccinated);
    var l3 := Note(l2, r.country, PeopleFullyVaccinated, r.readings.peopleFullyVaccinated);
    Note(l3, r.country, DailyVaccinations, r.readings.dailyVaccinations)
  }

  /** Remembering row `i` turns the memory of the rows before it into the
      memory of the rows up to it. */
  lemma RememberExtends(raw: seq<RawRow>, i: nat, last: LastSeen)
    requires i < |raw|
    requires forall country, c :: Lookup(last, country, c) == LastPresent(raw[..i], country, c)
    ensures forall country, c :: Lookup(Remember(last, raw[i]), country, c) == LastPresent(raw[..i + 1], country, c)
  {
    assert raw[..i + 1][..i] == raw[..i];
  }

  /** `load_and_clean_data`: a missing file gives the empty table; otherwise
      the rows are scanned in order, remembering per country the last value
      present in each numeric column, and each row is emitted with its brand
      list and its cells filled from that memory (0 when nothing was seen). */
  method LoadAndClean(file: Option<seq<RawRow>>) returns (df: seq<CleanRow>)
    ensures df == Loaded(file)
  {
    if file.None? {
      return [];
    }
    var raw := file.value;
    df := [];
    var last: LastSeen := map[];
    var i := 0;
    while i < |raw|
      invariant 0 <= i <= |raw|
      invariant |df| == i
      invariant forall k :: 0 <= k < i ==> df[k] == CleanRowAt(raw, k)
      invariant forall country, c :: Lookup(last, country, c) == LastPresent(raw[..i], country, c)
    {
      var r := raw[i];
      RememberExtends(raw, i, last);
      last := Remember(last, r);
      var filled := Readings(Lookup(last, r.country, TotalVaccinations).GetOr(0.0),
                             Lookup(last, r.country, PeopleVaccinated).GetOr(0.0),
                             Lookup(last, r.country, PeopleFullyVaccinated).GetOr(0.0),
                             Lookup(last, r.country, DailyVaccinations).GetOr(0.0));
      assert filled == FilledReadings(raw, i);
      df := df + [CleanRow(r.country, r.year, r.vaccines, BrandList(SplitBrands(r.vaccines)), filled)];
      i := i + 1;
    }
  }

  /** The `lru_cache` around `load_and_clean_data`: the file is read and
      cleaned on the first call only, and later calls return that table. */
  class DataCache {
    var loaded: bool
    var df: seq<CleanRow>

    constructor ()
      ensures !loaded && df == []
    {
      loaded := false;
      df := [];
    }

    method Load(file: Option<seq<RawRow>>) returns (table: seq<CleanRow>)
      modifies this
      ensures loaded && table == df
      ensures old(loaded) ==> df == old(df)
      ensures !old(loaded) ==> df == Loaded(file)
    {
      if !loaded {
        df := LoadAndClean(file);
        loaded := true;
      }
      table := df;
    }
  }

  // ---------------------------------------------------------------------
  // filtering

  /** `if country:` — absent or empty imposes nothing. */
  predicate GivenText(s: Option<string>) {
    s.Some? && s.value != ""
  }

  /** `if year:` — absent or 0 imposes nothing. */
  predicate GivenYear(y: Option<int>) {
    y.Some? && y.value != 0
  }

  /** Exact, case-sensitive country equality and exact year equality. */
  predicate Keeps(r: CleanRow, country: Option<string>, year: Option<int>) {
    (GivenText(country) ==> r.country == country.value) && (GivenYear(year) ==> r.year == year.value)
  }

  function CountryMask(country: Option<string>): CleanRow -> bool {
    (r: CleanRow) => GivenText(country) ==> r.country == country.value
  }

  function YearMask(year: Option<int>): CleanRow -> bool {
    (r: CleanRow) => GivenYear(year) ==> r.year == year.value
  }

  function KeepMask(country: Option<string>, year: Option<int>): CleanRow -> bool {
    (r: CleanRow) => Keeps(r, country, year)
  }

  function BrandIs(vaccine: string): CleanRow -> bool {
    (r: CleanRow) => r.vaccineBrand == BrandScalar(vaccine)
  }

  /** One row per brand of the list, each with that brand as a scalar. */
  function ExplodeList(r: CleanRow, brands: seq<string>): (rows: seq<CleanRow>)
    ensures |rows| == |brands|
    ensures forall i :: 0 <= i < |brands| ==> rows[i] == r.(vaccineBrand := BrandScalar(brands[i]))
    decreases |brands|
  {
    if brands == [] then []
    else [r.(vaccineBrand := BrandScalar(brands[0]))] + ExplodeList(r, brands[1..])
  }

  /** `explode` on one row: a list becomes one row per element, an empty
      list one row with a missing brand, a scalar stays as it is. */
  function ExplodeRow(r: CleanRow): seq<CleanRow> {
    match r.vaccineBrand
    case BrandList(bs) => if bs == [] then [r.(vaccineBrand := BrandMissing)] else ExplodeList(r, bs)
    case _ => [r]
  }

  function Explode(rows: seq<CleanRow>): seq<CleanRow>
    decreases |rows|
  {
    if rows == [] then [] else ExplodeRow(rows[0]) + Explode(rows[1..])
  }

  /** How often `vaccine` occurs in a brand cell. */
  function Occurrences(cell: BrandCell, vaccine: string): nat {
    match cell
    case BrandList(bs) => multiset(bs)[vaccine]
    case BrandScalar(b) => if b == vaccine then 1 else 0
    case BrandMissing => 0
  }

  /** The reference result of the vaccine filter: each row, in order,
      repeated once per occurrence of the vaccine in its brand cell, with
      that vaccine as its brand. */
  function PerOccurrence(rows: seq<CleanRow>, vaccine: string): seq<CleanRow>
    decreases |rows|
  {
    if rows == [] then []
    else Repeat(rows[0].(vaccineBrand := BrandScalar(vaccine)), Occurrences(rows[0].vaccineBrand, vaccine))
         + PerOccurrence(rows[1..], vaccine)
  }

  /** `get_filtered_vaccine_data` on the cached table: nothing from an empty
      table; otherwise country and year narrow the rows, and a vaccine
      explodes the brand lists and keeps the rows with that brand. */
  function FilteredRecords(df: seq<CleanRow>, country: Option<string>, vaccine: Option<string>,
                           year: Option<int>): (records: seq<CleanRow>)
    ensures df == [] ==> records == []
    ensures !GivenText(vaccine) ==> forall r :: r in records <==> r in df && Keeps(r, country, year)
    ensures !GivenText(vaccine) ==> records == Filter(df, KeepMask(country, year))
  {
    FilterMembers(df, KeepMask(country, year));
    if df == [] then []
    else
      var kept := Filter(df, KeepMask(country, year));
      if GivenText(vaccine) then Filter(Explode(kept), BrandIs(vaccine.value)) else kept
  }

  lemma {:induction false} ExplodeListFilter(r: CleanRow, brands: seq<string>, vaccine: string)
    ensures Filter(ExplodeList(r, brands), BrandIs(vaccine))
              == Repeat(r.(vaccineBrand := BrandScalar(vaccine)), multiset(brands)[vaccine])
    decreases |brands|
  {
    if brands != [] {
      var head := r.(vaccineBrand := BrandScalar(brands[0]));
      var rest := ExplodeList(r, brands[1..]);
      var x := r.(vaccineBrand := BrandScalar(vaccine));
      var n := multiset(brands[1..])[vaccine];
      assert ExplodeList(r, brands) == [head] + rest;
      FilterAppend([head], rest, BrandIs(vaccine));
      ExplodeListFilter(r, brands[1..], vaccine);
      assert Filter(ExplodeList(r, brands), BrandIs(vaccine)) == Filter([head], BrandIs(vaccine)) + Repeat(x, n);
      CountCons(brands, vaccine);
      FilterSingleton(head, BrandIs(vaccine));
      if brands[0] == vaccine {
        assert head == x;
        RepeatCons(x, n);
      } else {
        assert Filter([head], BrandIs(vaccine)) == [];
      }
    }
  }

  lemma ExplodeRowFilter(r: CleanRow, vaccine: string)
    ensures Filter(ExplodeRow(r), BrandIs(vaccine))
              == Repeat(r.(vaccineBrand := BrandScalar(vaccine)), Occurrences(r.vaccineBrand, vaccine))
  {
    match r.vaccineBrand
    case BrandList(bs) =>
      if bs != [] {
        ExplodeListFilter(r, bs, vaccine);
      }
    case _ =>
  }

  /** Exploding and keeping one brand gives each row once per occurrence. */
  lemma {:induction false} ExplodeThenFilter(rows: seq<CleanRow>, vaccine: string)
    ensures Filter(Explode(rows), BrandIs(vaccine)) == PerOccurrence(rows, vaccine)
    decreases |rows|
  {
    if rows != [] {
      FilterAppend(ExplodeRow(rows[0]), Explode(rows[1..]), BrandIs(vaccine));
      ExplodeRowFilter(rows[0], vaccine);
      ExplodeThenFilter(rows[1..], vaccine);
    }
  }

  /** A row is in the reference result exactly when it is an input row
      whose brand cell holds the vaccine, with the vaccine as its brand. */
  lemma {:induction false} PerOccurrenceMembers(rows: seq<CleanRow>, vaccine: string, x: CleanRow)
    ensures x in PerOccurrence(rows, vaccine) <==>
              exists r :: r in rows && Occurrences(r.vaccineBrand, vaccine) > 0
                          && x == r.(vaccineBrand := BrandScalar(vaccine))
    decreases |rows|
  {
    if rows != [] {
      PerOccurrenceMembers(rows[1..], vaccine, x);
      var h := rows[0].(vaccineBrand := BrandScalar(vaccine));
      var n := Occurrences(rows[0].vaccineBrand, vaccine);
      if n > 0 {
        assert Repeat(h, n)[0] == h;
      }
      assert x in Repeat(h, n) <==> n > 0 && x == h;
      assert forall r :: r in rows <==> r == rows[0] || r in rows[1..] by {
        assert rows == [rows[0]] + rows[1..];
      }
    }
  }

  /** With a vaccine given, the result is, for each row passing the country
      and year filters in order, one copy per occurrence of the vaccine in
      its brand list, carrying that vaccine as a scalar brand. */
  lemma VaccineFilterPerOccurrence(df: seq<CleanRow>, country: Option<string>, vaccine: Option<string>,
                                   year: Option<int>)
    requires GivenText(vaccine)
    ensures FilteredRecords(df, country, vaccine, year)
              == PerOccurrence(Filter(df, KeepMask(country, year)), vaccine.value)
  {
    ExplodeThenFilter(Filter(df, KeepMask(country, year)), vaccine.value);
  }

  /** With a vaccine given, a record is returned exactly when it is a row
      that passes country and year, whose brand list names the vaccine,
      with its brand replaced by the vaccine. */
  lemma VaccineFilterMembers(df: seq<CleanRow>, country: Option<string>, vaccine: Option<string>,
                             year: Option<int>, x: CleanRow)
    requires GivenText(vaccine)
    ensures x in FilteredRecords(df, country, vaccine, year) <==>
              exists r :: r in df && Keeps(r, country, year) && Occurrences(r.vaccineBrand, vaccine.value) > 0
                          && x == r.(vaccineBrand := BrandScalar(vaccine.value))
  {
    var v := vaccine.value;
    var kept := Filter(df, KeepMask(country, year));
    VaccineFilterPerOccurrence(df, country, vaccine, year);
    PerOccurrenceMembers(kept, v, x);
    FilterMembers(df, KeepMask(country, year));
    assert forall r :: r in kept <==> r in df && Keeps(r, country, year);
  }

  /** With no filter given, the whole table comes back unchanged. */
  lemma NoFiltersReturnAll(df: seq<CleanRow>)
    ensures FilteredRecords(df, None, None, None) == df
  {
    FilterAll(df, KeepMask(None, None));
  }

  /** Filtering country, then year, keeps the rows passing both at once. */
  lemma StepwiseKeeps(df: seq<CleanRow>, country: Option<string>, year: Option<int>)
    ensures Filter(Filter(df, CountryMask(country)), YearMask(year)) == Filter(df, KeepMask(country, year))
  {
    FilterFilter(df, CountryMask(country), YearMask(year), KeepMask(country, year));
  }

  /** `get_filtered_vaccine_data`: loads through the cache, then narrows a
      copy of the table step by step. The cached table is left as it was
      (or as first loaded). */
  method GetFilteredVaccineData(cache: DataCache, file: Option<seq<RawRow>>, country: Option<string>,
                                vaccine: Option<string>, year: Option<int>)
    returns (records: seq<CleanRow>)
    modifies cache
    ensures cache.loaded
    ensures old(cache.loaded) ==> cache.df == old(cache.df)
    ensures !old(cache.loaded) ==> cache.df == Loaded(file)
    ensures records == FilteredRecords(cache.df, country, vaccine, year)
  {
    var df := cache.Load(file);
    if df == [] {
      return [];
    }
    var filtered := df;
    if country.Some? && country.value != "" {
      var want := country.value;
      var keep := (r: CleanRow) => r.country == want;
      FilterExt(filtered, keep, CountryMask(country));
      filtered := Filter(filtered, keep);
    } else {
      FilterAll(filtered, CountryMask(country));
    }
    var afterCountry := filtered;
    if year.Some? && year.value != 0 {
      var want := year.value;
      var keep := (r: CleanRow) => r.year == want;
      FilterExt(filtered, keep, YearMask(year));
      filtered := Filter(filtered, keep);
    } else {
      FilterAll(filtered, YearMask(year));
    }
    assert filtered == Filter(afterCountry, YearMask(year));
    StepwiseKeeps(df, country, year);
    if vaccine.Some? && vaccine.value != "" {
      filtered := Explode(filtered);
      filtered := Filter(filtered, BrandIs(vaccine.value));
    }
    records := filtered;
  }
}
