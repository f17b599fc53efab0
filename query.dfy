/**
 * `GET /countries?region=&currency=&sort=`: the rows read from the table are
 * filtered by region, then by currency, then optionally sorted by estimated
 * GDP, descending.
 */
module Query {
  import opened Wrappers
  import opened Text
  import opened Country
  import opened Sequences

  /** The outcomes of the handler: 404, a 200 with a JSON array, 400 and 500. */
  datatype QueryOutcome =
    | NoCountries
    | Rows(rows: seq<CountryRow>)
    | InvalidSort
    | ServerError

  /** The only sort key the handler accepts. */
  const GdpDesc: string := "gdp_desc"

  /** `item.region.toLowerCase() === region.toLowerCase()`, for a row whose region is present. */
  predicate RegionMatches(r: CountryRow, region: string) {
    r.data.region.Some? && SameIgnoringCase(r.data.region.value, region)
  }

  /** `item.currency_code && item.currency_code.toLowerCase() === currency.toLowerCase()`. */
  predicate CurrencyMatches(r: CountryRow, currency: string) {
    r.data.currencyCode.Some? && r.data.currencyCode.value != "" &&
    SameIgnoringCase(r.data.currencyCode.value, currency)
  }

  /** Some row has no region, so the region filter throws on it. */
  predicate HasNullRegion(rows: seq<CountryRow>) {
    exists i :: 0 <= i < |rows| && rows[i].data.region.None?
  }

  /** A row the two optional filters, taken together, let through. */
  predicate Wanted(r: CountryRow, region: Option<string>, currency: Option<string>) {
    (region.None? || RegionMatches(r, region.value)) &&
    (currency.None? || CurrencyMatches(r, currency.value))
  }

  /** `estimated_gdp || 0`: an absent estimate sorts as zero. */
  function GdpKey(r: CountryRow): real {
    if r.data.estimatedGdp.Some? then r.data.estimatedGdp.value else 0.0
  }

  ghost predicate NonIncreasingGdp(s: seq<CountryRow>) {
    forall i, j :: 0 <= i < j < |s| ==> GdpKey(s[i]) >= GdpKey(s[j])
  }

  /** An element no smaller than every element of a sorted sequence can go in front of it. */
  lemma ConsNonIncreasing(a: CountryRow, t: seq<CountryRow>)
    requires NonIncreasingGdp(t)
    requires forall j :: 0 <= j < |t| ==> GdpKey(a) >= GdpKey(t[j])
    ensures NonIncreasingGdp([a] + t)
  {
  }

  /** Every element of `t`, a permutation of `s` plus `x`, is bounded by a key bounding `s` and `x`. */
  lemma BoundedByPermutation(a: CountryRow, x: CountryRow, s: seq<CountryRow>, t: seq<CountryRow>)
    requires multiset(t) == multiset(s) + multiset{x}
    requires GdpKey(a) >= GdpKey(x)
    requires forall j :: 0 <= j < |s| ==> GdpKey(a) >= GdpKey(s[j])
    ensures forall j :: 0 <= j < |t| ==> GdpKey(a) >= GdpKey(t[j])
  {
    forall j | 0 <= j < |t| ensures GdpKey(a) >= GdpKey(t[j]) {
      assert t[j] in multiset(t);
      if t[j] != x {
        assert t[j] in multiset(s);
        var k :| 0 <= k < |s| && s[k] == t[j];
      }
    }
  }

  /** Places `x` in front of the first element whose key is not larger than its own. */
  function InsertByGdp(x: CountryRow, s: seq<CountryRow>): (r: seq<CountryRow>)
    requires NonIncreasingGdp(s)
    ensures NonIncreasingGdp(r)
    ensures multiset(r) == multiset(s) + multiset{x}
    ensures |r| == |s| + 1
    decreases |s|
  {
    if s == [] then [x]
    else if GdpKey(s[0]) <= GdpKey(x) then
      ConsNonIncreasing(x, s);
      [x] + s
    else
      var rest := InsertByGdp(x, s[1..]);
      assert s == [s[0]] + s[1..];
      BoundedByPermutation(s[0], x, s[1..], rest);
      ConsNonIncreasing(s[0], rest);
      [s[0]] + rest
  }

  /**
   * `filteredList.sort((a, b) => (b.estimated_gdp || 0) - (a.estimated_gdp || 0))`:
   * a permutation of the input whose keys do not increase.
   */
  function SortByGdpDesc(s: seq<CountryRow>): (r: seq<CountryRow>)
    ensures NonIncreasingGdp(r)
    ensures multiset(r) == multiset(s)
    ensures |r| == |s|
    decreases |s|
  {
    if s == [] then []
    else
      assert s == [s[0]] + s[1..];
      InsertByGdp(s[0], SortByGdpDesc(s[1..]))
  }

  /** `filteredList.filter(...)` for the region query, when no row lacks a region. */
  function ByRegion(rows: seq<CountryRow>, region: Option<string>): (r: seq<CountryRow>)
    ensures region.None? ==> r == rows
    ensures forall x :: multiset(r)[x] == (if region.None? || RegionMatches(x, region.value) then multiset(rows)[x] else 0)
  {
    if region.Some? then Filter(rows, (r: CountryRow) => RegionMatches(r, region.value)) else rows
  }

  /** `filteredList.filter(...)` for the currency query. */
  function ByCurrency(rows: seq<CountryRow>, currency: Option<string>): (r: seq<CountryRow>)
    ensures currency.None? ==> r == rows
    ensures forall x :: multiset(r)[x] == (if currency.None? || CurrencyMatches(x, currency.value) then multiset(rows)[x] else 0)
  {
    if currency.Some? then Filter(rows, (r: CountryRow) => CurrencyMatches(r, currency.value)) else rows
  }

  /** The handler, on the rows `SELECT * FROM countries` returned. */
  function QueryCountries(rows: seq<CountryRow>, region: Option<string>, currency: Option<string>, sort: Option<string>): (out: QueryOutcome)
    ensures out == NoCountries <==> |rows| == 0
    ensures out == ServerError <==> |rows| > 0 && region.Some? && HasNullRegion(rows)
    ensures out == InvalidSort <==>
      |rows| > 0 && !(region.Some? && HasNullRegion(rows)) && sort.Some? && sort.value != GdpDesc
    ensures out.Rows? ==> sort.None? || sort.value == GdpDesc
  {
    if |rows| == 0 then NoCountries
    else if region.Some? && HasNullRegion(rows) then ServerError
    else
      var filtered := ByCurrency(ByRegion(rows, region), currency);
      if sort.None? then Rows(filtered)
      else if sort.value == GdpDesc then Rows(SortByGdpDesc(filtered))
      else InvalidSort
  }

  /** The two filters in sequence keep exactly the wanted rows, in their original order. */
  lemma FiltersSelectWanted(rows: seq<CountryRow>, region: Option<string>, currency: Option<string>)
    ensures IsSubsequence(ByCurrency(ByRegion(rows, region), currency), rows)
    ensures forall x :: multiset(ByCurrency(ByRegion(rows, region), currency))[x] == (if Wanted(x, region, currency) then multiset(rows)[x] else 0)
  {
    var wanted := (r: CountryRow) => Wanted(r, region, currency);
    FiltersAreWanted(rows, region, currency, wanted);
    FilterIsSubsequence(rows, wanted);
  }

  /** The two filters in sequence are one filter by `Wanted`. */
  lemma FiltersAreWanted(rows: seq<CountryRow>, region: Option<string>, currency: Option<string>, wanted: CountryRow -> bool)
    requires forall r :: wanted(r) == Wanted(r, region, currency)
    ensures ByCurrency(ByRegion(rows, region), currency) == Filter(rows, wanted)
  {
    if region.Some? && currency.Some? {
      FilterTwice(rows, (r: CountryRow) => RegionMatches(r, region.value),
                  (r: CountryRow) => CurrencyMatches(r, currency.value), wanted);
    } else if region.Some? {
      FilterSame(rows, (r: CountryRow) => RegionMatches(r, region.value), wanted);
    } else if currency.Some? {
      FilterSame(rows, (r: CountryRow) => CurrencyMatches(r, currency.value), wanted);
    } else {
      FilterKeepsAll(rows, wanted);
    }
  }

  /**
   * A successful query returns exactly the wanted rows: in table order when
   * no sort is asked for, by non-increasing estimated GDP for `gdp_desc`.
   */
  lemma QueryReturnsWantedRows(rows: seq<CountryRow>, region: Option<string>, currency: Option<string>, sort: Option<string>)
    requires QueryCountries(rows, region, currency, sort).Rows?
    ensures forall x ::
      multiset(QueryCountries(rows, region, currency, sort).rows)[x] == (if Wanted(x, region, currency) then multiset(rows)[x] else 0)
    ensures sort.None? ==> IsSubsequence(QueryCountries(rows, region, currency, sort).rows, rows)
    ensures sort.Some? ==> NonIncreasingGdp(QueryCountries(rows, region, currency, sort).rows)
  {
    FiltersSelectWanted(rows, region, currency);
  }

  /** Sorting is applied to the filtered rows: the sorted answer is a reordering of the unsorted one. */
  lemma SortReordersFilteredRows(rows: seq<CountryRow>, region: Option<string>, currency: Option<string>)
    ensures QueryCountries(rows, region, currency, Some(GdpDesc)).Rows? <==> QueryCountries(rows, region, currency, None).Rows?
    ensures QueryCountries(rows, region, currency, None).Rows? ==>
      multiset(QueryCountries(rows, region, currency, Some(GdpDesc)).rows) == multiset(QueryCountries(rows, region, currency, None).rows)
  {
  }

  /** A non-empty table on which nothing matches gives a successful empty list, not the 404 of an empty table. */
  lemma NoMatchIsEmptySuccess(rows: seq<CountryRow>, region: Option<string>, currency: Option<string>, sort: Option<string>)
    requires |rows| > 0 && !(region.Some? && HasNullRegion(rows))
    requires sort.None? || sort.value == GdpDesc
    requires forall i :: 0 <= i < |rows| ==> !Wanted(rows[i], region, currency)
    ensures QueryCountries(rows, region, currency, sort) == Rows([])
  {
    FiltersSelectWanted(rows, region, currency);
  }

  function Row(name: string, gdp: Option<real>): CountryRow {
    CountryRow(CountryData(name, None, Some("Africa"), None, None, None, gdp, None), 0)
  }

  /** Rows with estimates absent, 5 and 10 come back as 10, 5, absent. */
  lemma GdpDescOrdersAbsentLast()
    ensures QueryCountries([Row("A", None), Row("B", Some(5.0)), Row("C", Some(10.0))], None, None, Some(GdpDesc))
      == Rows([Row("C", Some(10.0)), Row("B", Some(5.0)), Row("A", None)])
  {
    var a, b, c := Row("A", None), Row("B", Some(5.0)), Row("C", Some(10.0));
    assert ByCurrency(ByRegion([a, b, c], None), None) == [a, b, c];
    assert [a, b, c][1..] == [b, c] && [b, c][1..] == [c] && [c][1..] == [];
    assert SortByGdpDesc([c]) == [c];
    assert InsertByGdp(b, [c]) == [c] + InsertByGdp(b, []) == [c, b];
    assert SortByGdpDesc([b, c]) == [c, b];
    assert InsertByGdp(a, [b]) == [b] + InsertByGdp(a, []) == [b, a];
    assert InsertByGdp(a, [c, b]) == [c] + InsertByGdp(a, [b]) == [c, b, a];
    assert SortByGdpDesc([a, b, c]) == InsertByGdp(a, SortByGdpDesc([b, c]));
  }
}
