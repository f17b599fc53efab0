/**
 * The records the service handles: a country as the directory API returns it,
 * the eight columns written by a refresh, and a row of the `countries` table.
 */
module Country {
  import opened Wrappers

  /** One entry of a directory country's `currencies` list. */
  datatype RawCurrency = RawCurrency(code: Option<string>)

  /**
   * A country as delivered by the directory API. A field the API leaves out is
   * `None`; `currencies` is `None` when the list itself is absent.
   */
  datatype RawCountry = RawCountry(
    name: string,
    capital: Option<string>,
    region: Option<string>,
    population: nat,
    currencies: Option<seq<RawCurrency>>,
    flag: Option<string>)

  /** The eight columns that a refresh writes for one country, in column order. */
  datatype CountryData = CountryData(
    name: string,
    capital: Option<string>,
    region: Option<string>,
    population: Option<nat>,
    currencyCode: Option<string>,
    exchangeRate: Option<real>,
    estimatedGdp: Option<real>,
    flagUrl: Option<string>)

  /** A row of the `countries` table: the eight columns plus `last_refreshed_at`. */
  datatype CountryRow = CountryRow(data: CountryData, lastRefreshedAt: int)

  /** The row a refresh writes at time `now`, whether it inserts or updates. */
  function Stamp(d: CountryData, now: int): CountryRow {
    CountryRow(d, now)
  }

  /** The estimated GDP is present only when the exchange rate is. */
  predicate GdpNeedsRate(d: CountryData) {
    d.estimatedGdp.Some? ==> d.exchangeRate.Some?
  }
}
