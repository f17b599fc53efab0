/**
 * The persisted `countries` table and the handlers that use it:
 * `POST /countries/refresh`, `DELETE /countries/:name`,
 * `GET /countries/:name` and `GET /status`.
 */
module Table {
  import opened Wrappers
  import opened Text
  import opened Country
  import opened Enrichment
  import opened Store

  /** The two upstream APIs, named as the refresh handler tags their failures. */
  datatype ApiSource = RestCountries | OpenExchangeRates

  /** The HTTP response an upstream API answered with. */
  datatype UpstreamResponse = UpstreamResponse(status: int, body: string)

  /**
   * The result of one upstream request: its data, or a failure that carries
   * the response when the API answered and nothing when it could not be reached.
   */
  datatype Fetch<T> = Fetched(value: T) | FetchFailed(response: Option<UpstreamResponse>)

  /** The failure the refresh handler reports: which API failed, and how. */
  datatype FetchError = FetchError(source: ApiSource, response: Option<UpstreamResponse>)

  /** What `POST /countries/refresh` answers. */
  datatype RefreshOutcome =
    | Created
    | UpstreamUnavailable(status: int, source: ApiSource, underlying: string)
    | InternalError

  const BadGateway: int := 502
  const ConnectionFailureMessage: string := "Error connecting to external services."

  /**
   * The rejection `Promise.all` delivers. When both requests fail, the one
   * that fails first wins; `ratesFailFirst` says which that is.
   */
  function FirstFailure<A, B>(directory: Fetch<A>, rates: Fetch<B>, ratesFailFirst: bool): (e: Option<FetchError>)
    ensures e.None? <==> directory.Fetched? && rates.Fetched?
    ensures e.Some? && e.value.source == RestCountries ==> directory.FetchFailed? && e.value.response == directory.response
    ensures e.Some? && e.value.source == OpenExchangeRates ==> rates.FetchFailed? && e.value.response == rates.response
    ensures directory.FetchFailed? && rates.Fetched? ==> e == Some(FetchError(RestCountries, directory.response))
    ensures rates.FetchFailed? && directory.Fetched? ==> e == Some(FetchError(OpenExchangeRates, rates.response))
  {
    if rates.FetchFailed? && (directory.Fetched? || ratesFailFirst) then Some(FetchError(OpenExchangeRates, rates.response))
    else if directory.FetchFailed? then Some(FetchError(RestCountries, directory.response))
    else None
  }

  /** The answer to a failed fetch: the upstream status and body if it answered, else 502 and a fixed message. */
  function UpstreamOutcome(e: FetchError): (out: RefreshOutcome)
    ensures out.UpstreamUnavailable? && out.source == e.source
    ensures e.response.Some? ==> out.status == e.response.value.status && out.underlying == e.response.value.body
    ensures e.response.None? ==> out.status == BadGateway && out.underlying == ConnectionFailureMessage
  {
    match e.response
    case Some(resp) => UpstreamUnavailable(resp.status, e.source, resp.body)
    case None => UpstreamUnavailable(BadGateway, e.source, ConnectionFailureMessage)
  }

  class CountryTable {
    /** The rows, keyed by the stored name. */
    var rows: map<string, CountryRow>

    ghost predicate Valid()
      reads this
    {
      KeyedByName(rows)
    }

    constructor ()
      ensures Valid() && rows == map[]
    {
      rows := map[];
    }

    /** `INSERT INTO countries ... VALUES ? ON DUPLICATE KEY UPDATE ...` at time `now`; an empty row list is not a valid statement. */
    method Upsert(batch: seq<CountryData>, now: int)
      requires Valid()
      requires |batch| > 0
      modifies this
      ensures Valid()
      ensures rows == UpsertAll(old(rows), batch, now)
      ensures rows.Keys == old(rows).Keys + Names(batch)
    {
      UpsertKeepsKeyedByName(rows, batch, now);
      rows := UpsertAll(rows, batch, now);
    }

    /** `DELETE /countries/:name`: `true` is the 204, `false` the 404. */
    method Delete(name: string) returns (deleted: bool)
      requires Valid()
      modifies this
      ensures Valid()
      ensures deleted <==> AnyNameMatches(old(rows), name)
      ensures deleted ==> rows == RemoveMatching(old(rows), name)
      ensures !deleted ==> rows == old(rows)
    {
      var countryName := Lower(name);
      LowerIdempotent(name);
      if !exists k :: k in rows && NameMatches(k, countryName) {
        return false;
      }
      DeleteByLoweredName(rows, name);
      rows := RemoveMatching(rows, countryName);
      return true;
    }

    /** `GET /countries/:name`: some row whose name matches up to case, or nothing (the 404). */
    method FindByName(name: string) returns (found: Option<CountryRow>)
      requires Valid()
      ensures found.None? <==> !AnyNameMatches(rows, name)
      ensures found.Some? ==> NameMatches(found.value.data.name, name) && found.value.data.name in rows &&
                              rows[found.value.data.name] == found.value
    {
      var countryName := Lower(name);
      LowerIdempotent(name);
      if k :| k in rows && NameMatches(k, countryName) {
        found := Some(rows[k]);
      } else {
        found := None;
      }
    }

    /** `GET /status`: `COUNT(*)` and `MAX(last_refreshed_at)`, which is absent on an empty table. */
    method Status() returns (total: nat, lastRefresh: Option<int>)
      ensures total == |rows|
      ensures lastRefresh.None? <==> rows == map[]
      ensures lastRefresh.Some? ==> exists k :: k in rows && rows[k].lastRefreshedAt == lastRefresh.value
      ensures forall k :: k in rows ==> lastRefresh.Some? && rows[k].lastRefreshedAt <= lastRefresh.value
    {
      total := |rows|;
      lastRefresh := None;
      var pending := rows.Keys;
      while pending != {}
        invariant pending <= rows.Keys
        invariant lastRefresh.None? <==> pending == rows.Keys
        invariant lastRefresh.Some? ==> exists k :: k in rows && k !in pending && rows[k].lastRefreshedAt == lastRefresh.value
        invariant forall k :: k in rows && k !in pending ==> lastRefresh.Some? && rows[k].lastRefreshedAt <= lastRefresh.value
        decreases pending
      {
        var k :| k in pending;
        var t := rows[k].lastRefreshedAt;
        if lastRefresh.None? || lastRefresh.value < t {
          lastRefresh := Some(t);
        }
        pending := pending - {k};
      }
      assert rows.Keys == {} ==> rows == map[];
    }

    /**
     * `POST /countries/refresh`. The two fetch results, the order in which
     * failing fetches fail, the `Math.random()` draws, the clock and whether
     * the upsert or the chart step throws are given as parameters. An empty
     * directory makes the upsert statement itself fail.
     */
    method Refresh(directory: Fetch<seq<RawCountry>>, rates: Fetch<map<string, real>>, ratesFailFirst: bool,
                   draws: seq<real>, now: int, upsertThrows: bool, chartThrows: bool)
      returns (outcome: RefreshOutcome)
      requires Valid()
      requires directory.Fetched? ==> ValidDraws(draws, |directory.value|)
      modifies this
      ensures Valid()
      ensures FirstFailure(directory, rates, ratesFailFirst).Some? ==>
        outcome == UpstreamOutcome(FirstFailure(directory, rates, ratesFailFirst).value) && rows == old(rows)
      ensures directory.Fetched? && rates.Fetched? && (upsertThrows || chartThrows || |directory.value| == 0) ==>
        outcome == InternalError && rows == old(rows)
      ensures directory.Fetched? && rates.Fetched? && |directory.value| > 0 && !upsertThrows && !chartThrows ==>
        outcome == Created && rows == UpsertAll(old(rows), EnrichAll(directory.value, rates.value, draws), now)
      ensures RowsConsistent(old(rows)) ==> RowsConsistent(rows)
    {
      var snapshot := rows;  // beginTransaction
      var failure := FirstFailure(directory, rates, ratesFailFirst);
      if failure.Some? {
        return UpstreamOutcome(failure.value);
      }
      var countryData := EnrichAll(directory.value, rates.value, draws);
      // An empty batch leaves `VALUES ?` without a row list: the statement is rejected.
      if upsertThrows || |countryData| == 0 {
        rows := snapshot;  // rollback
        return InternalError;
      }
      if RowsConsistent(rows) {
        UpsertKeepsConsistent(rows, countryData, now);
      }
      Upsert(countryData, now);
      if chartThrows {
        rows := snapshot;  // rollback
        return InternalError;
      }
      return Created;  // commit
    }
  }

  /** The names a refresh writes are the directory's names, whatever the rates and draws. */
  lemma RefreshWritesDirectoryNames(countries: seq<RawCountry>, rates: map<string, real>, draws: seq<real>)
    requires ValidDraws(draws, |countries|)
    ensures Names(EnrichAll(countries, rates, draws)) == set i | 0 <= i < |countries| :: countries[i].name
  {
    var batch := EnrichAll(countries, rates, draws);
    assert forall i :: 0 <= i < |batch| ==> batch[i].name == countries[i].name;
  }

  /** Refreshing twice from the same directory leaves as many rows as the first refresh did. */
  lemma RepeatedRefreshKeepsCount(m: map<string, CountryRow>, countries: seq<RawCountry>, rates1: map<string, real>, draws1: seq<real>, t1: int, rates2: map<string, real>, draws2: seq<real>, t2: int)
    requires ValidDraws(draws1, |countries|) && ValidDraws(draws2, |countries|)
    ensures |UpsertAll(UpsertAll(m, EnrichAll(countries, rates1, draws1), t1), EnrichAll(countries, rates2, draws2), t2)| == |UpsertAll(m, EnrichAll(countries, rates1, draws1), t1)|
  {
    RefreshWritesDirectoryNames(countries, rates1, draws1);
    RefreshWritesDirectoryNames(countries, rates2, draws2);
    RepeatedUpsertKeepsCount(m, EnrichAll(countries, rates1, draws1), EnrichAll(countries, rates2, draws2), t1, t2);
  }

  /** A committed refresh keeps every stored estimate backed by an exchange rate. */
  lemma RefreshKeepsRowsConsistent(m: map<string, CountryRow>, countries: seq<RawCountry>, rates: map<string, real>, draws: seq<real>, now: int)
    requires RowsConsistent(m) && ValidDraws(draws, |countries|)
    ensures RowsConsistent(UpsertAll(m, EnrichAll(countries, rates, draws), now))
  {
    UpsertKeepsConsistent(m, EnrichAll(countries, rates, draws), now);
  }

  /**
   * Testland, population 1000, currency TST at rate 2: after the refresh its
   * row has rate 2, an estimate in [500000, 1000000] and the refresh time.
   */
  lemma TestlandRefresh(m: map<string, CountryRow>, u: real, now: int)
    requires 0.0 <= u < 1.0
    ensures var t := UpsertAll(m, EnrichAll([RawCountry("Testland", None, None, 1000, Some([RawCurrency(Some("TST"))]), None)],
                                            map["TST" := 2.0], [u]), now);
      "Testland" in t &&
      t["Testland"].data.exchangeRate == Some(2.0) &&
      t["Testland"].data.estimatedGdp.Some? &&
      500000.0 <= t["Testland"].data.estimatedGdp.value <= 1000000.0 &&
      t["Testland"].lastRefreshedAt == now
  {
    var c := RawCountry("Testland", None, None, 1000, Some([RawCurrency(Some("TST"))]), None);
    var batch := EnrichAll([c], map["TST" := 2.0], [u]);
    assert batch[0] == Enrich(c, map["TST" := 2.0], u);
    UpsertLastWins(m, batch, now, 0);
  }
}
