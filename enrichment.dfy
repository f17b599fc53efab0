/**
 * The `countries.map` step of a refresh: one directory country and the table
 * of USD exchange rates become the eight columns to store.
 */
module Enrichment {
  import opened Wrappers
  import opened Country

  const MinFactor: int := 1000
  const MaxFactor: int := 2000

  /**
   * `Math.floor(Math.random() * (2000 - 1000 + 1)) + 1000` for a draw `u` of
   * `Math.random()`, which lies in [0, 1).
   */
  function RandomFactor(u: real): (f: int)
    requires 0.0 <= u < 1.0
    ensures MinFactor <= f <= MaxFactor
  {
    (u * (MaxFactor - MinFactor + 1) as real).Floor + MinFactor
  }

  /** JavaScript's `s || null` on an optional string: the empty string is falsy. */
  function StringOrNull(s: Option<string>): (r: Option<string>)
    ensures r.None? <==> s.None? || s.value == ""
    ensures r.Some? ==> r == s
  {
    if s.Some? && s.value != "" then s else None
  }

  /** The code of the first listed currency, when there is one and it is a non-empty string. */
  function FirstCurrencyCode(c: RawCountry): (code: Option<string>)
    ensures code.Some? <==>
      c.currencies.Some? && |c.currencies.value| > 0 &&
      c.currencies.value[0].code.Some? && c.currencies.value[0].code.value != ""
    ensures code.Some? ==> code == c.currencies.value[0].code
  {
    if c.currencies.Some? && |c.currencies.value| > 0 then
      StringOrNull(c.currencies.value[0].code)
    else
      None
  }

  /** `rates[code] || null`: a missing rate and a zero rate are both absent. */
  function RateFor(code: Option<string>, rates: map<string, real>): (rate: Option<real>)
    ensures rate.Some? <==> code.Some? && code.value in rates && rates[code.value] != 0.0
    ensures rate.Some? ==> rate.value == rates[code.value]
  {
    if code.Some? && code.value in rates && rates[code.value] != 0.0 then Some(rates[code.value]) else None
  }

  /** For a non-negative population and a positive rate, the estimate lies between the bounds the factor range allows. */
  lemma GdpWithinFactorBounds(population: nat, factor: int, rate: real)
    requires MinFactor <= factor <= MaxFactor
    ensures rate > 0.0 ==> population as real * MinFactor as real / rate <= population as real * factor as real / rate
    ensures rate > 0.0 ==> population as real * factor as real / rate <= population as real * MaxFactor as real / rate
  {
    if rate <= 0.0 { return; }
    var p := population as real;
    assert p * MinFactor as real <= p * factor as real <= p * MaxFactor as real by {
      assert p * (factor - MinFactor) as real >= 0.0;
      assert p * (MaxFactor - factor) as real >= 0.0;
    }
    DivideMonotone(p * MinFactor as real, p * factor as real, rate);
    DivideMonotone(p * factor as real, p * MaxFactor as real, rate);
  }

  lemma DivideMonotone(a: real, b: real, d: real)
    requires a <= b && d > 0.0
    ensures a / d <= b / d
  {
    assert b / d - a / d == (b - a) / d;
  }

  /**
   * `(country.population * randomFactor) / exchangeRateToUSD` for a factor
   * in [1000, 2000] and a non-zero rate.
   */
  function EstimatedGdp(population: nat, factor: int, rate: real): (gdp: real)
    requires MinFactor <= factor <= MaxFactor && rate != 0.0
    ensures rate > 0.0 ==> population as real * MinFactor as real / rate <= gdp <= population as real * MaxFactor as real / rate
  {
    GdpWithinFactorBounds(population, factor, rate);
    population as real * factor as real / rate
  }

  /**
   * The columns stored for country `c`, given the rate table and the draw `u`
   * of `Math.random()` for this country.
   */
  function Enrich(c: RawCountry, rates: map<string, real>, u: real): (d: CountryData)
    requires 0.0 <= u < 1.0
    ensures d.name == c.name
    ensures d.capital == StringOrNull(c.capital)
    ensures d.region == StringOrNull(c.region)
    ensures d.flagUrl == StringOrNull(c.flag)
    ensures d.population.None? <==> c.population == 0
    ensures d.population.Some? ==> d.population.value == c.population
    ensures d.currencyCode == FirstCurrencyCode(c)
    ensures d.exchangeRate.Some? <==>
      d.currencyCode.Some? && d.currencyCode.value in rates && rates[d.currencyCode.value] != 0.0
    ensures d.exchangeRate.Some? ==> d.exchangeRate.value == rates[d.currencyCode.value]
    ensures d.estimatedGdp.Some? <==> d.exchangeRate.Some?
    ensures d.estimatedGdp.Some? ==>
      exists f :: MinFactor <= f <= MaxFactor && d.estimatedGdp.value == EstimatedGdp(c.population, f, d.exchangeRate.value)
    ensures d.estimatedGdp.Some? && d.exchangeRate.value > 0.0 ==>
      c.population as real * MinFactor as real / d.exchangeRate.value <= d.estimatedGdp.value <=
      c.population as real * MaxFactor as real / d.exchangeRate.value
  {
    var code := FirstCurrencyCode(c);
    var rate := RateFor(code, rates);
    var factor := RandomFactor(u);
    var gdp := if rate.Some? then Some(EstimatedGdp(c.population, factor, rate.value)) else None;
    CountryData(
      c.name,
      StringOrNull(c.capital),
      StringOrNull(c.region),
      if c.population == 0 then None else Some(c.population),
      code,
      rate,
      gdp,
      StringOrNull(c.flag))
  }

  /** The draws of `Math.random()` for one refresh: one per country, each in [0, 1). */
  predicate ValidDraws(draws: seq<real>, count: nat) {
    |draws| == count && forall i :: 0 <= i < |draws| ==> 0.0 <= draws[i] < 1.0
  }

  /** `countries.map(...)`: one row per directory country, in the same order and under the same name. */
  function EnrichAll(countries: seq<RawCountry>, rates: map<string, real>, draws: seq<real>): (batch: seq<CountryData>)
    requires ValidDraws(draws, |countries|)
    ensures |batch| == |countries|
    ensures forall i :: 0 <= i < |batch| ==> batch[i].name == countries[i].name
    ensures forall i :: 0 <= i < |batch| ==> GdpNeedsRate(batch[i])
  {
    seq(|countries|, i requires 0 <= i < |countries| => Enrich(countries[i], rates, draws[i]))
  }
}
