/** Conversion at current rates: one unit of a currency is `rates[c]` lira. Results are in cents. */
module Forecast {
  import opened Money
  import opened Options
  import opened RateTable

  const USD: Currency := "USD"

  const SUPPORTED: seq<Currency> := ["TRY", "USD", "EUR", "GBP", "CHF", "JPY"]

  predicate HasRate(rates: Rates, c: Currency) {
    c in rates && rates[c] > 0.0
  }

  /** The unrounded lira value: nothing where no rate is known. */
  function TlValue(amount: real, currency: Currency, rates: Rates): real {
    if currency == TRY then amount
    else if HasRate(rates, currency) then amount * rates[currency]
    else if HasRate(rates, USD) then amount * rates[USD]
    else 0.0
  }

  /** A missing amount counts as nothing. */
  function ConvertToTl(amount: Option<real>, currency: Currency, rates: Rates): int {
    if amount.None? then 0 else HalfUp(TlValue(amount.value, currency, rates))
  }

  /** The rate of the currency, or the dollar's where that is missing. */
  function SourceRate(currency: Currency, rates: Rates): Option<real> {
    var own := if currency == TRY then Some(1.0) else if currency in rates then Some(rates[currency]) else None;
    if own.Some? && own.value > 0.0 then own
    else if HasRate(rates, USD) then Some(rates[USD]) else None
  }

  function DisplayValue(tl: real, display: Currency, rates: Rates): real {
    if display == TRY || !HasRate(rates, display) then tl else tl / rates[display]
  }

  function ForecastValue(amount: real, currency: Currency, display: Currency, rates: Rates): real {
    if currency == display then amount
    else
      var src := SourceRate(currency, rates);
      if src.None? then 0.0 else DisplayValue(amount * src.value, display, rates)
  }

  function ConvertForecast(amount: real, currency: Currency, display: Currency, rates: Rates): int {
    HalfUp(ForecastValue(amount, currency, display, rates))
  }

  function TlToDisplay(tl: real, display: Currency, rates: Rates): int {
    HalfUp(DisplayValue(tl, display, rates))
  }

  /** Forecasts shown in lira are what the stored-value path computes, on every input. */
  lemma ForecastToTryIsConvertToTl(amount: real, currency: Currency, rates: Rates)
    ensures ConvertForecast(amount, currency, TRY, rates) == ConvertToTl(Some(amount), currency, rates)
  {
    LiraValues(amount, currency, rates);
  }

  lemma LiraValues(amount: real, currency: Currency, rates: Rates)
    ensures ForecastValue(amount, currency, TRY, rates) == TlValue(amount, currency, rates)
  {
  }

  /** Lira forecasts and lira totals are shown alike, with the same fallback for a missing display rate. */
  lemma LiraForecastIsTlToDisplay(amount: real, display: Currency, rates: Rates)
    ensures ConvertForecast(amount, TRY, display, rates) == TlToDisplay(amount, display, rates)
  {
    assert SourceRate(TRY, rates) == Some(1.0);
    assert amount * 1.0 == amount;
    assert ForecastValue(amount, TRY, display, rates) == DisplayValue(amount, display, rates);
  }

  /**
   What a forecast is worth, without a formula for it: the amount itself in its own currency, nothing where
   neither its rate nor the dollar's is known, and otherwise as many lira, shown as lira where the display
   rate is missing.
   */
  ghost predicate IsForecastWorth(amount: real, currency: Currency, display: Currency, rates: Rates, x: real) {
    if currency == display then x == amount
    else if currency != "TRY" && !HasRate(rates, currency) && !HasRate(rates, "USD") then x == 0.0
    else
      var lira := if currency == "TRY" then amount
                  else if HasRate(rates, currency) then amount * rates[currency] else amount * rates["USD"];
      if display == "TRY" || !HasRate(rates, display) then x == lira else x * rates[display] == lira
  }

  lemma QuotientReturns(a: real, d: real)
    requires d > 0.0
    ensures a / d * d == a
  {
  }

  lemma DisplayReturns(lira: real, display: Currency, rates: Rates)
    ensures
      var x := DisplayValue(lira, display, rates);
      if display == "TRY" || !HasRate(rates, display) then x == lira else x * rates[display] == lira
  {
    if HasRate(rates, display) {
      QuotientReturns(lira, rates[display]);
    }
  }

  lemma ForecastIsWorth(amount: real, currency: Currency, display: Currency, rates: Rates)
    ensures IsForecastWorth(amount, currency, display, rates, ForecastValue(amount, currency, display, rates))
  {
    var src := SourceRate(currency, rates);
    if currency != display && src.Some? {
      assert currency == TRY ==> src.value == 1.0 && amount * src.value == amount;
      DisplayReturns(amount * src.value, display, rates);
    }
  }

  /** A forecast shows its worth, rounded half up to cents. */
  lemma ForecastMeans(amount: real, currency: Currency, display: Currency, rates: Rates) returns (x: real)
    ensures IsForecastWorth(amount, currency, display, rates, x)
    ensures IsHalfUp(x, ConvertForecast(amount, currency, display, rates))
  {
    x := ForecastValue(amount, currency, display, rates);
    ForecastIsWorth(amount, currency, display, rates);
    HalfUpExact(x, HalfUp(x));
  }

  /**
   Completes fetched rates: TRY is one, and supported currencies without a positive rate get the dollar's, if
   there is one.
   */
  method CompleteRates(fetched: Rates, fallback: bool, usd: Option<real>) returns (rates: Rates)
    ensures !(fallback && usd.Some? && usd.value > 0.0) ==> rates == fetched[TRY := 1.0]
    ensures fallback && usd.Some? && usd.value > 0.0 ==> Filled(fetched[TRY := 1.0], rates, SUPPORTED, usd.value)
  {
    rates := fetched[TRY := 1.0];
    if fallback && usd.Some? && usd.value > 0.0 {
      rates := FillMissing(rates, SUPPORTED, usd.value);
    }
  }

  /**
   Every listed currency has a positive rate: its own where it had one, else the fallback; nothing else has
   changed.
   */
  ghost predicate Filled(before: Rates, after: Rates, codes: seq<Currency>, fallback: real) {
    && (forall c :: c in codes ==> HasRate(after, c) && after[c] == if HasRate(before, c) then before[c] else fallback)
    && (forall c :: c !in codes ==> (c in after <==> c in before) && (c in before ==> after[c] == before[c]))
  }

  method FillMissing(before: Rates, codes: seq<Currency>, fallback: real) returns (rates: Rates)
    requires fallback > 0.0
    ensures Filled(before, rates, codes, fallback)
  {
    rates := before;
    for i := 0 to |codes|
      invariant Filled(before, rates, codes[..i], fallback)
    {
      var c := codes[i];
      assert codes[..i + 1] == codes[..i] + [c];
      if !HasRate(rates, c) {
        rates := rates[c := fallback];
      }
    }
    assert codes[..|codes|] == codes;
  }
}
