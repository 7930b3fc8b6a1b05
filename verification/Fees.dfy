/** The modeled round-trip taker fee (scripts/historical_backtest.py). */
module Fees {
  import opened Common
  import opened Trades

  datatype FeeProfile = FeeProfile(
    schemaVersion: string, venue: string, product: string, liquidity: string, basis: string, sourceUrl: Url, rate: Option<real>)

  datatype FeeError = UnsupportedSchema | WrongContract | UndeclaredBasis | NoHttpsProvenance | InvalidNumbers

  /** The fee in R before rounding. */
  function RawFee(rate: real, entry: real, exit: real, stopPct: real): real
    requires entry > 0.0 && stopPct > 0.0
  {
    rate * (1.0 + exit / entry) / (stopPct / 100.0)
  }

  function FeeR(p: FeeProfile, stopPct: real, entry: real, exit: real, venue: string): Result<real, FeeError> {
    if p.schemaVersion != "binance_usdm_fee_model_v1" then Err(UnsupportedSchema)
    else if p.venue != venue || p.product != "USDT perpetual" || p.liquidity != "taker" then Err(WrongContract)
    else if p.basis != "modeled_official_api_example_not_account_specific" then Err(UndeclaredBasis)
    else if !HttpsSource([p.sourceUrl]) then Err(NoHttpsProvenance)
    else if p.rate.None? || p.rate.value < 0.0 || stopPct <= 0.0 || entry <= 0.0 || exit <= 0.0 then Err(InvalidNumbers)
    else Ok(Round(RawFee(p.rate.value, entry, exit, stopPct), 10000000000.0))
  }

  lemma RoundZero()
    ensures Round(0.0, 10000000000.0) == 0.0
  {
  }

  /** An accepted fee is never a credit and always has an HTTPS source. */
  lemma FeeIsACost(p: FeeProfile, stopPct: real, entry: real, exit: real, venue: string)
    requires FeeR(p, stopPct, entry, exit, venue).Ok?
    ensures FeeR(p, stopPct, entry, exit, venue).value >= 0.0
    ensures HttpsSource([p.sourceUrl])
  {
    DivideLe(0.0, exit, entry);
    var rate, notional := p.rate.value, 1.0 + exit / entry;
    var charge := rate * notional;
    assert charge >= 0.0;
    hide Round;
    DivideLe(0.0, charge, stopPct / 100.0);
    RoundMonotone(0.0, charge / (stopPct / 100.0), 10000000000.0);
    RoundZero();
  }
}
