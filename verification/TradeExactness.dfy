/** How one position settles and what it costs, in prices and charges (scripts/historical_backtest.py). */
module TradeExactness {
  import opened Common
  import opened Candles
  import opened Trades
  import opened Backtest
  import Settlement
  import Slippage
  import Fees
  import Funding

  // ----- settlement -----

  /** The candles the position holds: at most the horizon, from its entry on. */
  ghost function HeldFrom(rows: seq<Candle>, e: nat, horizon: nat): seq<Candle>
    requires e < |rows|
  {
    rows[e..if e + horizon <= |rows| then e + horizon else |rows|]
  }

  /** A short stopped above its entry or filled below it, at prices relative to the open it sold at. */
  ghost predicate StoppedBy(c: Candle, entry: real, stopPct: real) { c.high >= entry * (1.0 + stopPct / 100.0) }

  ghost predicate FilledBy(c: Candle, entry: real, targetPct: real) { c.low <= entry * (1.0 - targetPct / 100.0) }

  /** What candle c, being the first to reach a level or else the last one held, makes of the position. */
  ghost predicate SettledBy(s: Settlement.Resolution, c: Candle, entry: real, stopPct: real, targetPct: real) {
    && s.exitTs == c.ts + 300_000
    && if StoppedBy(c, entry, stopPct) then
         && s.verdict == Settlement.Loss && s.r == -1.0 && s.exitPrice == entry * (1.0 + stopPct / 100.0) && s.fundingCutoff == c.ts
         && s.reason == if FilledBy(c, entry, targetPct) then Settlement.SameCandleConservativeLoss else Settlement.StopHit
       else if FilledBy(c, entry, targetPct) then
         && s.verdict == Settlement.Win && s.r * stopPct == targetPct && s.exitPrice == entry * (1.0 - targetPct / 100.0)
         && s.fundingCutoff == c.ts && s.reason == Settlement.TargetHit
       else
         && s.verdict == Settlement.Timeout && s.r * (entry * stopPct) == (entry - c.close) * 100.0 && s.exitPrice == c.close
         && s.fundingCutoff == c.ts + 300_000 && s.reason == Settlement.HorizonMarkToMarket
  }

  lemma Quotients(a: real, b: real, c: real)
    requires b != 0.0 && c != 0.0
    ensures a / b / (c / 100.0) * (b * c) == a * 100.0
  {
    var q := a / b;
    assert q * b == a;
    var r := q / (c / 100.0);
    assert r * (c / 100.0) == q;
    assert r * c == q * 100.0;
    Regroup(r, b, c, q);
  }

  lemma Regroup(r: real, b: real, c: real, q: real)
    requires r * c == q * 100.0
    ensures r * (b * c) == q * b * 100.0
  {
    assert r * (b * c) == (r * c) * b;
  }

  lemma TouchDecidesAs(c: Candle, entry: real, stopPct: real, targetPct: real)
    requires stopPct != 0.0
    requires Settlement.Touches(c, Settlement.StopPrice(entry, stopPct), Settlement.TargetPrice(entry, targetPct))
    ensures SettledBy(Settlement.TouchResolution(c, Settlement.StopPrice(entry, stopPct), Settlement.TargetPrice(entry, targetPct),
                                                 targetPct / stopPct), c, entry, stopPct, targetPct)
  {
    assert targetPct / stopPct * stopPct == targetPct;
  }

  lemma HorizonDecidesAs(c: Candle, entry: real, stopPct: real, targetPct: real)
    requires entry != 0.0 && stopPct != 0.0
    requires !Settlement.Touches(c, Settlement.StopPrice(entry, stopPct), Settlement.TargetPrice(entry, targetPct))
    ensures SettledBy(Settlement.HorizonResolution(entry, c, stopPct), c, entry, stopPct, targetPct)
  {
    Quotients(entry - c.close, entry, stopPct);
  }

  lemma DecidesAs(c: Candle, entry: real, stopPct: real, targetPct: real)
    requires entry != 0.0 && stopPct != 0.0
    ensures var stop, target := Settlement.StopPrice(entry, stopPct), Settlement.TargetPrice(entry, targetPct);
            SettledBy(if Settlement.Touches(c, stop, target) then Settlement.TouchResolution(c, stop, target, targetPct / stopPct)
                      else Settlement.HorizonResolution(entry, c, stopPct), c, entry, stopPct, targetPct)
  {
    hide *;
    if Settlement.Touches(c, Settlement.StopPrice(entry, stopPct), Settlement.TargetPrice(entry, targetPct)) {
      TouchDecidesAs(c, entry, stopPct, targetPct);
    } else {
      HorizonDecidesAs(c, entry, stopPct, targetPct);
    }
  }

  /** The first held candle that reaches a level settles the position, and without one the last does, at its close. */
  lemma OutcomeMeans(rows: seq<Candle>, e: nat, stopPct: real, targetPct: real, horizon: nat) returns (j: nat)
    requires e < |rows| && horizon >= 1 && stopPct > 0.0 && rows[e].open != 0.0
    ensures var held, entry := HeldFrom(rows, e, horizon), rows[e].open;
            && j < |held|
            && (forall i :: 0 <= i < j ==> !StoppedBy(held[i], entry, stopPct) && !FilledBy(held[i], entry, targetPct))
            && (StoppedBy(held[j], entry, stopPct) || FilledBy(held[j], entry, targetPct) || j == |held| - 1)
            && Settlement.Settle(rows, e, stopPct, targetPct, horizon).Ok?
            && SettledBy(Settlement.Settle(rows, e, stopPct, targetPct, horizon).value, held[j], entry, stopPct, targetPct)
  {
    hide Settlement.SettleHeld, Settlement.TouchResolution, Settlement.HorizonResolution, SettledBy;
    var held := Settlement.Held(rows, e, horizon);
    assert held == HeldFrom(rows, e, horizon);
    j := Settlement.FirstTouchDecides(held, rows[e].open, stopPct, targetPct);
    DecidesAs(held[j], rows[e].open, stopPct, targetPct);
  }

  // ----- fee -----

  const PRECISION: real := 0.00000000005

  /** A product over a product, as nested quotients. */
  lemma FeeQuotient(rate: real, entry: real, exit: real, stopPct: real)
    requires entry > 0.0 && stopPct > 0.0
    ensures rate * (1.0 + exit / entry) / (stopPct / 100.0) == rate * (entry + exit) * 100.0 / (entry * stopPct)
  {
    var q := exit / entry;
    assert q * entry == exit;
    assert (1.0 + q) * entry == entry + exit;
    var x := rate * (1.0 + q);
    assert x * entry == rate * (entry + exit) by { Associate(rate, 1.0 + q, entry); }
    var r := x / (stopPct / 100.0);
    assert r * (stopPct / 100.0) == x;
    assert r * stopPct == x * 100.0;
    assert r * (entry * stopPct) == x * entry * 100.0 by { Regroup(r, entry, stopPct, x); }
    Divided(r, entry * stopPct, rate * (entry + exit) * 100.0);
  }

  lemma Associate(x: real, y: real, z: real)
    ensures x * y * z == x * (y * z)
  {
  }

  lemma Divided(x: real, y: real, z: real)
    requires y > 0.0 && x * y == z
    ensures x == z / y
  {
    assert z / y * y == z;
    assert (x - z / y) * y == 0.0;
  }

  /** A profile is accepted exactly with its schema, contract, basis, HTTPS source and usable numbers. */
  ghost predicate FeeAccepted(p: Fees.FeeProfile, stopPct: real, entry: real, exit: real, venue: string) {
    && p.schemaVersion == "binance_usdm_fee_model_v1" && p.venue == venue && p.product == "USDT perpetual" && p.liquidity == "taker"
    && p.basis == "modeled_official_api_example_not_account_specific"
    && p.sourceUrl.scheme == "https" && p.sourceUrl.netloc != ""
    && p.rate.Some? && p.rate.value >= 0.0 && stopPct > 0.0 && entry > 0.0 && exit > 0.0
  }

  /** The rate on what was sold and bought back, per unit of risk. */
  ghost function FeeOnBothSides(rate: real, entry: real, exit: real, stopPct: real): real
    requires entry > 0.0 && stopPct > 0.0
  {
    rate * (entry + exit) * 100.0 / (entry * stopPct)
  }

  /** A fee is accepted exactly on those terms, and then is the rate on both sides of the trade to ten digits. */
  lemma FeeMeans(p: Fees.FeeProfile, stopPct: real, entry: real, exit: real, venue: string)
    ensures Fees.FeeR(p, stopPct, entry, exit, venue).Ok? <==> FeeAccepted(p, stopPct, entry, exit, venue)
    ensures FeeAccepted(p, stopPct, entry, exit, venue) ==>
              Abs(Fees.FeeR(p, stopPct, entry, exit, venue).value - FeeOnBothSides(p.rate.value, entry, exit, stopPct)) <= PRECISION
  {
    hide Round, Abs, HttpsSource, Fees.RawFee, FeeOnBothSides;
    SourceMeans(p.sourceUrl);
    if FeeAccepted(p, stopPct, entry, exit, venue) {
      FeeValue(p.rate.value, entry, exit, stopPct);
    }
  }

  lemma FeeValue(rate: real, entry: real, exit: real, stopPct: real)
    requires entry > 0.0 && stopPct > 0.0
    ensures Abs(Round(Fees.RawFee(rate, entry, exit, stopPct), 10000000000.0) - FeeOnBothSides(rate, entry, exit, stopPct)) <= PRECISION
  {
    hide Round, Abs;
    FeeQuotient(rate, entry, exit, stopPct);
    RoundError(Fees.RawFee(rate, entry, exit, stopPct), 10000000000.0);
  }

  // ----- funding -----

  /** What a short is paid at one charge: the rate on the marked price. */
  ghost function Payment(f: Funding.Funding): real { f.rate * f.mark.GetOr(0.0) }

  ghost function Payments(events: seq<Funding.Funding>): real { Sum(Mapped(events, (f: Funding.Funding) => Payment(f))) }

  ghost predicate Chargeable(events: seq<Funding.Funding>) {
    && (forall f :: f in events ==> f.timestamp > 0 && f.mark.Some? && f.mark.value > 0.0)
    && forall i :: 0 < i < |events| ==> events[i - 1].timestamp < events[i].timestamp
  }

  lemma {:induction false} DefectsMean(events: seq<Funding.Funding>)
    ensures Funding.FirstDefect(events).None? <==> Chargeable(events)
  {
    if events != [] {
      DefectsMean(events[..|events| - 1]);
      ChargeableInit(events);
      hide Chargeable;
    }
  }

  lemma ChargeableInit(events: seq<Funding.Funding>)
    requires events != []
    ensures var n := |events| - 1;
            Chargeable(events) <==>
            && Chargeable(events[..n]) && events[n].timestamp > 0 && events[n].mark.Some? && events[n].mark.value > 0.0
            && (n > 0 ==> events[n - 1].timestamp < events[n].timestamp)
  {
    var init := events[..|events| - 1];
    assert forall f :: f in events <==> f in init || f == events[|events| - 1];
    assert forall i :: 0 <= i < |init| ==> init[i] == events[i];
  }

  lemma {:induction false} ContributionMeans(events: seq<Funding.Funding>, entry: real)
    requires entry > 0.0
    ensures Funding.Contribution(events, entry) * entry == Payments(events)
  {
    if events != [] {
      var n := |events| - 1;
      ContributionMeans(events[..n], entry);
      assert Mapped(events, (f: Funding.Funding) => Payment(f))[..n] == Mapped(events[..n], (f: Funding.Funding) => Payment(f));
      hide Mapped, Payment;
      var charge := Funding.Charge(events[n], entry);
      ChargeMeans(events[n], entry);
      assert (Funding.Contribution(events[..n], entry) + charge) * entry == Payments(events[..n]) + charge * entry;
    }
  }

  lemma ChargeMeans(f: Funding.Funding, entry: real)
    requires entry > 0.0
    ensures Funding.Charge(f, entry) * entry == Payment(f)
  {
  }

  /** Funding in R is what the short was paid over the charges, per unit of risk: positive rates pay it. */
  lemma FundingMeans(events: seq<Funding.Funding>, entry: real, stopPct: real)
    ensures Funding.ShortFundingR(events, entry, stopPct).Ok? <==> entry > 0.0 && stopPct > 0.0 && Chargeable(events)
    ensures Funding.ShortFundingR(events, entry, stopPct).Ok? ==>
              Abs(Funding.ShortFundingR(events, entry, stopPct).value - Payments(events) * 100.0 / (entry * stopPct)) <= PRECISION
  {
    hide Round, Abs, Funding.Contribution, Funding.FirstDefect, Payments, Chargeable;
    DefectsMean(events);
    if entry > 0.0 && stopPct > 0.0 {
      var x := Funding.Contribution(events, entry);
      ContributionMeans(events, entry);
      var r := x / (stopPct / 100.0);
      assert r * (stopPct / 100.0) == x;
      assert r * stopPct == x * 100.0;
      Regroup(r, entry, stopPct, x);
      Divided(r, entry * stopPct, Payments(events) * 100.0);
      RoundError(r, 10000000000.0);
    }
  }

  // ----- all costs of a packet -----

  /** The charges of the history after the entry's signal and no later than the cutoff, in order. */
  ghost predicate ChargesOf(events: seq<Funding.Funding>, history: seq<Funding.Funding>, after: int, until: int) {
    && (exists i, j :: 0 <= i <= j <= |history| && events == history[i..j])
    && forall f :: f in events <==> f in history && after < f.timestamp <= until
  }

  /**
   The cost fields of a packet: none without a slippage profile; with one, the slippage-adjusted R is gross less slippage,
   and complete costs are a fee on entry and exit, the slippage, and the funding of exactly the charges while it was open.
   */
  lemma CostsMean(run: Run, closeTime: int, entry: real, resolution: Settlement.Resolution, gross: real)
    requires CostsOf(run, closeTime, entry, resolution, gross).Ok?
    requires run.funding.Some? ==> Funding.Ascending(run.funding.value)
    ensures var f := CostsOf(run, closeTime, entry, resolution, gross).value;
            && (f.costs.Some? <==> run.slippage.Some?) && (f.slippageAdjustedR.Some? <==> run.slippage.Some?)
            && (run.slippage.Some? ==>
                  && f.costs.value.slippageR.Some?
                  && Slippage.CostR(run.slippage.value, Slippage.Demand(run.stopPct, run.notional, "binance", run.study.minimumQuoteVolume))
                     == Ok(f.costs.value.slippageR.value)
                  && Abs(f.slippageAdjustedR.value - (gross - f.costs.value.slippageR.value)) <= 0.0000005)
            && (f.costs.Some? && f.costs.value.complete ==>
                  && run.study.derivatives.Some? && run.fee.Some? && run.funding.Some?
                  && f.costs.value.feeR.Some? && f.costs.value.fundingR.Some? && f.netR.Some?
                  && Fees.FeeR(run.fee.value, run.stopPct, entry, resolution.exitPrice, "binance") == Ok(f.costs.value.feeR.value)
                  && (exists events :: ChargesOf(events, run.funding.value, closeTime, resolution.fundingCutoff)
                        && Funding.ShortFundingR(events, entry, run.stopPct) == Ok(f.costs.value.fundingR.value))
                  && Abs(f.netR.value - (gross - f.costs.value.feeR.value - f.costs.value.slippageR.value + f.costs.value.fundingR.value))
                     <= PRECISION)
  {
    hide Slippage.CostR, Fees.FeeR, Funding.ShortFundingR, Funding.ChargesBetween, Round, Abs, NetOf, ChargesOf;
    var f := CostsOf(run, closeTime, entry, resolution, gross).value;
    if run.slippage.Some? {
      RoundError(gross - f.costs.value.slippageR.value, 1000000.0);
      if f.costs.value.complete {
        WindowMeans(run.funding, closeTime, resolution.fundingCutoff);
        NetReconciles(gross, f.costs.value.feeR.value, f.costs.value.slippageR.value, f.costs.value.fundingR.value);
      }
    }
  }

  /** Where costs are complete, what they are called and where they come from; incomplete ones show the slippage alone. */
  lemma CostsShown(run: Run, closeTime: int, entry: real, resolution: Settlement.Resolution, gross: real)
    requires CostsOf(run, closeTime, entry, resolution, gross).Ok?
    ensures var f := CostsOf(run, closeTime, entry, resolution, gross).value;
            && (f.netR.Some? <==> run.slippage.Some? && run.study.derivatives.Some? && run.fee.Some? && run.funding.Some?)
            && (f.costs.Some? ==>
                  var c := f.costs.value;
                  && (c.complete <==> f.netR.Some?)
                  && c.basis == Some(if c.complete then "modeled" else "incomplete")
                  && (c.feeR.Some? <==> c.complete) && (c.fundingR.Some? <==> c.complete)
                  && c.provenance.Keys == (if c.complete then {"fee", "funding", "slippage"} else {"slippage"})
                  && c.provenance["slippage"] == run.slippage.value.sourceUrl
                  && (c.complete ==> c.provenance["fee"] == [run.fee.value.sourceUrl]))
  {
    hide Slippage.CostR, Fees.FeeR, Funding.ShortFundingR, Round, NetOf, BisectRight;
    assert |"fee"| != |"funding"| && |"fee"| != |"slippage"| && |"funding"| != |"slippage"|;
  }

  /** Costs are refused exactly over an unacceptable slippage profile, or where they would be complete over the window, the fee or the charges. */
  lemma CostsRefusedExactly(run: Run, closeTime: int, entry: real, resolution: Settlement.Resolution, gross: real)
    ensures CostsOf(run, closeTime, entry, resolution, gross).Err? <==>
            && run.slippage.Some?
            && (|| Slippage.CostR(run.slippage.value, Slippage.Demand(run.stopPct, run.notional, "binance", run.study.minimumQuoteVolume)).Err?
                || (run.study.derivatives.Some? && run.fee.Some?
                    && (|| resolution.fundingCutoff < closeTime
                        || (run.funding.Some?
                            && (|| Fees.FeeR(run.fee.value, run.stopPct, entry, resolution.exitPrice, "binance").Err?
                                || Funding.ShortFundingR(Funding.ChargesBetween(run.funding, closeTime, resolution.fundingCutoff).value.value,
                                                         entry, run.stopPct).Err?)))))
  {
    hide Slippage.CostR, Fees.FeeR, Funding.ShortFundingR, Round, NetOf, BisectRight;
  }

  lemma WindowMeans(history: Option<seq<Funding.Funding>>, after: int, until: int)
    requires history.Some? ==> Funding.Ascending(history.value)
    requires Funding.ChargesBetween(history, after, until).Ok? && Funding.ChargesBetween(history, after, until).value.Some?
    ensures history.Some? && ChargesOf(Funding.ChargesBetween(history, after, until).value.value, history.value, after, until)
  {
    hide Mapped, BisectRight;
    var rows := history.value;
    Funding.BisectMonotone(Funding.Positions(rows), after, until);
    assert Funding.ChargesBetween(history, after, until).value.value ==
           rows[BisectRight(Funding.Positions(rows), after)..BisectRight(Funding.Positions(rows), until)];
    forall f: Funding.Funding
      ensures f in Funding.ChargesBetween(history, after, until).value.value <==> f in history.value && after < f.timestamp <= until
    {
      Funding.ChargesAreThoseBetween(history.value, after, until, f);
    }
  }
}
