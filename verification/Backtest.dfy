/** The signal loop of the backtest, its trades and their costs (scripts/historical_backtest.py, evaluate). */
module Backtest {
  import opened Common
  import opened Candles
  import opened Trades
  import opened Signals
  import opened Replay
  import Promotion
  import Settlement
  import Slippage
  import Fees
  import Funding
  import CalibrateScoreV2
  import Metrics

  const FUNDING_DOC: Url := Url("https", "developers.binance.com")
  const VENUE: string := "binance"

  datatype Run = Run(
    study: Study,
    symbol: string,
    stopPct: real,
    targetPct: real,
    triggerInterval: nat,
    cooldownHours: int,
    holdHours: int,
    signalStart: Option<int>,
    threshold: real,
    emitPool: bool,
    slippage: Option<Slippage.Profile>,
    fee: Option<Fees.FeeProfile>,
    funding: Option<seq<Funding.Funding>>,
    notional: real)

  datatype Failure =
    | BadTriggerInterval | BadCooldown | BadHold | BadThreshold
    | NotSettled(settle: Settlement.SettleError)
    | SlippageRejected(slippage: Slippage.Rejection)
    | FundingWindow
    | FeeRejected(fee: Fees.FeeError)
    | FundingRejected(funding: Funding.FundingError)

  function ConfigurationError(run: Run): Option<Failure> {
    if run.triggerInterval !in {1, 3, 12, 48} then Some(BadTriggerInterval)
    else if run.cooldownHours < 1 then Some(BadCooldown)
    else if run.holdHours < 1 then Some(BadHold)
    else if !(0.0 <= run.threshold <= CalibrateScoreV2.AVAILABLE_MAXIMUM) then Some(BadThreshold)
    else None
  }

  function HorizonBars(run: Run): int { run.holdHours * 12 }

  /** The first candle with enough four-hour history. */
  function FirstIndex(run: Run): nat {
    48 * (if run.study.strategy == PostHypeV1 || run.study.strategy == ChannelV1 then 100 else 20) - 1
  }

  function FlagMap(e: Evidence): map<string, bool> {
    map[
      "two_bearish" := e.flags.twoBearish, "lower_high" := e.flags.lowerHigh,
      "volume_acceleration" := e.flags.volumeAcceleration, "rsi_rollover" := e.flags.rsiRollover,
      "reclaim_or_repump" := e.flags.reclaimOrRepump, "bearish_close" := e.flags.bearishClose]
  }

  function SignalEvidence(c: Checks): map<string, map<string, bool>> {
    map["5m" := FlagMap(c.m5), "15m" := FlagMap(c.m15), "1h" := FlagMap(c.h1), "4h" := FlagMap(c.h4)]
  }

  /** The cost fields of a trade packet; all None without a slippage profile. */
  datatype CostFields = CostFields(slippageAdjustedR: Option<real>, netR: Option<real>, costs: Option<Costs>)

  function NetOf(gross: real, fee: real, slippage: real, funding: real): real {
    Round(gross - fee - slippage + funding, 10000000000.0)
  }

  function SourcesOf(fee: Url, slippage: seq<Url>): map<string, seq<Url>> {
    map["fee" := [fee], "funding" := [FUNDING_DOC], "slippage" := slippage]
  }

  function CompleteCosts(fee: real, funding: real, slippage: real, feeSource: Url, slippageSource: seq<Url>): Costs {
    Costs(true, Some("modeled"), Some(fee), Some(funding), Some(slippage),
          SourcesOf(feeSource, slippageSource))
  }

  function IncompleteCosts(slippage: real, slippageSource: seq<Url>): Costs {
    Costs(false, Some("incomplete"), None, None, Some(slippage), map["slippage" := slippageSource])
  }

  function CostsOf(run: Run, closeTime: int, entry: real, resolution: Settlement.Resolution, gross: real): Result<CostFields, Failure> {
    if run.slippage.None? then Ok(CostFields(None, None, None))
    else
      var profile := run.slippage.value;
      match Slippage.CostR(profile, Slippage.Demand(run.stopPct, run.notional, VENUE, run.study.minimumQuoteVolume))
      case Err(e) => Err(SlippageRejected(e))
      case Ok(slippage) =>
        var adjusted := Some(Round(gross - slippage, 1000000.0));
        if run.study.derivatives.None? || run.fee.None? then Ok(CostFields(adjusted, None, Some(IncompleteCosts(slippage, profile.sourceUrl))))
        else
          match Funding.ChargesBetween(run.funding, closeTime, resolution.fundingCutoff)
          case Err(_) => Err(FundingWindow)
          case Ok(None) => Ok(CostFields(adjusted, None, Some(IncompleteCosts(slippage, profile.sourceUrl))))
          case Ok(Some(events)) =>
            match Fees.FeeR(run.fee.value, run.stopPct, entry, resolution.exitPrice, VENUE)
            case Err(e) => Err(FeeRejected(e))
            case Ok(fee) =>
              match Funding.ShortFundingR(events, entry, run.stopPct)
              case Err(e) => Err(FundingRejected(e))
              case Ok(funding) =>
                Ok(CostFields(adjusted, Some(NetOf(gross, fee, slippage, funding)),
                              Some(CompleteCosts(fee, funding, slippage, run.fee.value.sourceUrl, profile.sourceUrl))))
  }

  function FactsOf(run: Run, d: Decision): EntryFacts {
    EntryFacts(run.study.strategy, Stages(run.study.strategy, d.checks),
               if run.study.strategy == ChannelV1 then ChannelSetup(d.checks) else None,
               d.score, d.gate.derivatives, d.gate.breakdown, d.quoteVolume, true)
  }

  /** The trade packet of an accepted decision: entry at the next candle's open. */
  function Build(run: Run, rows: seq<Candle>, i: nat, d: Decision): Result<Trade, Failure>
    requires i + 1 < |rows| && rows[i + 1].open != 0.0 && run.stopPct > 0.0
  {
    match Settlement.Settle(rows, i + 1, run.stopPct, run.targetPct, HorizonBars(run))
    case Err(e) => Err(NotSettled(e))
    case Ok(resolution) =>
      var gross := Round(resolution.r, 1000000.0);
      match CostsOf(run, d.closeTime, rows[i + 1].open, resolution, gross)
      case Err(e) => Err(e)
      case Ok(fields) =>
        Ok(Trade(run.symbol, d.closeTime, Some(SignalEvidence(d.checks)), d.gate.availableScore, run.emitPool, FactsOf(run, d),
                 Some(resolution.exitTs), Some(Round(resolution.exitPrice, 1000000000000.0)), Some(resolution.reason),
                 Some(resolution.verdict), Some(gross),
                 fields.slippageAdjustedR, fields.netR, fields.costs))
  }

  predicate MeetsThreshold(run: Run, d: Decision) {
    run.study.derivativesFilter == ScoreV2 && !run.emitPool ==>
      d.gate.availableScore.Some? && d.gate.availableScore.value >= run.threshold
  }

  predicate Tradable(rows: seq<Candle>) { forall c :: c in rows ==> WellFormed(c) }

  /** The candle is outside the measured window, or its symbol is still cooling down. */
  predicate Skipped(run: Run, closeTime: int, until: int) {
    (run.signalStart.Some? && closeTime < run.signalStart.value) || (closeTime < until && !run.emitPool)
  }

  /** The decision that survives the threshold at candle i, if any. */
  function Accepted(run: Run, rows: seq<Candle>, macro: Option<seq<seq<Candle>>>, i: nat): Option<Decision>
    requires i < |rows|
  {
    var d := Decide(run.study, rows, macro, i);
    if d.Some? && MeetsThreshold(run, d.value) then d else None
  }

  function Prepend(trade: Trade, rest: Result<seq<Trade>, Failure>): Result<seq<Trade>, Failure> {
    if rest.Err? then rest else Ok([trade] + rest.value)
  }

  /** Trades from candle i on, with entries blocked until `until` unless the whole pool is emitted. */
  function SignalsFrom(run: Run, rows: seq<Candle>, macro: Option<seq<seq<Candle>>>, i: nat, until: int): Result<seq<Trade>, Failure>
    requires Tradable(rows) && run.stopPct > 0.0 && run.triggerInterval > 0 && run.holdHours >= 1
    decreases |rows| - i
  {
    if i >= |rows| - HorizonBars(run) then Ok([])
    else
      var closeTime := CloseTime(rows[i]);
      var accepted := Accepted(run, rows, macro, i);
      if Skipped(run, closeTime, until) || accepted.None? then SignalsFrom(run, rows, macro, i + run.triggerInterval, until)
      else
        assert rows[i + 1] in rows;
        match Build(run, rows, i, accepted.value)
        case Err(e) => Err(e)
        case Ok(trade) =>
          var next := if run.emitPool then until else closeTime + run.cooldownHours * 3_600_000;
          Prepend(trade, SignalsFrom(run, rows, macro, i + run.triggerInterval, next))
  }

  function Evaluated(run: Run, rows: seq<Candle>, macro: Option<seq<seq<Candle>>>): Result<seq<Trade>, Failure>
    requires Tradable(rows) && run.stopPct > 0.0
  {
    match ConfigurationError(run)
    case Some(e) => Err(e)
    case None => SignalsFrom(run, rows, macro, FirstIndex(run), 0)
  }

  // ----- the memoised loop -----

  datatype Grouped = Grouped(m5: seq<Candle>, m15: seq<Candle>, h1: seq<Candle>, h4: seq<Candle>) {
    function Of(t: Timeframe): seq<Candle> {
      match t
      case M5 => m5
      case M15 => m15
      case H1 => h1
      case H4 => h4
    }
  }

  type Memo = map<(Timeframe, nat), Option<Evidence>>

  ghost predicate GroupedFrom(g: Grouped, rows: seq<Candle>) {
    forall t: Timeframe :: g.Of(t) == Resampled(rows, Multiplier(t))
  }

  /** Every remembered entry is what recomputing it from the bars below its endpoint returns. */
  ghost predicate MemoCorrect(memo: Memo, g: Grouped, indicators: Indicators) {
    forall t: Timeframe, endpoint: nat :: (t, endpoint) in memo ==>
      endpoint <= |g.Of(t)| && memo[(t, endpoint)] == EvidenceOf(indicators, LastBars(g.Of(t), endpoint))
  }

  method Latest(indicators: Indicators, g: Grouped, t: Timeframe, closeTime: int, memo: Memo)
    returns (evidence: Option<Evidence>, after: Memo)
    requires MemoCorrect(memo, g, indicators)
    ensures evidence == LatestEvidence(indicators, g.Of(t), t, closeTime)
    ensures MemoCorrect(after, g, indicators)
  {
    var endpoint := Endpoint(g.Of(t), t, closeTime);
    after := memo;
    if (t, endpoint) !in after {
      after := after[(t, endpoint) := EvidenceOf(indicators, LastBars(g.Of(t), endpoint))];
    }
    evidence := after[(t, endpoint)];
  }

  method DecideAt(study: Study, rows: seq<Candle>, macro: Option<seq<seq<Candle>>>, i: nat, g: Grouped, memo: Memo)
    returns (decision: Option<Decision>, after: Memo)
    requires i < |rows| && GroupedFrom(g, rows) && MemoCorrect(memo, g, study.indicators)
    ensures decision == Decide(study, rows, macro, i)
    ensures MemoCorrect(after, g, study.indicators)
  {
    hide MemoCorrect, LatestEvidence, Resampled, StagesPass, MacroConfirmed, QuoteVolume, BelowVwap, DerivativesGate, Score, Round;
    var closeTime := CloseTime(rows[i]);
    assert g.Of(H4) == Resampled(rows, Multiplier(H4)) && g.Of(M5) == Resampled(rows, Multiplier(M5));
    assert g.Of(M15) == Resampled(rows, Multiplier(M15)) && g.Of(H1) == Resampled(rows, Multiplier(H1));
    var h4, memo1 := Latest(study.indicators, g, H4, closeTime, memo);
    if h4.None? {
      return None, memo1;
    }
    if !ChannelPrecheck(study.strategy, h4.value) {
      return None, memo1;
    }
    var m5, memo2 := Latest(study.indicators, g, M5, closeTime, memo1);
    var m15, memo3 := Latest(study.indicators, g, M15, closeTime, memo2);
    var h1, memo4 := Latest(study.indicators, g, H1, closeTime, memo3);
    after := memo4;
    if m5.None? || m15.None? || h1.None? {
      return None, after;
    }
    var checks := Checks(m5.value, m15.value, h1.value, h4.value);
    if !StagesPass(study.strategy, checks, study.minimumConfirmed) || !MacroConfirmed(study.indicators, macro, closeTime) {
      return None, after;
    }
    var volume := QuoteVolume(rows, i + 1);
    if volume.None? || volume.value < study.minimumQuoteVolume {
      return None, after;
    }
    var gate := DerivativesGate(study, checks, closeTime, BelowVwap(rows, i + 1));
    if gate.None? {
      return None, after;
    }
    return Some(Decision(closeTime, checks, Round(Score(checks), 100.0), Round(volume.value, 10000.0), gate.value)), after;
  }

  function Extend(done: seq<Trade>, rest: Result<seq<Trade>, Failure>): Result<seq<Trade>, Failure> {
    if rest.Err? then rest else Ok(done + rest.value)
  }

  method Evaluate(run: Run, rows: seq<Candle>, macro: Option<seq<seq<Candle>>>) returns (result: Result<seq<Trade>, Failure>)
    requires Tradable(rows) && run.stopPct > 0.0
    ensures result == Evaluated(run, rows, macro)
  {
    var invalid := ConfigurationError(run);
    if invalid.Some? {
      return Err(invalid.value);
    }
    hide SignalsFrom;
    var m5 := Resample(rows, 1);
    var m15 := Resample(rows, 3);
    var h1 := Resample(rows, 12);
    var h4 := Resample(rows, 48);
    result := EvaluateFrom(run, rows, macro, Grouped(m5, m15, h1, h4), FirstIndex(run));
  }

  method EvaluateFrom(run: Run, rows: seq<Candle>, macro: Option<seq<seq<Candle>>>, g: Grouped, first: nat)
    returns (result: Result<seq<Trade>, Failure>)
    requires Tradable(rows) && run.stopPct > 0.0 && run.triggerInterval > 0 && run.holdHours >= 1 && GroupedFrom(g, rows)
    ensures result == SignalsFrom(run, rows, macro, first, 0)
  {
    hide Decide, Build, MemoCorrect, GroupedFrom, MeetsThreshold, Skipped, Extend, Prepend, SignalsFrom, Tradable;
    var memo: Memo := map[];
    EmptyMemo(g, run.study.indicators);
    var signals: seq<Trade>, until: int, i: nat := [], 0, first;
    ExtendNothing(SignalsFrom(run, rows, macro, first, 0));
    while i < |rows| - HorizonBars(run)
      invariant MemoCorrect(memo, g, run.study.indicators)
      invariant SignalsFrom(run, rows, macro, first, 0) == Extend(signals, SignalsFrom(run, rows, macro, i, until))
      decreases |rows| - i
    {
      var closeTime := CloseTime(rows[i]);
      LoopStep(run, rows, macro, i, until);
      if Skipped(run, closeTime, until) {
        i := i + run.triggerInterval;
        continue;
      }
      var decision;
      decision, memo := DecideAt(run.study, rows, macro, i, g, memo);
      if decision.None? || !MeetsThreshold(run, decision.value) {
        i := i + run.triggerInterval;
        continue;
      }
      var built := Build(run, rows, i, decision.value);
      if built.Err? {
        ExtendFailure(signals, built.error);
        return Err(built.error);
      }
      var next := if run.emitPool then until else closeTime + run.cooldownHours * 3_600_000;
      ExtendPrepend(signals, built.value, SignalsFrom(run, rows, macro, i + run.triggerInterval, next));
      signals := signals + [built.value];
      until := next;
      i := i + run.triggerInterval;
    }
    LoopEnd(run, rows, macro, i, until);
    ExtendByNothing(signals);
    return Ok(signals);
  }

  /** One unfolding of the loop. */
  lemma LoopStep(run: Run, rows: seq<Candle>, macro: Option<seq<seq<Candle>>>, i: nat, until: int)
    requires Tradable(rows) && run.stopPct > 0.0 && run.triggerInterval > 0 && run.holdHours >= 1
    requires i < |rows| - HorizonBars(run)
    ensures rows[i + 1].open != 0.0
    ensures var here := SignalsFrom(run, rows, macro, i, until);
            var decision, closeTime := Decide(run.study, rows, macro, i), CloseTime(rows[i]);
            if Skipped(run, closeTime, until) || decision.None? || !MeetsThreshold(run, decision.value)
            then here == SignalsFrom(run, rows, macro, i + run.triggerInterval, until)
            else match Build(run, rows, i, decision.value)
                 case Err(e) => here == Err(e)
                 case Ok(trade) =>
                   var next := if run.emitPool then until else closeTime + run.cooldownHours * 3_600_000;
                   here == Prepend(trade, SignalsFrom(run, rows, macro, i + run.triggerInterval, next))
  {
    hide Decide, Build, MeetsThreshold, Skipped, Prepend;
    assert rows[i + 1] in rows;
  }

  lemma LoopEnd(run: Run, rows: seq<Candle>, macro: Option<seq<seq<Candle>>>, i: nat, until: int)
    requires Tradable(rows) && run.stopPct > 0.0 && run.triggerInterval > 0 && run.holdHours >= 1
    requires i >= |rows| - HorizonBars(run)
    ensures SignalsFrom(run, rows, macro, i, until) == Ok([])
  {
  }

  lemma EmptyMemo(g: Grouped, indicators: Indicators)
    ensures MemoCorrect(map[], g, indicators)
  {
  }

  lemma ExtendNothing(rest: Result<seq<Trade>, Failure>)
    ensures Extend([], rest) == rest
  {
    if rest.Ok? {
      assert [] + rest.value == rest.value;
    }
  }

  lemma ExtendByNothing(done: seq<Trade>)
    ensures Extend(done, Ok([])) == Ok(done)
  {
    assert done + [] == done;
  }

  lemma ExtendFailure(done: seq<Trade>, e: Failure)
    ensures Extend(done, Err(e)) == Err(e)
  {
  }

  lemma ExtendPrepend(done: seq<Trade>, trade: Trade, rest: Result<seq<Trade>, Failure>)
    ensures Extend(done, Prepend(trade, rest)) == Extend(done + [trade], rest)
  {
    if rest.Ok? {
      assert done + ([trade] + rest.value) == done + [trade] + rest.value;
    }
  }

  // ----- what every emitted trade satisfies -----

  /** A trade that settles within its horizon, earns a possible R, and whose complete, modelled costs explain its net figure. */
  ghost predicate Sound(run: Run, t: Trade)
    requires run.stopPct > 0.0
  {
    && t.exitTs.Some? && t.timestamp < t.exitTs.value <= t.timestamp + run.holdHours * 3_600_000
    && t.realizedR.Some? && -1.0 <= t.realizedR.value <= Round(run.targetPct / run.stopPct, 1000000.0)
    && (t.netR.Some? <==> t.costs.Some? && t.costs.value.complete)
    && (t.netR.Some? ==> CostsReconcile(t))
    && Promotion.Modelled(t)
  }

  lemma BasesDiffer()
    ensures "modeled" != "realized" && "incomplete" != "realized"
  {
  }

  lemma CostsAreSound(run: Run, closeTime: int, entry: real, resolution: Settlement.Resolution, gross: real)
    requires CostsOf(run, closeTime, entry, resolution, gross).Ok?
    ensures var f := CostsOf(run, closeTime, entry, resolution, gross).value;
            && (f.netR.Some? <==> f.costs.Some? && f.costs.value.complete)
            && (f.costs.Some? ==> f.costs.value.basis.Some? && f.costs.value.basis.value != "realized")
            && (f.netR.Some? ==>
                  && f.costs.value.feeR.Some? && f.costs.value.fundingR.Some? && f.costs.value.slippageR.Some?
                  && f.costs.value.feeR.value >= 0.0 && f.costs.value.slippageR.value >= 0.0
                  && f.netR.value == NetOf(gross, f.costs.value.feeR.value, f.costs.value.slippageR.value, f.costs.value.fundingR.value)
                  && f.costs.value.provenance.Keys == COST_FIELDS
                  && forall k :: k in f.costs.value.provenance ==> HttpsSource(f.costs.value.provenance[k]))
  {
    hide NetOf, Round, HttpsSource, SourcesOf;
    BasesDiffer();
    if run.slippage.Some? {
      var demand := Slippage.Demand(run.stopPct, run.notional, VENUE, run.study.minimumQuoteVolume);
      hide Slippage.CostR, Fees.FeeR, Funding.ShortFundingR, Funding.ChargesBetween;
      Slippage.AcceptedCostIsACost(run.slippage.value, demand);
      if CostsOf(run, closeTime, entry, resolution, gross).value.netR.Some? {
        Fees.FeeIsACost(run.fee.value, run.stopPct, entry, resolution.exitPrice, VENUE);
        SourcesAreHttps(run.fee.value.sourceUrl, run.slippage.value.sourceUrl);
      }
    }
  }

  lemma SourcesAreHttps(fee: Url, slippage: seq<Url>)
    requires HttpsSource([fee]) && HttpsSource(slippage)
    ensures SourcesOf(fee, slippage).Keys == COST_FIELDS
    ensures forall k :: k in SourcesOf(fee, slippage) ==> HttpsSource(SourcesOf(fee, slippage)[k])
  {
    assert HttpsSource([FUNDING_DOC]);
  }

  /** The accumulated rounding error of the net figure stays far below the checker's tolerance. */
  lemma NetReconciles(gross: real, fee: real, slippage: real, funding: real)
    ensures Abs(NetOf(gross, fee, slippage, funding) - (gross - fee - slippage + funding)) <= 0.00000000005
  {
    RoundError(gross - fee - slippage + funding, 10000000000.0);
  }

  /** What the cost fields of a packet with gross R say of its net figure. */
  ghost predicate FieldsExplain(gross: real, f: CostFields) {
    && (f.netR.Some? <==> f.costs.Some? && f.costs.value.complete)
    && (f.costs.Some? ==> f.costs.value.basis.Some? && f.costs.value.basis.value != "realized")
    && (f.netR.Some? ==>
          && f.costs.value.feeR.Some? && f.costs.value.fundingR.Some? && f.costs.value.slippageR.Some?
          && f.costs.value.feeR.value >= 0.0 && f.costs.value.slippageR.value >= 0.0
          && Abs(f.netR.value - (gross - f.costs.value.feeR.value - f.costs.value.slippageR.value + f.costs.value.fundingR.value))
             <= 0.000000001
          && f.costs.value.provenance.Keys == COST_FIELDS
          && forall k :: k in f.costs.value.provenance ==> HttpsSource(f.costs.value.provenance[k]))
  }

  lemma FieldsAreExplained(run: Run, closeTime: int, entry: real, resolution: Settlement.Resolution, gross: real)
    requires CostsOf(run, closeTime, entry, resolution, gross).Ok?
    ensures FieldsExplain(gross, CostsOf(run, closeTime, entry, resolution, gross).value)
  {
    hide CostsOf, NetOf, HttpsSource;
    CostsAreSound(run, closeTime, entry, resolution, gross);
    var f := CostsOf(run, closeTime, entry, resolution, gross).value;
    if f.netR.Some? {
      NetReconciles(gross, f.costs.value.feeR.value, f.costs.value.slippageR.value, f.costs.value.fundingR.value);
    }
  }

  lemma ExplainedTrade(t: Trade, gross: real, f: CostFields)
    requires FieldsExplain(gross, f) && t.realizedR == Some(gross) && t.netR == f.netR && t.costs == f.costs
    ensures t.netR.Some? <==> t.costs.Some? && t.costs.value.complete
    ensures t.netR.Some? ==> CostsReconcile(t)
    ensures Promotion.Modelled(t)
  {
    hide HttpsSource, Abs;
  }

  lemma SettlesSoundly(run: Run, rows: seq<Candle>, i: nat)
    requires Contiguous(rows) && Tradable(rows) && i + 1 < |rows| && rows[i + 1].open != 0.0
    requires run.stopPct > 0.0 && run.targetPct >= -run.stopPct && run.holdHours >= 1
    ensures var result := Settlement.Settle(rows, i + 1, run.stopPct, run.targetPct, HorizonBars(run));
            && result.Ok?
            && CloseTime(rows[i]) < result.value.exitTs <= CloseTime(rows[i]) + run.holdHours * 3_600_000
            && -1.0 <= Round(result.value.r, 1000000.0) <= Round(run.targetPct / run.stopPct, 1000000.0)
  {
    var horizon := HorizonBars(run);
    hide Round;
    Settlement.ExitsWithinHorizon(rows, i + 1, run.stopPct, run.targetPct, horizon);
    assert rows[i + 1] in rows && rows[i + 1].ts == CloseTime(rows[i]);
    var held := Settlement.Held(rows, i + 1, horizon);
    assert forall c :: c in held ==> c in rows;
    Settlement.RecordedRange(held, rows[i + 1].open, run.stopPct, run.targetPct);
  }

  lemma BuiltTradeIsSound(run: Run, rows: seq<Candle>, i: nat, d: Decision)
    requires Contiguous(rows) && Tradable(rows) && i + 1 < |rows| && rows[i + 1].open != 0.0
    requires run.stopPct > 0.0 && run.targetPct >= -run.stopPct && run.holdHours >= 1
    requires d.closeTime == CloseTime(rows[i]) && Build(run, rows, i, d).Ok?
    ensures Sound(run, Build(run, rows, i, d).value)
    ensures Build(run, rows, i, d).value.timestamp == CloseTime(rows[i]) && Build(run, rows, i, d).value.symbol == run.symbol
  {
    hide Settlement.Settle, CostsOf, Round, NetOf, Contiguous, Tradable, FieldsExplain, CostsReconcile, Promotion.Modelled, FactsOf, SignalEvidence;
    SettlesSoundly(run, rows, i);
    var resolution := Settlement.Settle(rows, i + 1, run.stopPct, run.targetPct, HorizonBars(run)).value;
    var gross := Round(resolution.r, 1000000.0);
    FieldsAreExplained(run, d.closeTime, rows[i + 1].open, resolution, gross);
    ExplainedTrade(Build(run, rows, i, d).value, gross, CostsOf(run, d.closeTime, rows[i + 1].open, resolution, gross).value);
  }

  /** Every trade the loop emits settles within its horizon, earns a possible R, and reconciles its costs. */
  lemma {:induction false} EmittedTradesAreSound(run: Run, rows: seq<Candle>, macro: Option<seq<seq<Candle>>>, i: nat, until: int, t: Trade)
    requires Contiguous(rows) && Tradable(rows) && run.triggerInterval > 0
    requires run.stopPct > 0.0 && run.targetPct >= -run.stopPct && run.holdHours >= 1
    requires SignalsFrom(run, rows, macro, i, until).Ok? && t in SignalsFrom(run, rows, macro, i, until).value
    ensures Sound(run, t) && t.symbol == run.symbol
    ensures i < |rows| - HorizonBars(run)
    ensures CloseTime(rows[i]) <= t.timestamp <= CloseTime(rows[|rows| - HorizonBars(run) - 1])
    decreases |rows| - i
  {
    hide Sound, Build, Decide, MeetsThreshold, Skipped;
    if i >= |rows| - HorizonBars(run) {
      LoopEnd(run, rows, macro, i, until);
    } else {
      LoopStep(run, rows, macro, i, until);
      var decision := Decide(run.study, rows, macro, i);
      var skip := Skipped(run, CloseTime(rows[i]), until) || decision.None? || !MeetsThreshold(run, decision.value);
      var next := if skip || run.emitPool then until else CloseTime(rows[i]) + run.cooldownHours * 3_600_000;
      var rest := SignalsFrom(run, rows, macro, i + run.triggerInterval, next);
      if t in rest.value {
        EmittedTradesAreSound(run, rows, macro, i + run.triggerInterval, next, t);
        assert rows[i].ts <= rows[i + run.triggerInterval].ts;
      } else {
        DecisionTime(run.study, rows, macro, i);
        BuiltTradeIsSound(run, rows, i, decision.value);
      }
    }
  }

  lemma DecisionTime(study: Study, rows: seq<Candle>, macro: Option<seq<seq<Candle>>>, i: nat)
    requires i < |rows|
    ensures Decide(study, rows, macro, i).Some? ==> Decide(study, rows, macro, i).value.closeTime == CloseTime(rows[i])
  {
  }

  /** Splitting what the backtest emits with its own horizon never lets a train trade overlap a validation trade. */
  lemma EmittedTradesSplitCleanly(run: Run, rows: seq<Candle>, macro: Option<seq<seq<Candle>>>, start: int, end: int)
    requires Contiguous(rows) && Tradable(rows) && run.stopPct > 0.0 && run.targetPct >= -run.stopPct && start < end
    requires Evaluated(run, rows, macro).Ok?
    ensures run.holdHours >= 1
    ensures var s := SplitsOf(Evaluated(run, rows, macro).value, start, end, run.holdHours * 3_600_000);
            && (forall a, b :: a in s.train && b in s.validation ==> ExitOf(a) < b.timestamp)
            && (forall a, b :: a in s.validation && b in s.holdout ==> ExitOf(a) < b.timestamp)
  {
    var trades := Evaluated(run, rows, macro).value;
    forall t | t in trades ensures ExitOf(t) <= t.timestamp + run.holdHours * 3_600_000 {
      EmittedTradesAreSound(run, rows, macro, FirstIndex(run), 0, t);
    }
    PurgingSeparates(trades, start, end, run.holdHours * 3_600_000);
  }

  /** A validated download meets what the runs ask of their candles. */
  lemma ValidCandlesCanRun(rows: seq<Candle>, start: int, end: int, requireQuote: bool)
    requires ValidCandles(rows, start, end, requireQuote).Some?
    ensures Contiguous(ValidCandles(rows, start, end, requireQuote).value) && Tradable(ValidCandles(rows, start, end, requireQuote).value)
  {
    hide Contiguous, WellFormed;
  }

  /**
   Walk-forward folds over what the backtest emits: a trade signalled inside a fold, with the holding horizon as the
   purge, is out of the market before any later fold begins.
   */
  lemma EmittedTradesSettleBeforeNextFold(
    run: Run, rows: seq<Candle>, macro: Option<seq<seq<Candle>>>, start: int, end: int, folds: int, fraction: real, i: int, j: int, t: Trade)
    requires Contiguous(rows) && Tradable(rows) && run.stopPct > 0.0 && run.targetPct >= -run.stopPct
    requires Evaluated(run, rows, macro).Ok? && Metrics.Windows(start, end, run.holdHours * 3_600_000, folds, fraction).Ok?
    requires 0 <= i < j < |Metrics.Windows(start, end, run.holdHours * 3_600_000, folds, fraction).value|
    requires var w := Metrics.Windows(start, end, run.holdHours * 3_600_000, folds, fraction).value[i];
             t in Between(Evaluated(run, rows, macro).value, w.testStart, w.testSignalEnd)
    ensures ExitOf(t) < Metrics.Windows(start, end, run.holdHours * 3_600_000, folds, fraction).value[j].testStart
  {
    hide SignalsFrom, Metrics.Windows;
    var trades, w := Evaluated(run, rows, macro).value, Metrics.Windows(start, end, run.holdHours * 3_600_000, folds, fraction).value[i];
    Metrics.FoldsTileTheTail(start, end, run.holdHours * 3_600_000, folds, fraction);
    BetweenMembers(trades, w.testStart, w.testSignalEnd, t);
    EmittedTradesAreSound(run, rows, macro, FirstIndex(run), 0, t);
    Metrics.FoldTradesSettleFirst(start, end, run.holdHours * 3_600_000, folds, fraction, i, j, t.timestamp, ExitOf(t));
  }

  lemma BetweenMembers(trades: seq<Trade>, low: int, high: int, t: Trade)
    ensures t in Between(trades, low, high) <==> t in trades && low <= t.timestamp < high
  {
    FilterMembers(trades, (t: Trade) => Within(t, low, high));
  }
}
