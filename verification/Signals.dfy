/**
 Entry decisions of the backtest (scripts/historical_backtest.py, backend/src/waterfallhunter/core/channel_strategy.py).

 A decision at candle i looks bars up in the fully resampled data by bisecting close times, as the code does.
 NoLookahead shows that it nevertheless depends only on candles closed by then.
 */
module Signals {
  import opened Common
  import opened Candles

  const EVIDENCE_WINDOW: int := 100
  const DAY_BARS: int := 288
  const ONE_HOUR: int := 3_600_000

  datatype Timeframe = M5 | M15 | H1 | H4

  function Multiplier(t: Timeframe): (r: nat)
    ensures r > 0
  {
    match t
    case M5 => 1
    case M15 => 3
    case H1 => 12
    case H4 => 48
  }

  function Weight(t: Timeframe): real {
    match t
    case M5 => 5.0
    case M15 => 8.0
    case H1 => 10.0
    case H4 => 12.0
  }

  datatype Flags = Flags(
    twoBearish: bool, lowerHigh: bool, volumeAcceleration: bool, rsiRollover: bool, reclaimOrRepump: bool, bearishClose: bool)

  datatype Evidence = Evidence(
    strength: int, passed: bool, flags: Flags, supportBroken: bool, failedPullback: bool, hypeContext: bool)

  datatype Checks = Checks(m5: Evidence, m15: Evidence, h1: Evidence, h4: Evidence)

  datatype Strategy = Legacy | WaterfallV2 | PostHypeV1 | ChannelV1

  datatype DerivativesFilter = Off | LongUnwindV1 | ScoreV2

  /** One archived metrics observation. */
  datatype MetricsRow = MetricsRow(openInterest: Option<real>, takerRatio: Option<real>, topTraderRatio: Option<real>)

  /** When each observation of a context was made. */
  datatype ObservedAt = ObservedAt(funding: int, current: int, hourEarlier: int)

  /** The derivatives context of the score; only the taker ratio gates the entry directly. */
  datatype ScoreContext = ScoreContext(
    fundingRate: real, fundingPercentile: real, oiChangePct: real, takerRatio: real, topTraderRatio: real,
    takerChange: Option<real>, observedAt: ObservedAt)

  /** What a packet records of the derivatives its entry was gated by. */
  datatype DerivativesPacket =
    | NoDerivatives
    | Unwind(oiChangePct: real, takerRatio: real, topTraderRatio: real)
    | Scored(context: ScoreContext)

  datatype Component = Component(points: Option<real>, maximum: real, reason: Option<string>)

  /** The part of a historical score besides the available score itself. */
  datatype Breakdown = Breakdown(maximum: Option<real>, components: map<string, Component>, reason: Option<string>)

  /** Point-in-time derivatives: each answer is for the queried time and no later. */
  datatype Derivatives = Derivatives(scoreAt: int -> Option<ScoreContext>, metricsAt: int -> Option<MetricsRow>)

  /** The indicator formulas, taken as pure functions of the bars handed to them. */
  datatype Indicators = Indicators(
    evidence: seq<Candle> -> Evidence,
    bearish: seq<real> -> bool,
    availableScore: (Checks, ScoreContext, Option<bool>) -> Option<real>,
    breakdown: (Checks, ScoreContext, Option<bool>) -> Breakdown)

  datatype Study = Study(
    strategy: Strategy, minimumConfirmed: int, minimumQuoteVolume: real, derivativesFilter: DerivativesFilter,
    derivatives: Option<Derivatives>, indicators: Indicators)

  // ----- evidence from bars -----

  function EvidenceOf(indicators: Indicators, bars: seq<Candle>): Option<Evidence> {
    if |bars| < 20 then None else Some(indicators.evidence(bars))
  }

  /** The last hundred bars below an endpoint. */
  function LastBars(bars: seq<Candle>, endpoint: nat): seq<Candle>
    requires endpoint <= |bars|
  {
    bars[(if endpoint > EVIDENCE_WINDOW then endpoint - EVIDENCE_WINDOW else 0)..endpoint]
  }

  function Endpoint(bars: seq<Candle>, t: Timeframe, closeTime: int): (r: nat)
    ensures r <= |bars|
  {
    BisectRight(CloseTimes(bars, Multiplier(t)), closeTime)
  }

  function LatestEvidence(indicators: Indicators, bars: seq<Candle>, t: Timeframe, closeTime: int): Option<Evidence> {
    EvidenceOf(indicators, LastBars(bars, Endpoint(bars, t, closeTime)))
  }

  function EvidenceAt(indicators: Indicators, rows: seq<Candle>, t: Timeframe, closeTime: int): Option<Evidence> {
    LatestEvidence(indicators, Resampled(rows, Multiplier(t)), t, closeTime)
  }

  function Closes(bars: seq<Candle>): (r: seq<real>)
    ensures |r| == |bars|
  {
    seq(|bars|, i requires 0 <= i < |bars| => bars[i].close)
  }

  function MarketRegimeAt(indicators: Indicators, rows: seq<Candle>, closeTime: int): bool {
    var bars := Resampled(rows, Multiplier(H4));
    indicators.bearish(Closes(bars[..Endpoint(bars, H4, closeTime)]))
  }

  predicate MacroConfirmed(indicators: Indicators, macro: Option<seq<seq<Candle>>>, closeTime: int) {
    macro.None? || forall rows :: rows in macro.value ==> MarketRegimeAt(indicators, rows, closeTime)
  }

  // ----- the last day of candles -----

  function DayBefore(rows: seq<Candle>, entryIndex: nat): seq<Candle>
    requires entryIndex <= |rows|
  {
    if entryIndex >= DAY_BARS then rows[entryIndex - DAY_BARS..entryIndex] else []
  }

  function QuoteSum(rows: seq<Candle>): Option<real> {
    if rows == [] then Some(0.0)
    else
      var n := |rows| - 1;
      var before := QuoteSum(rows[..n]);
      if before.None? || rows[n].quote.None? then None else Some(before.value + rows[n].quote.value)
  }

  function QuoteVolume(rows: seq<Candle>, entryIndex: nat): Option<real>
    requires entryIndex <= |rows|
  {
    var day := DayBefore(rows, entryIndex);
    if |day| != DAY_BARS then None
    else
      var total := QuoteSum(day);
      if total.Some? && total.value >= 0.0 then total else None
  }

  function Turnover(rows: seq<Candle>): real {
    if rows == [] then 0.0
    else Turnover(rows[..|rows| - 1]) + rows[|rows| - 1].close * rows[|rows| - 1].volume
  }

  /** None when the day is incomplete or nothing traded. */
  function BelowVwap(rows: seq<Candle>, entryIndex: nat): Option<bool>
    requires entryIndex <= |rows|
  {
    var day := DayBefore(rows, entryIndex);
    if |day| != DAY_BARS || Volume(day) == 0.0 then None
    else Some(day[DAY_BARS - 1].close < Turnover(day) / Volume(day))
  }

  // ----- strategies -----

  function PassedCount(c: Checks): int {
    (if c.m5.passed then 1 else 0) + (if c.m15.passed then 1 else 0) + (if c.h1.passed then 1 else 0) + (if c.h4.passed then 1 else 0)
  }

  predicate FiveMinuteTrigger(c: Checks) { c.m5.flags.lowerHigh && c.m5.flags.bearishClose }

  predicate Damage(c: Checks) { c.h4.supportBroken && c.h4.flags.lowerHigh }

  function ChannelSetup(c: Checks): Option<string> {
    if c.h4.failedPullback then Some("FAILED_PULLBACK")
    else if Damage(c) && c.h4.flags.bearishClose && c.h4.flags.volumeAcceleration then Some("BREAKDOWN")
    else if Damage(c) && c.h1.flags.twoBearish && c.h1.flags.lowerHigh && c.h1.flags.bearishClose then Some("CONTINUATION")
    else None
  }

  predicate FifteenMinuteTrigger(c: Checks) {
    c.m15.flags.twoBearish && c.m15.flags.lowerHigh && c.m15.flags.volumeAcceleration && c.m15.flags.bearishClose
  }

  /** The named stages a packet records; the setup type of a channel is kept beside them. */
  function Stages(strategy: Strategy, c: Checks): map<string, bool> {
    match strategy
    case Legacy => map["regime" := c.h4.passed, "setup" := c.h1.passed, "trigger" := PassedCount(c) >= 2]
    case WaterfallV2 => map[
      "regime" := c.h4.flags.lowerHigh && c.h4.flags.bearishClose && c.h4.flags.rsiRollover,
      "setup" := c.h1.flags.twoBearish && c.h1.flags.lowerHigh && c.h1.flags.reclaimOrRepump,
      "trigger" := FifteenMinuteTrigger(c) && FiveMinuteTrigger(c)]
    case PostHypeV1 => map[
      "hype" := c.h4.hypeContext, "damage" := Damage(c), "setup" := c.h4.failedPullback,
      "trigger" := FifteenMinuteTrigger(c) && FiveMinuteTrigger(c)]
    case ChannelV1 => map[
      "hype" := c.h4.hypeContext, "damage" := Damage(c), "setup" := ChannelSetup(c).Some?,
      "trigger" := c.m15.flags.lowerHigh && c.m15.flags.bearishClose && FiveMinuteTrigger(c)]
  }

  predicate StagesPass(strategy: Strategy, c: Checks, minimumConfirmed: int) {
    if strategy == Legacy then c.h1.passed && c.h4.passed && PassedCount(c) >= minimumConfirmed
    else forall name :: name in Stages(strategy, c) ==> Stages(strategy, c)[name]
  }

  predicate ChannelPrecheck(strategy: Strategy, h4: Evidence) {
    strategy == ChannelV1 ==> h4.hypeContext && h4.supportBroken && h4.flags.lowerHigh
  }

  function Score(c: Checks): real {
    Weight(M5) * c.m5.strength as real / 100.0 + Weight(M15) * c.m15.strength as real / 100.0
    + Weight(H1) * c.h1.strength as real / 100.0 + Weight(H4) * c.h4.strength as real / 100.0
  }

  /** The change against an hour before; None when an observation is missing. */
  function UnwindContext(current: Option<MetricsRow>, previous: Option<MetricsRow>): Option<DerivativesPacket> {
    if current.None? || previous.None? then None
    else
      var now, before := current.value, previous.value;
      if now.openInterest.None? || before.openInterest.None? || before.openInterest.value <= 0.0
         || now.takerRatio.None? || now.topTraderRatio.None? then None
      else
        Some(Unwind(
          Round((now.openInterest.value / before.openInterest.value - 1.0) * 100.0, 10000.0),
          Round(now.takerRatio.value, 1000000.0), Round(now.topTraderRatio.value, 1000000.0)))
  }

  /** Falling open interest, sellers dominating, crowded longs. */
  predicate LongUnwind(packet: Option<DerivativesPacket>) {
    packet.Some? && packet.value.Unwind?
    && packet.value.oiChangePct < 0.0 && packet.value.takerRatio < 1.0 && packet.value.topTraderRatio > 1.0
  }

  /** What an accepted candle contributes to a trade packet besides outcome, exit and costs. */
  datatype Decision = Decision(closeTime: int, checks: Checks, score: real, quoteVolume: real, gate: Gate)

  /** What the derivatives gate lets through: the packet it read and the score it computed, if it computes one. */
  datatype Gate = Gate(derivatives: DerivativesPacket, availableScore: Option<real>, breakdown: Option<Breakdown>)

  function ChecksAt(indicators: Indicators, rows: seq<Candle>, closeTime: int): Option<Checks> {
    var h4 := EvidenceAt(indicators, rows, H4, closeTime);
    var m5 := EvidenceAt(indicators, rows, M5, closeTime);
    var m15 := EvidenceAt(indicators, rows, M15, closeTime);
    var h1 := EvidenceAt(indicators, rows, H1, closeTime);
    if h4.None? || m5.None? || m15.None? || h1.None? then None
    else Some(Checks(m5.value, m15.value, h1.value, h4.value))
  }

  /** The derivatives gate; None rejects. */
  function DerivativesGate(study: Study, checks: Checks, closeTime: int, belowVwap: Option<bool>): Option<Gate> {
    match study.derivativesFilter
    case Off => Some(Gate(NoDerivatives, None, None))
    case LongUnwindV1 =>
      var current := if study.derivatives.Some? then study.derivatives.value.metricsAt(closeTime) else None;
      var previous := if study.derivatives.Some? then study.derivatives.value.metricsAt(closeTime - ONE_HOUR) else None;
      var packet := UnwindContext(current, previous);
      if LongUnwind(packet) then Some(Gate(packet.value, None, None)) else None
    case ScoreV2 =>
      var context := if study.derivatives.Some? then study.derivatives.value.scoreAt(closeTime) else None;
      if context.None? || context.value.takerRatio >= 1.0 then None
      else
        var score := study.indicators.availableScore(checks, context.value, belowVwap);
        if score.None? then None
        else Some(Gate(Scored(context.value), score, Some(study.indicators.breakdown(checks, context.value, belowVwap))))
  }

  /** Everything that decides an entry at candle i except the threshold and the cooldown. */
  function Decide(study: Study, rows: seq<Candle>, macro: Option<seq<seq<Candle>>>, i: nat): Option<Decision>
    requires i < |rows|
  {
    var closeTime := CloseTime(rows[i]);
    var checks := ChecksAt(study.indicators, rows, closeTime);
    if checks.None? || !ChannelPrecheck(study.strategy, checks.value.h4) then None
    else if !StagesPass(study.strategy, checks.value, study.minimumConfirmed) || !MacroConfirmed(study.indicators, macro, closeTime) then None
    else
      var volume := QuoteVolume(rows, i + 1);
      if volume.None? || volume.value < study.minimumQuoteVolume then None
      else
        var gate := DerivativesGate(study, checks.value, closeTime, BelowVwap(rows, i + 1));
        if gate.None? then None
        else Some(Decision(closeTime, checks.value, Round(Score(checks.value), 100.0), Round(volume.value, 10000.0), gate.value))
  }

  // ----- no lookahead -----

  /** Two candle lists show the same candles at time x. */
  ghost predicate SameUntil(a: seq<Candle>, b: seq<Candle>, x: int) {
    exists k: nat :: ClosedBy(a, k, x) && ClosedBy(b, k, x) && a[..k] == b[..k]
  }

  ghost predicate SameMacroUntil(a: Option<seq<seq<Candle>>>, b: Option<seq<seq<Candle>>>, x: int) {
    match (a, b)
    case (Some(m), Some(n)) => |m| == |n| && forall i :: 0 <= i < |m| ==> Contiguous(m[i]) && Contiguous(n[i]) && SameUntil(m[i], n[i], x)
    case (None, None) => true
    case _ => false
  }

  lemma VisibleEndpoint(a: seq<Candle>, b: seq<Candle>, t: Timeframe, x: int)
    requires Contiguous(a) && Contiguous(b) && SameUntil(a, b, x)
    ensures var p, q := Resampled(a, Multiplier(t)), Resampled(b, Multiplier(t));
            p[..Endpoint(p, t, x)] == q[..Endpoint(q, t, x)]
  {
    var k: nat :| ClosedBy(a, k, x) && ClosedBy(b, k, x) && a[..k] == b[..k];
    VisibleBars(a, k, x, Multiplier(t));
    VisibleBars(b, k, x, Multiplier(t));
  }

  /** The evidence found through full resampling is the evidence of the visible candles alone. */
  lemma EvidenceIsVisible(indicators: Indicators, a: seq<Candle>, b: seq<Candle>, t: Timeframe, x: int)
    requires Contiguous(a) && Contiguous(b) && SameUntil(a, b, x)
    ensures EvidenceAt(indicators, a, t, x) == EvidenceAt(indicators, b, t, x)
  {
    hide Resampled, SameUntil;
    VisibleEndpoint(a, b, t, x);
    var p, q := Resampled(a, Multiplier(t)), Resampled(b, Multiplier(t));
    var i, j := Endpoint(p, t, x), Endpoint(q, t, x);
    assert i == |p[..i]| && j == |q[..j]|;
    var low := if i > EVIDENCE_WINDOW then i - EVIDENCE_WINDOW else 0;
    assert p[low..i] == p[..i][low..] && q[low..j] == q[..j][low..];
  }

  lemma MacroIsVisible(indicators: Indicators, a: Option<seq<seq<Candle>>>, b: Option<seq<seq<Candle>>>, x: int)
    requires SameMacroUntil(a, b, x)
    ensures MacroConfirmed(indicators, a, x) == MacroConfirmed(indicators, b, x)
  {
    hide Resampled, SameUntil;
    if a.Some? && b.Some? {
      var m, n := a.value, b.value;
      forall i | 0 <= i < |m| ensures MarketRegimeAt(indicators, m[i], x) == MarketRegimeAt(indicators, n[i], x) {
        VisibleEndpoint(m[i], n[i], H4, x);
      }
      hide MarketRegimeAt;
      assert forall rows :: rows in m <==> exists i :: 0 <= i < |m| && m[i] == rows;
      assert forall rows :: rows in n <==> exists i :: 0 <= i < |n| && n[i] == rows;
    }
  }

  lemma ChecksAreVisible(indicators: Indicators, a: seq<Candle>, b: seq<Candle>, x: int)
    requires Contiguous(a) && Contiguous(b) && SameUntil(a, b, x)
    ensures ChecksAt(indicators, a, x) == ChecksAt(indicators, b, x)
  {
    hide Contiguous, SameUntil, EvidenceAt;
    EvidenceIsVisible(indicators, a, b, M5, x);
    EvidenceIsVisible(indicators, a, b, M15, x);
    EvidenceIsVisible(indicators, a, b, H1, x);
    EvidenceIsVisible(indicators, a, b, H4, x);
  }

  lemma DayIsVisible(a: seq<Candle>, b: seq<Candle>, i: nat)
    requires i < |a| && i < |b| && a[..i + 1] == b[..i + 1]
    ensures QuoteVolume(a, i + 1) == QuoteVolume(b, i + 1)
    ensures BelowVwap(a, i + 1) == BelowVwap(b, i + 1)
  {
    var low := if i + 1 >= DAY_BARS then i + 1 - DAY_BARS else i + 1;
    assert a[low..i + 1] == a[..i + 1][low..] && b[low..i + 1] == b[..i + 1][low..];
    assert DayBefore(a, i + 1) == DayBefore(b, i + 1);
  }

  lemma SameClosedCandles(a: seq<Candle>, b: seq<Candle>, i: nat)
    requires Contiguous(a) && Contiguous(b) && i < |a| && i < |b| && a[..i + 1] == b[..i + 1]
    ensures a[i] == b[i] && SameUntil(a, b, CloseTime(a[i]))
  {
    assert a[i] == a[..i + 1][i] && b[i] == b[..i + 1][i];
    assert ClosedBy(a, i + 1, CloseTime(a[i])) && ClosedBy(b, i + 1, CloseTime(a[i]));
  }

  /**
   No lookahead. Two data sets that agree on every candle closed by candle i's close, in the symbol and in the market
   regime inputs, give the same decision at candle i, whatever either of them holds afterwards.
   */
  lemma NoLookahead(study: Study, a: seq<Candle>, b: seq<Candle>, p: Option<seq<seq<Candle>>>, q: Option<seq<seq<Candle>>>, i: nat)
    requires Contiguous(a) && Contiguous(b) && i < |a| && i < |b| && a[..i + 1] == b[..i + 1]
    requires SameMacroUntil(p, q, CloseTime(a[i]))
    ensures Decide(study, a, p, i) == Decide(study, b, q, i)
  {
    hide Contiguous, SameUntil, SameMacroUntil, ChecksAt, MacroConfirmed, QuoteVolume, BelowVwap, StagesPass, DerivativesGate, Score, Round;
    SameClosedCandles(a, b, i);
    ChecksAreVisible(study.indicators, a, b, CloseTime(a[i]));
    MacroIsVisible(study.indicators, p, q, CloseTime(a[i]));
    DayIsVisible(a, b, i);
  }
}
