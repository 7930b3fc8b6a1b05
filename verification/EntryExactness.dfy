/**
 When a bar is an entry, condition by condition, and which bars a backtest emits
 (scripts/historical_backtest.py, backend/src/waterfallhunter/core/channel_strategy.py).
 */
module EntryExactness {
  import opened Common
  import opened Candles
  import opened Trades
  import opened Signals
  import opened Backtest
  import opened Causality
  import Settlement

  // ----- evidence -----

  /** The bars of m candles that are complete at candle i's close, at most the last hundred. */
  ghost function LastBarsBy(rows: seq<Candle>, i: nat, m: nat): seq<Candle>
    requires i < |rows| && m > 0
  {
    var bars := Resampled(rows[..i + 1], m);
    if |bars| > 100 then bars[|bars| - 100..] else bars
  }

  /** Evidence needs twenty bars. */
  ghost function EvidenceBy(indicators: Indicators, rows: seq<Candle>, i: nat, m: nat): Option<Evidence>
    requires i < |rows| && m > 0
  {
    var bars := LastBarsBy(rows, i, m);
    if |bars| >= 20 then Some(indicators.evidence(bars)) else None
  }

  lemma BarClosed(rows: seq<Candle>, i: nat)
    requires Contiguous(rows) && i < |rows|
    ensures ClosedBy(rows, i + 1, CloseTime(rows[i]))
  {
  }

  /** What is looked up through the full resampling is the evidence of the candles up to the bar alone. */
  lemma EvidenceMeans(indicators: Indicators, rows: seq<Candle>, t: Timeframe, i: nat)
    requires Contiguous(rows) && i < |rows|
    ensures EvidenceAt(indicators, rows, t, CloseTime(rows[i])) == EvidenceBy(indicators, rows, i, Multiplier(t))
  {
    BarClosed(rows, i);
    VisibleBars(rows, i + 1, CloseTime(rows[i]), Multiplier(t));
    hide Resampled, Contiguous, ClosedBy, BisectRight, CloseTimes;
    var bars := Resampled(rows, Multiplier(t));
    var n := Endpoint(bars, t, CloseTime(rows[i]));
    assert n == |bars[..n]|;
    SliceOfPrefix(bars, n, if n > 100 then n - 100 else 0, n);
  }

  // ----- strategies, flag by flag -----

  ghost predicate TriggerHolds(m5: Evidence, m15: Evidence) {
    && m15.flags.twoBearish && m15.flags.lowerHigh && m15.flags.volumeAcceleration && m15.flags.bearishClose
    && m5.flags.lowerHigh && m5.flags.bearishClose
  }

  /** The setups of the channel strategy. */
  ghost predicate ChannelSetupHolds(h1: Evidence, h4: Evidence) {
    || h4.failedPullback
    || (h4.supportBroken && h4.flags.lowerHigh && h4.flags.bearishClose && h4.flags.volumeAcceleration)
    || (h4.supportBroken && h4.flags.lowerHigh && h1.flags.twoBearish && h1.flags.lowerHigh && h1.flags.bearishClose)
  }

  ghost predicate StrategyHolds(strategy: Strategy, m5: Evidence, m15: Evidence, h1: Evidence, h4: Evidence, minimum: int) {
    match strategy
    case Legacy => h1.passed && h4.passed && 2 + (if m5.passed then 1 else 0) + (if m15.passed then 1 else 0) >= minimum
    case WaterfallV2 =>
      && h4.flags.lowerHigh && h4.flags.bearishClose && h4.flags.rsiRollover
      && h1.flags.twoBearish && h1.flags.lowerHigh && h1.flags.reclaimOrRepump
      && TriggerHolds(m5, m15)
    case PostHypeV1 => h4.hypeContext && h4.supportBroken && h4.flags.lowerHigh && h4.failedPullback && TriggerHolds(m5, m15)
    case ChannelV1 =>
      && h4.hypeContext && h4.supportBroken && h4.flags.lowerHigh && ChannelSetupHolds(h1, h4)
      && m15.flags.lowerHigh && m15.flags.bearishClose && m5.flags.lowerHigh && m5.flags.bearishClose
  }

  lemma StagesMean(strategy: Strategy, c: Checks, minimum: int)
    ensures ChannelPrecheck(strategy, c.h4) && StagesPass(strategy, c, minimum) <==>
            StrategyHolds(strategy, c.m5, c.m15, c.h1, c.h4, minimum)
  {
    var stages := Stages(strategy, c);
    if strategy != Legacy {
      assert "trigger" in stages && "setup" in stages;
      if strategy == WaterfallV2 { assert "regime" in stages; } else { assert "hype" in stages && "damage" in stages; }
    }
  }

  // ----- market regime -----

  /** Every market is bearish on its complete four-hour bars. */
  ghost predicate MarketsFall(indicators: Indicators, macro: Option<seq<seq<Candle>>>, closeTime: int) {
    macro.Some? ==> forall rows, k: nat :: rows in macro.value && ClosedBy(rows, k, closeTime) ==>
                      indicators.bearish(Mapped(Resampled(rows[..k], 48), (c: Candle) => c.close))
  }

  ghost predicate ContiguousMarkets(macro: Option<seq<seq<Candle>>>) {
    macro.Some? ==> forall rows :: rows in macro.value ==> Contiguous(rows)
  }

  lemma RegimeMeans(indicators: Indicators, rows: seq<Candle>, k: nat, closeTime: int)
    requires Contiguous(rows) && ClosedBy(rows, k, closeTime)
    ensures MarketRegimeAt(indicators, rows, closeTime) == indicators.bearish(Mapped(Resampled(rows[..k], 48), (c: Candle) => c.close))
  {
    VisibleBars(rows, k, closeTime, 48);
    hide Resampled, Contiguous, ClosedBy, BisectRight;
    var bars := Resampled(rows[..k], 48);
    assert Closes(bars) == Mapped(bars, (c: Candle) => c.close);
  }

  lemma MarketsMean(indicators: Indicators, macro: Option<seq<seq<Candle>>>, closeTime: int)
    requires ContiguousMarkets(macro)
    ensures MacroConfirmed(indicators, macro, closeTime) <==> MarketsFall(indicators, macro, closeTime)
  {
    hide Contiguous, MarketRegimeAt;
    if macro.Some? {
      forall rows | rows in macro.value
        ensures MarketRegimeAt(indicators, rows, closeTime) <==>
                forall k: nat :: ClosedBy(rows, k, closeTime) ==>
                  indicators.bearish(Mapped(Resampled(rows[..k], 48), (c: Candle) => c.close))
      {
        var n := SomeClosed(rows, closeTime);
        hide ClosedBy, Resampled, Mapped;
        forall k: nat | ClosedBy(rows, k, closeTime)
          ensures MarketRegimeAt(indicators, rows, closeTime) == indicators.bearish(Mapped(Resampled(rows[..k], 48), (c: Candle) => c.close))
        {
          RegimeMeans(indicators, rows, k, closeTime);
        }
      }
    }
  }

  // ----- the last day -----

  /** The 288 candles that end with the bar. */
  ghost function LastDay(rows: seq<Candle>, i: nat): seq<Candle>
    requires 287 <= i < |rows|
  {
    rows[i - 287..i + 1]
  }

  ghost function QuoteTotal(day: seq<Candle>): real { Sum(Mapped(day, (c: Candle) => c.quote.GetOr(0.0))) }

  ghost function VolumeTotal(day: seq<Candle>): real { Sum(Mapped(day, (c: Candle) => c.volume)) }

  ghost function TurnoverTotal(day: seq<Candle>): real { Sum(Mapped(day, (c: Candle) => c.close * c.volume)) }

  /** A full day of quoted volume, worth at least the minimum. */
  ghost predicate Liquid(rows: seq<Candle>, i: nat, minimum: real)
    requires i < |rows|
  {
    && i >= 287 && (forall c :: c in LastDay(rows, i) ==> c.quote.Some?)
    && QuoteTotal(LastDay(rows, i)) >= 0.0 && QuoteTotal(LastDay(rows, i)) >= minimum
  }

  lemma TotalsMean(day: seq<Candle>)
    ensures QuoteSum(day) == if forall c :: c in day ==> c.quote.Some? then Some(QuoteTotal(day)) else None
    ensures Volume(day) == VolumeTotal(day) && Turnover(day) == TurnoverTotal(day)
  {
    hide *;
    QuotesMean(day);
    VolumesMean(day);
    TurnoversMean(day);
  }

  lemma {:induction false} QuotesMean(day: seq<Candle>)
    ensures QuoteSum(day) == if forall c :: c in day ==> c.quote.Some? then Some(QuoteTotal(day)) else None
  {
    hide Mapped;
    if day != [] {
      var n := |day| - 1;
      QuotesMean(day[..n]);
      MappedInit(day, (c: Candle) => c.quote.GetOr(0.0));
      hide Sum;
      assert forall c :: c in day <==> c in day[..n] || c == day[n];
    }
  }

  lemma {:induction false} VolumesMean(day: seq<Candle>)
    ensures Volume(day) == VolumeTotal(day)
  {
    if day != [] {
      VolumesMean(day[..|day| - 1]);
      MappedInit(day, (c: Candle) => c.volume);
      hide Mapped, Sum;
    }
  }

  lemma {:induction false} TurnoversMean(day: seq<Candle>)
    ensures Turnover(day) == TurnoverTotal(day)
  {
    if day != [] {
      TurnoversMean(day[..|day| - 1]);
      MappedInit(day, (c: Candle) => c.close * c.volume);
      hide Mapped, Sum;
    }
  }

  lemma MappedInit<T>(s: seq<T>, f: T -> real)
    requires s != []
    ensures Sum(Mapped(s, f)) == Sum(Mapped(s[..|s| - 1], f)) + f(s[|s| - 1])
  {
    hide Mapped;
    assert Mapped(s, f)[..|s| - 1] == Mapped(s[..|s| - 1], f);
  }

  lemma LiquidityMeans(rows: seq<Candle>, i: nat, minimum: real)
    requires i < |rows|
    ensures var volume := QuoteVolume(rows, i + 1);
            && (volume.Some? && volume.value >= minimum <==> Liquid(rows, i, minimum))
            && (volume.Some? ==> i >= 287 && volume.value == QuoteTotal(LastDay(rows, i)))
  {
    if i >= 287 {
      TotalsMean(LastDay(rows, i));
      hide QuoteSum, QuoteTotal;
    }
  }

  /** Whether the close lies below the volume-weighted price of a day that traded at all. */
  ghost function VwapSide(rows: seq<Candle>, i: nat): Option<bool>
    requires i < |rows|
  {
    if i < 287 || VolumeTotal(LastDay(rows, i)) == 0.0 then None
    else Some(rows[i].close * VolumeTotal(LastDay(rows, i)) < TurnoverTotal(LastDay(rows, i)))
  }

  lemma {:induction false} VolumeIsPositive(day: seq<Candle>)
    requires forall c :: c in day ==> c.volume >= 0.0
    ensures Volume(day) >= 0.0
  {
    if day != [] {
      assert day[|day| - 1] in day;
      assert forall c :: c in day[..|day| - 1] ==> c in day;
      VolumeIsPositive(day[..|day| - 1]);
    }
  }

  lemma BelowQuotient(x: real, y: real, z: real)
    requires z > 0.0
    ensures x < y / z <==> x * z < y
  {
    assert (y / z) * z == y;
  }

  lemma SideMeans(rows: seq<Candle>, i: nat)
    requires i < |rows| && Tradable(rows)
    ensures BelowVwap(rows, i + 1) == VwapSide(rows, i)
  {
    if i >= 287 {
      var day := LastDay(rows, i);
      TotalsMean(day);
      DayIsTradable(rows, i);
      VolumeIsPositive(day);
      hide Volume, Turnover, VolumeTotal, TurnoverTotal, Tradable;
      if Volume(day) != 0.0 {
        BelowQuotient(rows[i].close, Turnover(day), Volume(day));
      }
    }
  }

  lemma DayIsTradable(rows: seq<Candle>, i: nat)
    requires 287 <= i < |rows| && Tradable(rows)
    ensures LastDay(rows, i)[287] == rows[i] && forall c :: c in LastDay(rows, i) ==> c.volume >= 0.0
  {
    assert forall c :: c in LastDay(rows, i) ==> c in rows;
  }

  // ----- derivatives filters -----

  /** Open interest fell within the hour, sellers dominate and large traders are long. */
  ghost predicate LongsUnwind(now: Option<MetricsRow>, before: Option<MetricsRow>) {
    && now.Some? && before.Some?
    && now.value.openInterest.Some? && before.value.openInterest.Some? && before.value.openInterest.value > 0.0
    && Round((now.value.openInterest.value / before.value.openInterest.value - 1.0) * 100.0, 10000.0) < 0.0
    && now.value.takerRatio.Some? && Round(now.value.takerRatio.value, 1000000.0) < 1.0
    && now.value.topTraderRatio.Some? && Round(now.value.topTraderRatio.value, 1000000.0) > 1.0
  }

  ghost function ChecksBy(indicators: Indicators, rows: seq<Candle>, i: nat): Option<Checks>
    requires i < |rows|
  {
    var m5, m15 := EvidenceBy(indicators, rows, i, 1), EvidenceBy(indicators, rows, i, 3);
    var h1, h4 := EvidenceBy(indicators, rows, i, 12), EvidenceBy(indicators, rows, i, 48);
    if m5.None? || m15.None? || h1.None? || h4.None? then None else Some(Checks(m5.value, m15.value, h1.value, h4.value))
  }

  /** The available score of the derivatives known at x, where they are complete and sellers dominate. */
  ghost function ScoreOf(study: Study, c: Checks, x: int, side: Option<bool>): Option<real> {
    if study.derivatives.None? || study.derivatives.value.scoreAt(x).None? then None
    else if study.derivatives.value.scoreAt(x).value.takerRatio >= 1.0 then None
    else study.indicators.availableScore(c, study.derivatives.value.scoreAt(x).value, side)
  }

  ghost function ScoreBy(study: Study, rows: seq<Candle>, i: nat): Option<real>
    requires i < |rows| && ChecksBy(study.indicators, rows, i).Some?
  {
    ScoreOf(study, ChecksBy(study.indicators, rows, i).value, rows[i].ts + 300_000, VwapSide(rows, i))
  }

  ghost predicate FilterHolds(study: Study, c: Checks, x: int, side: Option<bool>) {
    match study.derivativesFilter
    case Off => true
    case LongUnwindV1 =>
      study.derivatives.Some? && LongsUnwind(study.derivatives.value.metricsAt(x), study.derivatives.value.metricsAt(x - 3_600_000))
    case ScoreV2 => ScoreOf(study, c, x, side).Some?
  }

  lemma UnwindMeans(now: Option<MetricsRow>, before: Option<MetricsRow>)
    ensures LongUnwind(UnwindContext(now, before)) <==> LongsUnwind(now, before)
  {
    hide Round;
  }

  lemma FilterMeans(study: Study, c: Checks, x: int, side: Option<bool>)
    ensures var gate := DerivativesGate(study, c, x, side);
            && (gate.Some? <==> FilterHolds(study, c, x, side))
            && (gate.Some? ==> gate.value.availableScore == if study.derivativesFilter == ScoreV2 then ScoreOf(study, c, x, side) else None)
  {
    hide LongUnwind, LongsUnwind, UnwindContext;
    if study.derivativesFilter == LongUnwindV1 && study.derivatives.Some? {
      UnwindMeans(study.derivatives.value.metricsAt(x), study.derivatives.value.metricsAt(x - 3_600_000));
    }
    NothingUnwinds();
  }

  lemma NothingUnwinds()
    ensures !LongUnwind(UnwindContext(None, None))
  {
  }

  /** What the filter read, as the packet shows it. */
  ghost predicate FilterShown(study: Study, c: Checks, x: int, side: Option<bool>, read: DerivativesPacket, breakdown: Option<Breakdown>) {
    match study.derivativesFilter
    case Off => read == NoDerivatives && breakdown == None
    case LongUnwindV1 =>
      && study.derivatives.Some? && breakdown == None && read.Unwind?
      && var now, before := study.derivatives.value.metricsAt(x), study.derivatives.value.metricsAt(x - 3_600_000);
      && LongsUnwind(now, before)
      && read.oiChangePct == Round((now.value.openInterest.value / before.value.openInterest.value - 1.0) * 100.0, 10000.0)
      && read.takerRatio == Round(now.value.takerRatio.value, 1000000.0)
      && read.topTraderRatio == Round(now.value.topTraderRatio.value, 1000000.0)
    case ScoreV2 =>
      && study.derivatives.Some? && study.derivatives.value.scoreAt(x).Some?
      && read == Scored(study.derivatives.value.scoreAt(x).value)
      && breakdown == Some(study.indicators.breakdown(c, study.derivatives.value.scoreAt(x).value, side))
  }

  lemma UnwindShows(now: Option<MetricsRow>, before: Option<MetricsRow>)
    requires LongsUnwind(now, before)
    ensures UnwindContext(now, before) ==
            Some(Unwind(Round((now.value.openInterest.value / before.value.openInterest.value - 1.0) * 100.0, 10000.0),
                        Round(now.value.takerRatio.value, 1000000.0), Round(now.value.topTraderRatio.value, 1000000.0)))
  {
    hide Round;
  }

  lemma FilterShows(study: Study, c: Checks, x: int, side: Option<bool>)
    requires DerivativesGate(study, c, x, side).Some?
    ensures var gate := DerivativesGate(study, c, x, side).value; FilterShown(study, c, x, side, gate.derivatives, gate.breakdown)
  {
    hide LongUnwind, LongsUnwind, UnwindContext, Round;
    NothingUnwinds();
    if study.derivativesFilter == LongUnwindV1 && study.derivatives.Some? {
      UnwindMeans(study.derivatives.value.metricsAt(x), study.derivatives.value.metricsAt(x - 3_600_000));
      UnwindShows(study.derivatives.value.metricsAt(x), study.derivatives.value.metricsAt(x - 3_600_000));
    }
  }

  /** Every stage of an entry's strategy is recorded as passed. */
  ghost predicate StagesShown(stages: map<string, bool>, strategy: Strategy) {
    && stages.Keys == (if strategy in {Legacy, WaterfallV2} then {"regime", "setup", "trigger"} else {"hype", "damage", "setup", "trigger"})
    && forall name :: name in stages ==> stages[name]
  }

  lemma StagesShow(strategy: Strategy, c: Checks, minimum: int)
    requires StrategyHolds(strategy, c.m5, c.m15, c.h1, c.h4, minimum)
    ensures StagesShown(Stages(strategy, c), strategy)
  {
  }

  /** The first setup of the channel strategy that holds, by its name. */
  ghost predicate SetupShown(setup: Option<string>, h1: Evidence, h4: Evidence) {
    && (setup == Some("FAILED_PULLBACK") <==> h4.failedPullback)
    && (setup == Some("BREAKDOWN") <==>
          !h4.failedPullback && h4.supportBroken && h4.flags.lowerHigh && h4.flags.bearishClose && h4.flags.volumeAcceleration)
    && (setup == None <==> !ChannelSetupHolds(h1, h4))
    && setup in {Some("FAILED_PULLBACK"), Some("BREAKDOWN"), Some("CONTINUATION"), None}
  }

  lemma SetupShows(c: Checks)
    ensures SetupShown(ChannelSetup(c), c.h1, c.h4)
  {
    assert "FAILED_PULLBACK"[0] == 'F' && "BREAKDOWN"[0] == 'B' && "CONTINUATION"[0] == 'C';
  }

  // ----- the entry rule -----

  /**
   The bar is an entry: all four timeframes have evidence, the strategy's flags hold, every market falls, the last day is
   quoted and liquid, and the derivatives filter lets it through.
   */
  ghost predicate Enters(study: Study, rows: seq<Candle>, macro: Option<seq<seq<Candle>>>, i: nat)
    requires i < |rows|
  {
    && ChecksBy(study.indicators, rows, i).Some?
    && var c := ChecksBy(study.indicators, rows, i).value;
    && StrategyHolds(study.strategy, c.m5, c.m15, c.h1, c.h4, study.minimumConfirmed)
    && MarketsFall(study.indicators, macro, rows[i].ts + 300_000)
    && Liquid(rows, i, study.minimumQuoteVolume)
    && FilterHolds(study, c, rows[i].ts + 300_000, VwapSide(rows, i))
  }

  lemma ChecksMean(indicators: Indicators, rows: seq<Candle>, i: nat)
    requires Contiguous(rows) && i < |rows|
    ensures ChecksAt(indicators, rows, CloseTime(rows[i])) == ChecksBy(indicators, rows, i)
  {
    hide EvidenceAt, EvidenceBy, Contiguous;
    EvidenceMeans(indicators, rows, M5, i);
    EvidenceMeans(indicators, rows, M15, i);
    EvidenceMeans(indicators, rows, H1, i);
    EvidenceMeans(indicators, rows, H4, i);
  }

  /** The score of the packet: the weighted strengths of the four timeframes in percent. */
  ghost function StrengthOf(c: Checks): real {
    (5 * c.m5.strength + 8 * c.m15.strength + 10 * c.h1.strength + 12 * c.h4.strength) as real / 100.0
  }

  lemma StrengthMeans(c: Checks)
    ensures Score(c) == StrengthOf(c)
  {
  }

  /** A decision is made at a bar exactly when the bar is an entry, and says what the bar shows. */
  lemma DecidesExactly(study: Study, rows: seq<Candle>, macro: Option<seq<seq<Candle>>>, i: nat)
    requires Contiguous(rows) && Tradable(rows) && i < |rows| && ContiguousMarkets(macro)
    ensures Decide(study, rows, macro, i).Some? <==> Enters(study, rows, macro, i)
    ensures Enters(study, rows, macro, i) ==>
              var d, c := Decide(study, rows, macro, i).value, ChecksBy(study.indicators, rows, i).value;
              && d.closeTime == rows[i].ts + 300_000 && d.checks == c
              && d.score == Round(StrengthOf(c), 100.0)
              && d.quoteVolume == Round(QuoteTotal(LastDay(rows, i)), 10000.0)
              && d.gate.availableScore == if study.derivativesFilter == ScoreV2 then ScoreBy(study, rows, i) else None
  {
    hide Contiguous, Tradable, ChecksAt, ChecksBy, StagesPass, ChannelPrecheck, StrategyHolds, MacroConfirmed, MarketsFall, QuoteVolume,
      QuoteTotal, DerivativesGate, FilterHolds, ScoreOf, Score, StrengthOf, Round, BelowVwap, VwapSide;
    ChecksMean(study.indicators, rows, i);
    MarketsMean(study.indicators, macro, CloseTime(rows[i]));
    LiquidityMeans(rows, i, study.minimumQuoteVolume);
    if ChecksBy(study.indicators, rows, i).Some? {
      var c := ChecksBy(study.indicators, rows, i).value;
      StagesMean(study.strategy, c, study.minimumConfirmed);
      SideMeans(rows, i);
      FilterMeans(study, c, CloseTime(rows[i]), VwapSide(rows, i));
      StrengthMeans(c);
    }
  }

  // ----- which bars a backtest emits -----

  ghost function GridBar(j: int, step: int, k: nat): int { j + k * step }

  /** The bar is among those the loop visits from bar j on. */
  ghost predicate OnGrid(j: int, step: int, i: int) { exists k: nat :: GridBar(j, step, k) == i }

  lemma GridSteps(j: int, step: int, i: int)
    requires step > 0
    ensures OnGrid(j, step, i) <==> i == j || OnGrid(j + step, step, i)
    ensures OnGrid(j + step, step, i) ==> i >= j + step
  {
    assert GridBar(j, step, 0) == j;
    forall k: nat ensures GridBar(j + step, step, k) == GridBar(j, step, k + 1) && k * step >= 0 {
      Times(k, step);
    }
    if OnGrid(j, step, i) {
      var k: nat :| GridBar(j, step, k) == i;
      if k > 0 { assert GridBar(j + step, step, k - 1) == i; }
    }
  }

  lemma Times(k: nat, step: int)
    requires step > 0
    ensures (k + 1) * step == k * step + step && k * step >= 0
  {
  }

  /** An entry inside the measured window, with its whole holding horizon of candles, whose score reaches the threshold. */
  ghost predicate Qualifies(run: Run, rows: seq<Candle>, macro: Option<seq<seq<Candle>>>, i: nat)
    requires i < |rows|
  {
    && i + run.holdHours * 12 < |rows|
    && (run.signalStart.Some? ==> run.signalStart.value <= rows[i].ts + 300_000)
    && Enters(run.study, rows, macro, i)
    && (run.study.derivativesFilter == ScoreV2 && !run.emitPool ==>
          ScoreBy(run.study, rows, i).Some? && ScoreBy(run.study, rows, i).value >= run.threshold)
  }

  ghost predicate EmittedAt(trades: seq<Trade>, x: int) { exists t :: t in trades && t.timestamp == x }

  /** Every trade of the symbol before x is out of its cooldown by x. */
  ghost predicate CooledDown(run: Run, trades: seq<Trade>, x: int) {
    forall t :: t in trades && t.timestamp < x ==> t.timestamp + run.cooldownHours * 3_600_000 <= x
  }

  /** The trades of the loop from bar j with entries blocked until a time. */
  ghost predicate EmitsFrom(run: Run, rows: seq<Candle>, macro: Option<seq<seq<Candle>>>, j: nat, until: int, trades: seq<Trade>)
  {
    && (forall t :: t in trades ==> exists i: nat :: i < |rows| && OnGrid(j, run.triggerInterval, i) && BarOf(run, rows, macro, i, t)
                                                      && (run.emitPool || until <= t.timestamp))
    && forall i: nat :: i < |rows| && OnGrid(j, run.triggerInterval, i) && Qualifies(run, rows, macro, i) ==>
         (EmittedAt(trades, rows[i].ts + 300_000) <==>
          run.emitPool || (until <= rows[i].ts + 300_000 && CooledDown(run, trades, rows[i].ts + 300_000)))
  }

  /** The trade is the packet of a qualifying bar. */
  ghost predicate BarOf(run: Run, rows: seq<Candle>, macro: Option<seq<seq<Candle>>>, i: nat, t: Trade)
    requires i < |rows|
  {
    Qualifies(run, rows, macro, i) && PacketOf(run, rows, i, t)
  }

  ghost predicate Records(flags: map<string, bool>, e: Evidence) {
    && flags.Keys == {"two_bearish", "lower_high", "volume_acceleration", "rsi_rollover", "reclaim_or_repump", "bearish_close"}
    && flags["two_bearish"] == e.flags.twoBearish && flags["lower_high"] == e.flags.lowerHigh
    && flags["volume_acceleration"] == e.flags.volumeAcceleration && flags["rsi_rollover"] == e.flags.rsiRollover
    && flags["reclaim_or_repump"] == e.flags.reclaimOrRepump && flags["bearish_close"] == e.flags.bearishClose
  }

  ghost predicate RecordsChecks(evidence: map<string, map<string, bool>>, c: Checks) {
    && evidence.Keys == {"5m", "15m", "1h", "4h"}
    && Records(evidence["5m"], c.m5) && Records(evidence["15m"], c.m15) && Records(evidence["1h"], c.h1) && Records(evidence["4h"], c.h4)
  }

  /** What a packet says of its entry. */
  ghost predicate FactsShown(run: Run, rows: seq<Candle>, i: nat, facts: EntryFacts)
    requires 287 <= i < |rows| && ChecksBy(run.study.indicators, rows, i).Some?
  {
    var c := ChecksBy(run.study.indicators, rows, i).value;
    && facts.strategy == run.study.strategy && facts.macroConfirmed
    && StagesShown(facts.stages, run.study.strategy)
    && (if run.study.strategy == ChannelV1 then SetupShown(facts.setupType, c.h1, c.h4) else facts.setupType == None)
    && facts.score == Round(StrengthOf(c), 100.0) && facts.quoteVolume == Round(QuoteTotal(LastDay(rows, i)), 10000.0)
    && FilterShown(run.study, c, rows[i].ts + 300_000, VwapSide(rows, i), facts.derivatives, facts.breakdown)
  }

  /** How the position opened at the next candle settles, and what it costs. */
  ghost predicate OutcomeShown(run: Run, rows: seq<Candle>, i: nat, t: Trade)
    requires i + 1 < |rows| && rows[i + 1].open != 0.0 && run.stopPct > 0.0
  {
    var settled := Settlement.Settle(rows, i + 1, run.stopPct, run.targetPct, run.holdHours * 12);
    && settled.Ok? && t.exitTs == Some(settled.value.exitTs) && t.verdict == Some(settled.value.verdict)
    && t.exitReason == Some(settled.value.reason)
    && t.exitPrice == Some(Round(settled.value.exitPrice, 1000000000000.0)) && t.realizedR == Some(Round(settled.value.r, 1000000.0))
    && var costs := CostsOf(run, rows[i].ts + 300_000, rows[i + 1].open, settled.value, t.realizedR.value);
    costs == Ok(CostFields(t.slippageAdjustedR, t.netR, t.costs))
  }

  /** What a packet says of its bar. */
  ghost predicate PacketOf(run: Run, rows: seq<Candle>, i: nat, t: Trade)
    requires i < |rows|
  {
    && ChecksBy(run.study.indicators, rows, i).Some? && i >= 287 && i + 1 < |rows| && rows[i + 1].open != 0.0 && run.stopPct > 0.0
    && t.symbol == run.symbol && t.timestamp == rows[i].ts + 300_000 && t.poolEvent == run.emitPool
    && t.evidence.Some? && RecordsChecks(t.evidence.value, ChecksBy(run.study.indicators, rows, i).value)
    && t.availableScore == (if run.study.derivativesFilter == ScoreV2 then ScoreBy(run.study, rows, i) else None)
    && FactsShown(run, rows, i, t.facts) && OutcomeShown(run, rows, i, t)
  }

  lemma FlagNames(e: Evidence)
    ensures FlagMap(e).Keys == {"two_bearish", "lower_high", "volume_acceleration", "rsi_rollover", "reclaim_or_repump", "bearish_close"}
  {
  }

  lemma FlagsRecord(e: Evidence)
    ensures Records(FlagMap(e), e)
  {
    FlagNames(e);
    assert |"two_bearish"| == 11 && |"lower_high"| == 10 && |"volume_acceleration"| == 19 && |"rsi_rollover"| == 12;
    assert |"reclaim_or_repump"| == 17 && |"bearish_close"| == 13;
  }

  lemma EvidenceRecords(c: Checks)
    ensures RecordsChecks(SignalEvidence(c), c)
  {
    hide FlagMap, Records;
    assert "5m"[0] == '5' && "15m"[0] == '1' && "1h"[1] == 'h' && "4h"[0] == '4' && "15m"[1] == '5';
    FlagsRecord(c.m5);
    FlagsRecord(c.m15);
    FlagsRecord(c.h1);
    FlagsRecord(c.h4);
  }

  lemma BuiltPacket(run: Run, rows: seq<Candle>, macro: Option<seq<seq<Candle>>>, i: nat)
    requires Contiguous(rows) && Tradable(rows) && ContiguousMarkets(macro) && run.stopPct > 0.0
    requires i + 1 < |rows| && rows[i + 1].open != 0.0 && Enters(run.study, rows, macro, i)
    requires Decide(run.study, rows, macro, i).Some? && Build(run, rows, i, Decide(run.study, rows, macro, i).value).Ok?
    ensures PacketOf(run, rows, i, Build(run, rows, i, Decide(run.study, rows, macro, i).value).value)
  {
    hide Contiguous, Tradable, Decide, ChecksBy, Liquid, MarketsFall, StrategyHolds, FilterHolds, Settlement.Settle, CostsOf, SignalEvidence,
      RecordsChecks, FactsOf, FactsShown, OutcomeShown, ScoreBy, StrengthOf, QuoteTotal, Round;
    DecidesExactly(run.study, rows, macro, i);
    LiquidDay(rows, i, run.study.minimumQuoteVolume);
    EvidenceRecords(ChecksBy(run.study.indicators, rows, i).value);
    BuiltFacts(run, rows, macro, i);
    BuiltOutcome(run, rows, i, Decide(run.study, rows, macro, i).value);
  }

  lemma BuiltOutcome(run: Run, rows: seq<Candle>, i: nat, d: Decision)
    requires i + 1 < |rows| && rows[i + 1].open != 0.0 && run.stopPct > 0.0 && d.closeTime == rows[i].ts + 300_000
    requires Build(run, rows, i, d).Ok?
    ensures OutcomeShown(run, rows, i, Build(run, rows, i, d).value)
  {
    hide Settlement.Settle, CostsOf, SignalEvidence, FactsOf, Round;
  }

  lemma BuiltFacts(run: Run, rows: seq<Candle>, macro: Option<seq<seq<Candle>>>, i: nat)
    requires Contiguous(rows) && Tradable(rows) && ContiguousMarkets(macro)
    requires 287 <= i < |rows| && Enters(run.study, rows, macro, i) && Decide(run.study, rows, macro, i).Some?
    ensures FactsShown(run, rows, i, FactsOf(run, Decide(run.study, rows, macro, i).value))
  {
    hide Contiguous, Tradable, ContiguousMarkets, Decide, ChecksBy, Liquid, MarketsFall, StrategyHolds, FilterHolds, Stages, StagesShown,
      ChannelSetup, SetupShown, FilterShown, DerivativesGate, VwapSide, StrengthOf, QuoteTotal, Round;
    DecidesExactly(run.study, rows, macro, i);
    var d, c := Decide(run.study, rows, macro, i).value, ChecksBy(run.study.indicators, rows, i).value;
    DecidedGate(run.study, rows, macro, i);
    FilterShows(run.study, c, d.closeTime, VwapSide(rows, i));
    StagesShow(run.study.strategy, c, run.study.minimumConfirmed);
    SetupShows(c);
  }

  lemma DecidedGate(study: Study, rows: seq<Candle>, macro: Option<seq<seq<Candle>>>, i: nat)
    requires i < |rows| && Tradable(rows) && Decide(study, rows, macro, i).Some?
    ensures var d := Decide(study, rows, macro, i).value;
            DerivativesGate(study, d.checks, d.closeTime, VwapSide(rows, i)) == Some(d.gate)
  {
    hide Tradable, ChecksAt, ChannelPrecheck, StagesPass, MacroConfirmed, QuoteVolume, BelowVwap, VwapSide, DerivativesGate, Score, Round;
    SideMeans(rows, i);
  }

  lemma LiquidDay(rows: seq<Candle>, i: nat, minimum: real)
    requires i < |rows| && Liquid(rows, i, minimum)
    ensures i >= 287
  {
  }

  ghost predicate Settings(run: Run, rows: seq<Candle>, macro: Option<seq<seq<Candle>>>) {
    && Contiguous(rows) && Tradable(rows) && ContiguousMarkets(macro)
    && run.stopPct > 0.0 && run.targetPct >= -run.stopPct && run.triggerInterval > 0 && run.holdHours >= 1
    && run.cooldownHours >= 1
  }

  /** The bar emits its packet when it qualifies and is not blocked, and nothing otherwise. */
  ghost predicate StepOf(run: Run, rows: seq<Candle>, macro: Option<seq<seq<Candle>>>, j: nat, until: int, packet: seq<Trade>)
    requires j < |rows|
  {
    if Qualifies(run, rows, macro, j) && (run.emitPool || until <= rows[j].ts + 300_000)
    then |packet| == 1 && PacketOf(run, rows, j, packet[0])
    else packet == []
  }

  /** What one bar of the loop does, in the words of the entry rule. */
  lemma BarStep(run: Run, rows: seq<Candle>, macro: Option<seq<seq<Candle>>>, j: nat, until: int)
    returns (packet: seq<Trade>, after: nat, next: int)
    requires Settings(run, rows, macro) && j < |rows| - HorizonBars(run) && SignalsFrom(run, rows, macro, j, until).Ok?
    ensures j < |rows| && StepOf(run, rows, macro, j, until, packet)
    ensures after == j + run.triggerInterval
    ensures next == if packet == [] || run.emitPool then until else rows[j].ts + 300_000 + run.cooldownHours * 3_600_000
    ensures Continues(SignalsFrom(run, rows, macro, j, until), packet, SignalsFrom(run, rows, macro, after, next))
  {
    hide *;
    SettingsHold(run, rows, macro);
    BarInside(run, rows, j);
    LoopStep(run, rows, macro, j, until);
    BarDecision(run, rows, macro, j, until);
    after := j + run.triggerInterval;
    if Qualifies(run, rows, macro, j) && (run.emitPool || until <= rows[j].ts + 300_000) {
      next := if run.emitPool then until else rows[j].ts + 300_000 + run.cooldownHours * 3_600_000;
      QualifiedEnters(run, rows, macro, j);
      var built := Build(run, rows, j, Decide(run.study, rows, macro, j).value);
      BuiltPacket(run, rows, macro, j);
      packet := [built.value];
      StepIs(run, rows, macro, j, until, packet);
      ContinuesWith(SignalsFrom(run, rows, macro, j, until), built.value, SignalsFrom(run, rows, macro, after, next));
    } else {
      packet, next := [], until;
      StepIs(run, rows, macro, j, until, packet);
      ContinuesAs(SignalsFrom(run, rows, macro, j, until));
    }
  }

  lemma SettingsHold(run: Run, rows: seq<Candle>, macro: Option<seq<seq<Candle>>>)
    requires Settings(run, rows, macro)
    ensures Contiguous(rows) && Tradable(rows) && ContiguousMarkets(macro)
    ensures run.stopPct > 0.0 && run.triggerInterval > 0 && run.holdHours >= 1 && run.cooldownHours >= 1
  {
    hide Contiguous, Tradable, ContiguousMarkets;
  }

  lemma BarInside(run: Run, rows: seq<Candle>, j: nat)
    requires run.holdHours >= 1 && j < |rows| - HorizonBars(run)
    ensures j + 1 < |rows| && CloseTime(rows[j]) == rows[j].ts + 300_000
  {
  }

  lemma StepIs(run: Run, rows: seq<Candle>, macro: Option<seq<seq<Candle>>>, j: nat, until: int, packet: seq<Trade>)
    requires j < |rows|
    requires if Qualifies(run, rows, macro, j) && (run.emitPool || until <= rows[j].ts + 300_000)
             then |packet| == 1 && PacketOf(run, rows, j, packet[0]) else packet == []
    ensures StepOf(run, rows, macro, j, until, packet)
  {
    hide Qualifies, PacketOf;
  }

  lemma ContinuesWith(here: Result<seq<Trade>, Failure>, trade: Trade, rest: Result<seq<Trade>, Failure>)
    requires here == Prepend(trade, rest) && here.Ok?
    ensures Continues(here, [trade], rest)
  {
  }

  lemma ContinuesAs(here: Result<seq<Trade>, Failure>)
    requires here.Ok?
    ensures Continues(here, [], here)
  {
    assert [] + here.value == here.value;
  }

  ghost predicate Continues(here: Result<seq<Trade>, Failure>, packet: seq<Trade>, rest: Result<seq<Trade>, Failure>) {
    here.Ok? && rest.Ok? && here.value == packet + rest.value
  }

  lemma QualifiedEnters(run: Run, rows: seq<Candle>, macro: Option<seq<seq<Candle>>>, i: nat)
    requires i < |rows| && Qualifies(run, rows, macro, i)
    ensures Enters(run.study, rows, macro, i)
  {
    hide Enters, ScoreBy;
  }

  lemma BarDecision(run: Run, rows: seq<Candle>, macro: Option<seq<seq<Candle>>>, j: nat, until: int)
    requires Settings(run, rows, macro) && j < |rows| - HorizonBars(run)
    ensures var decision := Decide(run.study, rows, macro, j);
            Skipped(run, CloseTime(rows[j]), until) || decision.None? || !MeetsThreshold(run, decision.value) <==>
            !(Qualifies(run, rows, macro, j) && (run.emitPool || until <= rows[j].ts + 300_000))
    ensures Decide(run.study, rows, macro, j).Some? <==> Enters(run.study, rows, macro, j)
  {
    DecidesExactly(run.study, rows, macro, j);
    hide Decide, Contiguous, Tradable, ContiguousMarkets, ScoreBy, Round, QuoteTotal, StrengthOf, ChecksBy, Liquid, MarketsFall,
      StrategyHolds, FilterHolds;
    EntersHasChecks(run.study, rows, macro, j);
    hide Enters;
  }

  lemma EntersHasChecks(study: Study, rows: seq<Candle>, macro: Option<seq<seq<Candle>>>, i: nat)
    requires i < |rows|
    ensures Enters(study, rows, macro, i) ==> ChecksBy(study.indicators, rows, i).Some?
    ensures Enters(study, rows, macro, i) && study.derivativesFilter == ScoreV2 ==> ScoreBy(study, rows, i).Some?
  {
    hide ChecksBy, Liquid, MarketsFall, StrategyHolds, ScoreOf;
  }

  /** From any bar and pending cooldown: what is emitted are packets of qualifying bars, and which ones is decided by the cooldown. */
  lemma {:induction false} EmitsFromBar(run: Run, rows: seq<Candle>, macro: Option<seq<seq<Candle>>>, j: nat, until: int)
    requires Settings(run, rows, macro) && SignalsFrom(run, rows, macro, j, until).Ok?
    ensures EmitsFrom(run, rows, macro, j, until, SignalsFrom(run, rows, macro, j, until).value)
    decreases |rows| - j
  {
    hide SignalsFrom, EmitsFrom, Qualifies, PacketOf;
    var trades := SignalsFrom(run, rows, macro, j, until).value;
    if j >= |rows| - HorizonBars(run) {
      LoopEnd(run, rows, macro, j, until);
      NothingQualifies(run, rows, macro, j, until);
    } else {
      var packet, after, next := BarStep(run, rows, macro, j, until);
      var rest := SignalsFrom(run, rows, macro, after, next).value;
      EmitsFromBar(run, rows, macro, after, next);
      if packet == [] {
        assert packet + rest == rest;
        EmitNone(run, rows, macro, j, until, rest);
      } else {
        assert (packet + rest)[1..] == rest && (packet + rest)[0] == packet[0];
        EmitOne(run, rows, macro, j, until, next, packet + rest);
      }
    }
  }

  lemma NothingQualifies(run: Run, rows: seq<Candle>, macro: Option<seq<seq<Candle>>>, j: nat, until: int)
    requires j >= |rows| - HorizonBars(run)
    ensures EmitsFrom(run, rows, macro, j, until, [])
  {
    hide Enters, ScoreBy;
    forall i: nat | i < |rows| && OnGrid(j, run.triggerInterval, i) ensures !Qualifies(run, rows, macro, i) {
      var k: nat :| GridBar(j, run.triggerInterval, k) == i;
      assert i >= j;
    }
  }

  lemma LaterOnGrid(run: Run, rows: seq<Candle>, j: nat, i: nat)
    requires Contiguous(rows) && run.triggerInterval > 0 && j < |rows| && i < |rows| && OnGrid(j + run.triggerInterval, run.triggerInterval, i)
    ensures OnGrid(j, run.triggerInterval, i) && rows[j].ts < rows[i].ts
  {
    GridSteps(j, run.triggerInterval, i);
  }

  lemma EmitNone(run: Run, rows: seq<Candle>, macro: Option<seq<seq<Candle>>>, j: nat, until: int, trades: seq<Trade>)
    requires Contiguous(rows) && run.triggerInterval > 0 && j < |rows|
    requires EmitsFrom(run, rows, macro, j + run.triggerInterval, until, trades)
    requires !(Qualifies(run, rows, macro, j) && (run.emitPool || until <= rows[j].ts + 300_000))
    ensures EmitsFrom(run, rows, macro, j, until, trades)
  {
    hide Qualifies, PacketOf, OnGrid, Contiguous;
    forall t | t in trades
      ensures exists i: nat :: i < |rows| && OnGrid(j, run.triggerInterval, i) && BarOf(run, rows, macro, i, t)
                               && (run.emitPool || until <= t.timestamp)
    {
      var i: nat :| i < |rows| && OnGrid(j + run.triggerInterval, run.triggerInterval, i) && BarOf(run, rows, macro, i, t)
                    && (run.emitPool || until <= t.timestamp);
      LaterOnGrid(run, rows, j, i);
    }
    forall i: nat | i < |rows| && OnGrid(j, run.triggerInterval, i) && Qualifies(run, rows, macro, i)
      ensures EmittedAt(trades, rows[i].ts + 300_000) <==>
              run.emitPool || (until <= rows[i].ts + 300_000 && CooledDown(run, trades, rows[i].ts + 300_000))
    {
      GridSteps(j, run.triggerInterval, i);
      if i == j {
        forall t | t in trades ensures t.timestamp > rows[j].ts + 300_000 {
          LaterTrade(run, rows, macro, j, until, trades, t);
        }
      }
    }
  }

  lemma LaterTrade(run: Run, rows: seq<Candle>, macro: Option<seq<seq<Candle>>>, j: nat, until: int, trades: seq<Trade>, t: Trade)
    requires Contiguous(rows) && run.triggerInterval > 0 && j < |rows| && t in trades
    requires EmitsFrom(run, rows, macro, j + run.triggerInterval, until, trades)
    ensures t.timestamp > rows[j].ts + 300_000
  {
    hide Qualifies, OnGrid, Contiguous;
    var i: nat :| i < |rows| && OnGrid(j + run.triggerInterval, run.triggerInterval, i) && BarOf(run, rows, macro, i, t)
                  && (run.emitPool || until <= t.timestamp);
    LaterOnGrid(run, rows, j, i);
    BarTime(run, rows, macro, i, t);
  }

  lemma BarTime(run: Run, rows: seq<Candle>, macro: Option<seq<seq<Candle>>>, i: nat, t: Trade)
    requires i < |rows| && BarOf(run, rows, macro, i, t)
    ensures t.timestamp == rows[i].ts + 300_000
  {
    hide Qualifies;
  }

  lemma EmitOne(
    run: Run, rows: seq<Candle>, macro: Option<seq<seq<Candle>>>, j: nat, until: int, next: int, trades: seq<Trade>)
    requires Contiguous(rows) && run.triggerInterval > 0 && j < |rows| && trades != [] && run.cooldownHours >= 0
    requires EmitsFrom(run, rows, macro, j + run.triggerInterval, next, trades[1..])
    requires Qualifies(run, rows, macro, j) && PacketOf(run, rows, j, trades[0]) && (run.emitPool || until <= rows[j].ts + 300_000)
    requires next == if run.emitPool then until else rows[j].ts + 300_000 + run.cooldownHours * 3_600_000
    ensures EmitsFrom(run, rows, macro, j, until, trades)
  {
    hide Qualifies, PacketOf, OnGrid, Contiguous, BarOf, EmittedAt, CooledDown;
    forall t | t in trades
      ensures exists i: nat :: i < |rows| && OnGrid(j, run.triggerInterval, i) && BarOf(run, rows, macro, i, t)
                               && (run.emitPool || until <= t.timestamp)
    {
      EmittedIsBar(run, rows, macro, j, until, next, trades, t);
    }
    forall i: nat | i < |rows| && OnGrid(j, run.triggerInterval, i) && Qualifies(run, rows, macro, i)
      ensures EmittedAt(trades, rows[i].ts + 300_000) <==>
              run.emitPool || (until <= rows[i].ts + 300_000 && CooledDown(run, trades, rows[i].ts + 300_000))
    {
      BarIsDecided(run, rows, macro, j, until, next, trades, i);
    }
  }

  lemma EmittedIsBar(
    run: Run, rows: seq<Candle>, macro: Option<seq<seq<Candle>>>, j: nat, until: int, next: int, trades: seq<Trade>, t: Trade)
    requires Contiguous(rows) && run.triggerInterval > 0 && j < |rows| && t in trades && run.cooldownHours >= 0
    requires EmitsFrom(run, rows, macro, j + run.triggerInterval, next, trades[1..])
    requires Qualifies(run, rows, macro, j) && PacketOf(run, rows, j, trades[0]) && (run.emitPool || until <= rows[j].ts + 300_000)
    requires next == if run.emitPool then until else rows[j].ts + 300_000 + run.cooldownHours * 3_600_000
    ensures exists i: nat :: i < |rows| && OnGrid(j, run.triggerInterval, i) && BarOf(run, rows, macro, i, t)
                             && (run.emitPool || until <= t.timestamp)
  {
    hide Qualifies, PacketOf, OnGrid, Contiguous;
    assert trades == [trades[0]] + trades[1..];
    if t in trades[1..] {
      var i: nat :| i < |rows| && OnGrid(j + run.triggerInterval, run.triggerInterval, i) && BarOf(run, rows, macro, i, t)
                    && (run.emitPool || next <= t.timestamp);
      LaterOnGrid(run, rows, j, i);
    } else {
      GridSteps(j, run.triggerInterval, j);
      assert BarOf(run, rows, macro, j, t);
      BarTime(run, rows, macro, j, t);
    }
  }

  lemma BarIsDecided(
    run: Run, rows: seq<Candle>, macro: Option<seq<seq<Candle>>>, j: nat, until: int, next: int, trades: seq<Trade>, i: nat)
    requires Contiguous(rows) && run.triggerInterval > 0 && j < |rows| && trades != [] && run.cooldownHours >= 0
    requires EmitsFrom(run, rows, macro, j + run.triggerInterval, next, trades[1..])
    requires Qualifies(run, rows, macro, j) && PacketOf(run, rows, j, trades[0]) && (run.emitPool || until <= rows[j].ts + 300_000)
    requires next == if run.emitPool then until else rows[j].ts + 300_000 + run.cooldownHours * 3_600_000
    requires i < |rows| && OnGrid(j, run.triggerInterval, i) && Qualifies(run, rows, macro, i)
    ensures EmittedAt(trades, rows[i].ts + 300_000) <==>
            run.emitPool || (until <= rows[i].ts + 300_000 && CooledDown(run, trades, rows[i].ts + 300_000))
  {
    hide Qualifies, PacketOf, OnGrid, Contiguous, BarOf;
    var x := rows[j].ts + 300_000;
    assert trades[0].timestamp == x by { PacketTime(run, rows, j, trades[0]); }
    GridSteps(j, run.triggerInterval, i);
    if i == j {
      NothingBefore(run, rows, macro, j, next, trades);
    } else {
      LaterOnGrid(run, rows, j, i);
      CoolingAfter(run, trades, rows[i].ts + 300_000);
    }
  }

  lemma PacketTime(run: Run, rows: seq<Candle>, i: nat, t: Trade)
    requires i < |rows| && PacketOf(run, rows, i, t)
    ensures t.timestamp == rows[i].ts + 300_000
  {
    hide ChecksBy, RecordsChecks, ScoreBy, StrengthOf, QuoteTotal, Settlement.Settle, Round;
  }

  lemma NothingBefore(run: Run, rows: seq<Candle>, macro: Option<seq<seq<Candle>>>, j: nat, next: int, trades: seq<Trade>)
    requires Contiguous(rows) && run.triggerInterval > 0 && j < |rows| && trades != [] && trades[0].timestamp == rows[j].ts + 300_000
    requires EmitsFrom(run, rows, macro, j + run.triggerInterval, next, trades[1..])
    ensures EmittedAt(trades, rows[j].ts + 300_000) && CooledDown(run, trades, rows[j].ts + 300_000)
  {
    hide Contiguous, EmitsFrom;
    assert trades[0] in trades && trades == [trades[0]] + trades[1..];
    forall t | t in trades[1..] ensures t.timestamp > rows[j].ts + 300_000 {
      LaterTrade(run, rows, macro, j, next, trades[1..], t);
    }
  }

  /** After the first trade, another bar is cooled down exactly when it is past that cooldown and cooled down of the rest. */
  lemma CoolingAfter(run: Run, trades: seq<Trade>, x: int)
    requires trades != [] && trades[0].timestamp < x
    ensures CooledDown(run, trades, x) <==>
            trades[0].timestamp + run.cooldownHours * 3_600_000 <= x && CooledDown(run, trades[1..], x)
    ensures EmittedAt(trades, x) <==> EmittedAt(trades[1..], x)
  {
    assert trades == [trades[0]] + trades[1..];
    assert trades[0] in trades;
  }

  /** The first bar with enough four-hour history: a hundred bars for the hype strategies, else twenty. */
  ghost function FirstBar(run: Run): int { if run.study.strategy in {PostHypeV1, ChannelV1} then 4799 else 959 }

  /**
   What a backtest emits. Every trade is the packet of a qualifying bar of the loop. A qualifying bar is emitted, in a
   pool run, always, and otherwise exactly when every earlier emitted trade is out of its cooldown by its close.
   */
  lemma EmitsExactly(run: Run, rows: seq<Candle>, macro: Option<seq<seq<Candle>>>)
    requires Contiguous(rows) && Tradable(rows) && ContiguousMarkets(macro) && run.stopPct > 0.0 && run.targetPct >= -run.stopPct
    requires Evaluated(run, rows, macro).Ok?
    ensures var trades := Evaluated(run, rows, macro).value;
            && (forall t :: t in trades ==>
                  exists i: nat :: i < |rows| && OnGrid(FirstBar(run), run.triggerInterval, i) && BarOf(run, rows, macro, i, t))
            && forall i: nat :: i < |rows| && OnGrid(FirstBar(run), run.triggerInterval, i) && Qualifies(run, rows, macro, i) ==>
                 (EmittedAt(trades, rows[i].ts + 300_000) <==>
                  run.emitPool || CooledDown(run, trades, rows[i].ts + 300_000))
  {
    hide SignalsFrom, Contiguous, ContiguousMarkets, Qualifies, BarOf, OnGrid, CooledDown, EmittedAt;
    EmitsFromBar(run, rows, macro, FirstIndex(run), 0);
    assert forall i: nat :: i < |rows| ==> rows[i] in rows;
  }

  // ----- refusals -----

  /** The position of bar i settles and its costs are refused. */
  ghost predicate CostsRefused(run: Run, rows: seq<Candle>, i: nat, e: Failure)
    requires i < |rows|
  {
    && i + 1 < |rows| && rows[i + 1].open != 0.0 && run.stopPct > 0.0
    && var settled := Settlement.Settle(rows, i + 1, run.stopPct, run.targetPct, run.holdHours * 12);
    settled.Ok? && CostsOf(run, rows[i].ts + 300_000, rows[i + 1].open, settled.value, Round(settled.value.r, 1000000.0)) == Err(e)
  }

  ghost predicate FailsAt(run: Run, rows: seq<Candle>, macro: Option<seq<seq<Candle>>>, i: nat, e: Failure)
    requires i < |rows|
  {
    Qualifies(run, rows, macro, i) && CostsRefused(run, rows, i, e)
  }

  lemma BuildFails(run: Run, rows: seq<Candle>, i: nat, d: Decision)
    requires i + 1 < |rows| && rows[i + 1].open != 0.0 && run.stopPct > 0.0 && run.holdHours >= 1 && d.closeTime == rows[i].ts + 300_000
    requires Build(run, rows, i, d).Err?
    ensures CostsRefused(run, rows, i, Build(run, rows, i, d).error)
  {
    hide CostsOf, SignalEvidence, FactsOf, Round, Settlement.SettleHeld, Settlement.Held;
  }

  lemma DecisionTime(run: Run, rows: seq<Candle>, macro: Option<seq<seq<Candle>>>, i: nat)
    requires i < |rows| && Decide(run.study, rows, macro, i).Some?
    ensures Decide(run.study, rows, macro, i).value.closeTime == rows[i].ts + 300_000
  {
    hide ChecksAt, ChannelPrecheck, StagesPass, MacroConfirmed, QuoteVolume, BelowVwap, DerivativesGate, Score, Round;
  }

  /** From any bar: the loop fails only over the costs of a bar it would emit. */
  lemma {:induction false} FailsFromBar(run: Run, rows: seq<Candle>, macro: Option<seq<seq<Candle>>>, j: nat, until: int) returns (i: nat)
    requires Settings(run, rows, macro) && SignalsFrom(run, rows, macro, j, until).Err?
    ensures i < |rows| && OnGrid(j, run.triggerInterval, i) && FailsAt(run, rows, macro, i, SignalsFrom(run, rows, macro, j, until).error)
    decreases |rows| - j
  {
    hide *;
    SettingsHold(run, rows, macro);
    if j >= |rows| - HorizonBars(run) {
      LoopEnd(run, rows, macro, j, until);
      assert false;
    } else {
      BarInside(run, rows, j);
      LoopStep(run, rows, macro, j, until);
      BarDecision(run, rows, macro, j, until);
      var after := j + run.triggerInterval;
      if Qualifies(run, rows, macro, j) && (run.emitPool || until <= rows[j].ts + 300_000) {
        QualifiedEnters(run, rows, macro, j);
        DecisionTime(run, rows, macro, j);
        var built := Build(run, rows, j, Decide(run.study, rows, macro, j).value);
        if built.Err? {
          BuildFails(run, rows, j, Decide(run.study, rows, macro, j).value);
          i := j;
          GridSteps(j, run.triggerInterval, j);
          FailsHere(run, rows, macro, j, built.error);
        } else {
          var next := if run.emitPool then until else rows[j].ts + 300_000 + run.cooldownHours * 3_600_000;
          PrependFails(built.value, SignalsFrom(run, rows, macro, after, next));
          i := FailsFromBar(run, rows, macro, after, next);
          GridSteps(j, run.triggerInterval, i);
        }
      } else {
        i := FailsFromBar(run, rows, macro, after, until);
        GridSteps(j, run.triggerInterval, i);
      }
    }
  }

  lemma FailsHere(run: Run, rows: seq<Candle>, macro: Option<seq<seq<Candle>>>, i: nat, e: Failure)
    requires i < |rows| && Qualifies(run, rows, macro, i) && CostsRefused(run, rows, i, e)
    ensures FailsAt(run, rows, macro, i, e)
  {
    hide Qualifies, CostsRefused;
  }

  lemma PrependFails(trade: Trade, rest: Result<seq<Trade>, Failure>)
    ensures Prepend(trade, rest).Err? <==> rest.Err?
    ensures rest.Err? ==> Prepend(trade, rest) == rest
  {
  }

  ghost predicate ValidArguments(run: Run) {
    run.triggerInterval in {1, 3, 12, 48} && run.cooldownHours >= 1 && run.holdHours >= 1 && 0.0 <= run.threshold <= 75.0
  }

  /**
   A backtest refuses, in this order, intervals that close no candle, cooldowns and holds under an hour, and thresholds
   outside the available maximum of 75; otherwise it fails only over the costs of a qualifying bar.
   */
  lemma RefusesExactly(run: Run, rows: seq<Candle>, macro: Option<seq<seq<Candle>>>)
    requires Contiguous(rows) && Tradable(rows) && ContiguousMarkets(macro) && run.stopPct > 0.0 && run.targetPct >= -run.stopPct
    ensures var result := Evaluated(run, rows, macro);
            if run.triggerInterval !in {1, 3, 12, 48} then result == Err(BadTriggerInterval)
            else if run.cooldownHours < 1 then result == Err(BadCooldown)
            else if run.holdHours < 1 then result == Err(BadHold)
            else if run.threshold < 0.0 || run.threshold > 75.0 then result == Err(BadThreshold)
            else result.Err? ==>
              exists i: nat :: i < |rows| && OnGrid(FirstBar(run), run.triggerInterval, i) && FailsAt(run, rows, macro, i, result.error)
  {
    hide SignalsFrom, Contiguous, Tradable, ContiguousMarkets, FailsAt, OnGrid;
    if ValidArguments(run) && Evaluated(run, rows, macro).Err? {
      var i := FailsFromBar(run, rows, macro, FirstIndex(run), 0);
    }
  }
}
