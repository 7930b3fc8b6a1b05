/**
 What the figures of both calibrations are, in terms of the trades kept of a configuration
 (scripts/calibrate_waterfall.py, scripts/calibrate_score_v2.py).
 */
module CalibrationExactness {
  import opened Common
  import opened Permutations
  import opened Trades
  import opened Metrics
  import opened MetricsExactness
  import opened Replay
  import opened WalkForward
  import opened Promotion
  import Settlement
  import Trigger = CalibrateWaterfall
  import Threshold = CalibrateScoreV2

  /** Five sixths of a window, where the holdout starts. */
  ghost function HoldoutStart(start: int, end: int): int { start + (end - start) * 5 / 6 }

  ghost function After(trades: seq<Trade>, from: int): seq<Trade> { Filter(trades, (t: Trade) => t.timestamp >= from) }

  ghost function Inside(trades: seq<Trade>, low: int, high: int): seq<Trade> {
    Filter(trades, (t: Trade) => low <= t.timestamp < high)
  }

  ghost function Until(trades: seq<Trade>, high: int): seq<Trade> { Filter(trades, (t: Trade) => t.timestamp < high) }

  /** The net performance of exactly these trades, at one percent risk. */
  ghost function NetOf(trades: seq<Trade>): Performance { PerformanceOf(trades, NetR, 0.01) }

  lemma NothingIsUnavailable()
    ensures NetOf([]).Unavailable? && NoTrades in NetOf([]).reasons
  {
    assert Rows([], NetR) == [];
  }

  lemma AfterIsFrom(trades: seq<Trade>, from: int)
    ensures After(trades, from) == Filter(trades, (t: Trade) => From(t, from))
  {
    FilterSame(trades, (t: Trade) => t.timestamp >= from, (t: Trade) => From(t, from));
  }

  lemma UntilIsVisible(trades: seq<Trade>, high: int)
    ensures Until(trades, high) == Visible(trades, high)
  {
    FilterSame(trades, (t: Trade) => t.timestamp < high, (t: Trade) => Before(t, high));
  }

  // ----- trigger calibration -----

  /** What the calibration keeps of the pool for a name. */
  ghost function Kept(report: Trigger.Report, configurations: seq<Trigger.Configuration>, name: string): seq<Trade> {
    TradesOf(Trigger.ByConfiguration(report.trades, CooldownMs(report.cooldownHours), configurations), name)
  }

  /**
   The holdout figure is the net performance of the selected configuration's kept trades from five sixths of the window
   on: without one it is unavailable, and otherwise it counts each of them.
   */
  lemma HoldoutMeans(report: Trigger.Report, configurations: seq<Trigger.Configuration>, minimumValidation: int, minimumFold: int)
    requires Trigger.Calibrated(report, configurations, minimumValidation, minimumFold).Ok?
    ensures var c := Trigger.Calibrated(report, configurations, minimumValidation, minimumFold).value;
            && (c.holdout.Some? <==> c.selectedName.Some?)
            && (c.selectedName.Some? ==>
                  var late := After(Kept(report, configurations, c.selectedName.value), HoldoutStart(report.start, report.end));
                  && c.holdout.value == NetOf(late)
                  && (late == [] ==> c.holdout.value.Unavailable? && NoTrades in c.holdout.value.reasons)
                  && (c.holdout.value.Available? ==> c.holdout.value.sampleSize == |late| > 0))
  {
    hide Trigger.InnerOf, WalkForwardOf, Trigger.ByConfiguration, Trigger.Reports, After, PerformanceOf;
    var c := Trigger.Calibrated(report, configurations, minimumValidation, minimumFold).value;
    if c.selectedName.Some? {
      var kept, from := Kept(report, configurations, c.selectedName.value), HoldoutStart(report.start, report.end);
      AfterIsFrom(kept, from);
      NothingIsUnavailable();
      if c.holdout.value.Available? { PerformanceMeans(After(kept, from), NetR, 0.01); }
    }
  }

  /** Nothing before the holdout reaches its figure: kept trades that agree from there on give the same one. */
  lemma HoldoutReadsOnlyLateTrades(
    a: Trigger.Report, b: Trigger.Report, configurations: seq<Trigger.Configuration>, minimumValidation: int, minimumFold: int)
    requires Trigger.Calibrated(a, configurations, minimumValidation, minimumFold).Ok?
    requires Trigger.Calibrated(b, configurations, minimumValidation, minimumFold).Ok?
    requires var x := Trigger.Calibrated(a, configurations, minimumValidation, minimumFold).value;
             var y := Trigger.Calibrated(b, configurations, minimumValidation, minimumFold).value;
             && x.selectedName == y.selectedName
             && (x.selectedName.Some? ==>
                   After(Kept(a, configurations, x.selectedName.value), HoldoutStart(a.start, a.end)) ==
                   After(Kept(b, configurations, x.selectedName.value), HoldoutStart(b.start, b.end)))
    ensures Trigger.Calibrated(a, configurations, minimumValidation, minimumFold).value.holdout ==
            Trigger.Calibrated(b, configurations, minimumValidation, minimumFold).value.holdout
  {
    hide Trigger.Calibrated, Kept, After, NetOf;
    HoldoutMeans(a, configurations, minimumValidation, minimumFold);
    HoldoutMeans(b, configurations, minimumValidation, minimumFold);
  }

  lemma {:induction false} ReportFigures(
    byName: map<string, seq<Trade>>, configurations: seq<Trigger.Configuration>, end: int, walkForward: Assessment, name: string)
    requires name in Trigger.Reports(byName, configurations, end, walkForward)
    ensures var r := Trigger.Reports(byName, configurations, end, walkForward)[name];
            r.fullSampleSize == |TradesOf(byName, name)| && r.development == NetPerformance(Visible(TradesOf(byName, name), end))
    ensures exists c :: c in configurations && c.name == name
  {
    hide NetPerformance, Visible;
    var n := |configurations| - 1;
    if name != configurations[n].name {
      ReportFigures(byName, configurations[..n], end, walkForward, name);
      var c :| c in configurations[..n] && c.name == name;
      assert c in configurations;
    } else {
      assert configurations[n] in configurations;
    }
  }

  /** Every configuration is reported with the number of its kept trades and their performance before the holdout. */
  lemma FiguresMean(
    report: Trigger.Report, configurations: seq<Trigger.Configuration>, minimumValidation: int, minimumFold: int, name: string)
    requires Trigger.Calibrated(report, configurations, minimumValidation, minimumFold).Ok?
    ensures var all, kept := Trigger.Calibrated(report, configurations, minimumValidation, minimumFold).value.all, Kept(report, configurations, name);
            && (name in all <==> exists c :: c in configurations && c.name == name)
            && (name in all ==>
                  && all[name].fullSampleSize == |kept|
                  && all[name].development == NetOf(Until(kept, HoldoutStart(report.start, report.end))))
  {
    hide Trigger.InnerOf, WalkForwardOf, Trigger.ByConfiguration, Trigger.Reports, Until, Visible, PerformanceOf;
    var end := HoldoutStart(report.start, report.end);
    var byName := Trigger.ByConfiguration(report.trades, CooldownMs(report.cooldownHours), configurations);
    var c := Trigger.Calibrated(report, configurations, minimumValidation, minimumFold).value;
    if name in c.all {
      ReportFigures(byName, configurations, end, c.walkForward, name);
      UntilIsVisible(Kept(report, configurations, name), end);
    }
  }

  // ----- inner validation -----

  /** Enough trades, a positive expectancy and a defined profit factor. */
  ghost predicate Profitable(p: Performance, minimum: int) {
    p.Available? && p.sampleSize >= minimum && p.expectancyR > 0.0 && p.profitFactor.Some?
  }

  /** The net performance of a name's kept trades in the validation part of development, a horizon short of its end. */
  ghost function ValidationOf(report: Trigger.Report, configurations: seq<Trigger.Configuration>, name: string): Performance
    requires report.holdHours.Some?
  {
    var end := HoldoutStart(report.start, report.end);
    NetOf(Inside(Kept(report, configurations, name), report.start + (end - report.start) / 2,
                 HoldoutStart(report.start, end) - report.holdHours.value * 3_600_000))
  }

  lemma ValidationMeans(trades: seq<Trade>, start: int, end: int, horizon: int)
    requires start < end && horizon >= 0
    ensures NetPerformance(SplitsOf(trades, start, end, horizon).validation) ==
            NetOf(Inside(trades, start + (end - start) / 2, HoldoutStart(start, end) - horizon))
  {
    hide SplitsOf, PerformanceOf;
    SplitsExactly(trades, start, end, horizon);
    var half, late := start + (end - start) / 2, HoldoutStart(start, end);
    FilterSame(trades, (t: Trade) => half <= t.timestamp < late - horizon, (t: Trade) => half <= t.timestamp < late - horizon);
    PerformancePermuted(SplitsOf(trades, start, end, horizon).validation, Inside(trades, half, late - horizon), NetR, 0.01);
  }

  /** A configuration is kept by inner validation exactly when its validation figures are profitable. */
  lemma JudgeMeans(validation: seq<Trade>, c: Trigger.Configuration, minimum: int)
    ensures Trigger.Judge(validation, c, minimum).Kept? <==> Profitable(NetPerformance(validation), minimum)
    ensures Profitable(NetPerformance(validation), minimum) ==>
              Trigger.Judge(validation, c, minimum).entry.performance == NetPerformance(validation)
              && Trigger.Judge(validation, c, minimum).entry.ranked.name == c.name
  {
    hide PerformanceOf, SelectionKey;
  }

  /**
   Inner validation names a configuration exactly when some configuration's validation figures are profitable, and then
   reports those of the configuration it names.
   */
  lemma InnerMeans(report: Trigger.Report, configurations: seq<Trigger.Configuration>, minimumValidation: int, minimumFold: int)
    requires Trigger.Calibrated(report, configurations, minimumValidation, minimumFold).Ok? && report.holdHours.Some?
    ensures var inner := Trigger.Calibrated(report, configurations, minimumValidation, minimumFold).value.inner;
            && (inner.selectedName.Some? <==>
                  exists c :: c in configurations && Profitable(ValidationOf(report, configurations, c.name), minimumValidation))
            && (inner.selectedName.Some? ==>
                  && inner.performance == Some(ValidationOf(report, configurations, inner.selectedName.value))
                  && Profitable(inner.performance.value, minimumValidation))
  {
    hide WalkForwardOf, Trigger.ByConfiguration, Trigger.Reports, PerformanceOf, SplitsOf, Trigger.Judge, Inside, Profitable,
      Trigger.Rejections, Trigger.Entries;
    var start, end, horizon := report.start, HoldoutStart(report.start, report.end), report.holdHours.value * 3_600_000;
    var byName := Trigger.ByConfiguration(report.trades, CooldownMs(report.cooldownHours), configurations);
    forall c: Trigger.Configuration | start < end && horizon >= 0
      ensures var v := ValidationOf(report, configurations, c.name);
              && (Trigger.JudgeNamed(byName, c, start, end, horizon, minimumValidation).Kept? <==> Profitable(v, minimumValidation))
              && (Profitable(v, minimumValidation) ==>
                    var e := Trigger.JudgeNamed(byName, c, start, end, horizon, minimumValidation).entry;
                    e.performance == v && e.ranked.name == c.name)
    {
      ValidationMeans(TradesOf(byName, c.name), start, end, horizon);
      JudgeMeans(SplitsOf(TradesOf(byName, c.name), start, end, horizon).validation, c, minimumValidation);
    }
    if configurations != [] {
      InnerEntries(byName, configurations, start, end, horizon, minimumValidation);
    }
  }

  lemma InnerEntries(
    byName: map<string, seq<Trade>>, configurations: seq<Trigger.Configuration>, start: int, end: int, horizon: int, minimum: int)
    requires start < end && horizon >= 0
    ensures var inner := Trigger.InnerFrom(
              Trigger.Entries(byName, configurations, start, end, horizon, minimum),
              Trigger.Rejections(byName, configurations, start, end, horizon, minimum));
            && (inner.selectedName.Some? <==>
                  exists c :: c in configurations && Trigger.JudgeNamed(byName, c, start, end, horizon, minimum).Kept?)
            && (inner.selectedName.Some? ==>
                  exists c :: c in configurations && Trigger.JudgeNamed(byName, c, start, end, horizon, minimum).Kept?
                    && Trigger.JudgeNamed(byName, c, start, end, horizon, minimum).entry.ranked.name == inner.selectedName.value
                    && Some(Trigger.JudgeNamed(byName, c, start, end, horizon, minimum).entry.performance) == inner.performance)
  {
    hide Trigger.JudgeNamed, Trigger.Entries, Trigger.Rejections, SortBy;
    var entries := Trigger.Entries(byName, configurations, start, end, horizon, minimum);
    forall e ensures e in entries <==>
              exists c :: c in configurations && Trigger.JudgeNamed(byName, c, start, end, horizon, minimum) == Trigger.Kept(e) {
      Trigger.EntriesAreKept(byName, configurations, start, end, horizon, minimum, e);
    }
    forall c | c in configurations && Trigger.JudgeNamed(byName, c, start, end, horizon, minimum).Kept?
      ensures Trigger.JudgeNamed(byName, c, start, end, horizon, minimum).entry in entries
    {
    }
    if entries != [] {
      assert entries[0] in entries;
      OrderByRank(Trigger.EntryLe, (e: Trigger.Entry) => e.ranked);
      SortBySpec(entries, Trigger.EntryLe);
      assert SortBy(entries, Trigger.EntryLe)[0] in entries;
    }
  }

  // ----- summaries -----

  ghost function Won(trades: seq<Trade>): nat { |Filter(trades, (t: Trade) => t.verdict == Some(Settlement.Win))| }

  ghost function Lost(trades: seq<Trade>): nat { |Filter(trades, (t: Trade) => t.verdict == Some(Settlement.Loss))| }

  ghost function TimedOut(trades: seq<Trade>): nat { |Filter(trades, (t: Trade) => t.verdict == Some(Settlement.Timeout))| }

  /** The realized returns of the trades that have one. */
  ghost function Realized(trades: seq<Trade>): seq<real> {
    Mapped(Filter(trades, (t: Trade) => t.realizedR.Some?), (t: Trade) => t.realizedR.GetOr(0.0))
  }

  /** To four digits, and absent when there is nothing to divide by. */
  ghost predicate Shows(shown: Option<real>, total: real, count: nat) {
    && (shown.Some? <==> count > 0)
    && (shown.Some? ==> Abs(shown.value - total / count as real) <= 0.00005)
  }

  /** What a summary says of exactly these trades, in any order. */
  ghost predicate SummaryOf(s: Summary, trades: seq<Trade>, rewardR: real) {
    var won, lost := Won(trades), Lost(trades);
    && s.signals == |trades| && s.wins == won && s.settled == won + lost && s.timeouts == TimedOut(trades)
    && Shows(s.winRate, won as real, won + lost)
    && Shows(s.settledExpectancy, won as real * rewardR - lost as real, won + lost)
    && Shows(s.realizedExpectancy, Sum(Realized(trades)), |Realized(trades)|)
    && s.gross == PerformanceOf(trades, GrossR, 0.01) && s.net == NetOf(trades)
    && s.slippageAdjusted == PerformanceOf(trades, SlippageAdjustedR, 0.01)
  }

  lemma RatioShows(total: real, count: nat)
    ensures Shows(Ratio(total, count), total, count)
  {
    if count > 0 { RoundError(total / count as real, 10000.0); }
  }

  lemma {:induction false} SettledIsWonOrLost(trades: seq<Trade>)
    ensures |Filter(trades, IsSettled)| == Won(trades) + Lost(trades)
  {
    if trades != [] {
      SettledIsWonOrLost(trades[..|trades| - 1]);
    }
  }

  lemma SameLength<T>(p: seq<T>, q: seq<T>)
    requires multiset(p) == multiset(q)
    ensures |p| == |q|
  {
    assert |multiset(p)| == |p| && |multiset(q)| == |q|;
  }

  lemma SameCount(given: seq<Trade>, trades: seq<Trade>, p: Trade -> bool, q: Trade -> bool)
    requires multiset(given) == multiset(trades) && forall t :: p(t) == q(t)
    ensures |Filter(given, p)| == |Filter(trades, q)|
  {
    hide Filter;
    FilterSame(given, p, q);
    FilterPermuted(given, trades, q);
    SameLength(Filter(given, q), Filter(trades, q));
  }

  lemma SameRealized(given: seq<Trade>, trades: seq<Trade>)
    requires multiset(given) == multiset(trades)
    ensures |RealizedReturns(given)| == |Realized(trades)| && Sum(RealizedReturns(given)) == Sum(Realized(trades))
  {
    hide Filter, Mapped, Sum;
    FilterSame(given, HasReturn, (t: Trade) => t.realizedR.Some?);
    FilterPermuted(given, trades, (t: Trade) => t.realizedR.Some?);
    var p, q := Filter(given, HasReturn), Filter(trades, (t: Trade) => t.realizedR.Some?);
    MappedPermuted(p, q, (t: Trade) => t.realizedR.GetOr(0.0));
    SumPermuted(RealizedReturns(given), Realized(trades));
    SameLength(p, q);
  }

  lemma SummarizeMeans(given: seq<Trade>, trades: seq<Trade>, rewardR: real)
    requires multiset(given) == multiset(trades)
    ensures SummaryOf(Summarize(given, rewardR), trades, rewardR)
  {
    hide Filter, PerformanceOf, Ratio, Shows, Won, Lost, TimedOut, Realized, RealizedReturns, Sum;
    SameLength(given, trades);
    SameVerdicts(given, trades);
    SameRealized(given, trades);
    PerformancePermuted(given, trades, GrossR, 0.01);
    PerformancePermuted(given, trades, NetR, 0.01);
    PerformancePermuted(given, trades, SlippageAdjustedR, 0.01);
    RatioShows(Won(trades) as real, Won(trades) + Lost(trades));
    RatioShows(SettledTotal(Won(trades), Lost(trades), rewardR), Won(trades) + Lost(trades));
    RatioShows(Sum(Realized(trades)), |Realized(trades)|);
  }

  lemma SameVerdicts(given: seq<Trade>, trades: seq<Trade>)
    requires multiset(given) == multiset(trades)
    ensures |Filter(given, IsSettled)| == Won(trades) + Lost(trades)
    ensures |Filter(given, IsWin)| == Won(trades) && |Filter(given, IsTimeout)| == TimedOut(trades)
  {
    SettledIsWonOrLost(trades);
    hide Filter;
    SameCount(given, trades, IsSettled, IsSettled);
    SameCount(given, trades, IsWin, (t: Trade) => t.verdict == Some(Settlement.Win));
    SameCount(given, trades, IsTimeout, (t: Trade) => t.verdict == Some(Settlement.Timeout));
  }

  // ----- threshold calibration -----

  /** What the calibration keeps of the pool at a name's threshold. */
  ghost function KeptAt(report: Threshold.Report, configurations: seq<Threshold.Configuration>, name: string): seq<Trade> {
    TradesOf(Threshold.ByConfiguration(report.trades, CooldownMs(report.cooldownHours), configurations), name)
  }

  /** The three summaries of a name are of its kept trades in the three parts of the window. */
  ghost predicate SummariesOf(r: Threshold.ConfigurationReport, kept: seq<Trade>, start: int, end: int, horizon: int, rewardR: real) {
    var half, late := start + (end - start) / 2, HoldoutStart(start, end);
    && SummaryOf(r.train, Until(kept, half - horizon), rewardR)
    && SummaryOf(r.validation, Inside(kept, half, late - horizon), rewardR)
    && SummaryOf(r.holdout, After(kept, late), rewardR)
  }

  lemma SplitSummaries(trades: seq<Trade>, start: int, end: int, horizon: int, rewardR: real)
    requires start < end && horizon >= 0
    ensures var s, half, late := SplitsOf(trades, start, end, horizon), start + (end - start) / 2, HoldoutStart(start, end);
            && SummaryOf(Summarize(s.train, rewardR), Until(trades, half - horizon), rewardR)
            && SummaryOf(Summarize(s.validation, rewardR), Inside(trades, half, late - horizon), rewardR)
            && SummaryOf(Summarize(s.holdout, rewardR), After(trades, late), rewardR)
  {
    hide SplitsOf, Filter, SummaryOf, Summarize;
    SplitsExactly(trades, start, end, horizon);
    var s, half, late := SplitsOf(trades, start, end, horizon), start + (end - start) / 2, HoldoutStart(start, end);
    FilterSame(trades, (t: Trade) => t.timestamp < half - horizon, (t: Trade) => t.timestamp < half - horizon);
    SummarizeMeans(s.train, Until(trades, half - horizon), rewardR);
    SummarizeMeans(s.validation, Inside(trades, half, late - horizon), rewardR);
    SummarizeMeans(s.holdout, After(trades, late), rewardR);
  }

  lemma {:induction false} ReportSummaries(
    byName: map<string, seq<Trade>>, configurations: seq<Threshold.Configuration>, report: Threshold.Report, horizon: int, name: string)
    requires report.start < report.end && horizon >= 0 && name in Threshold.Reports(byName, configurations, report, horizon)
    ensures SummariesOf(Threshold.Reports(byName, configurations, report, horizon)[name], TradesOf(byName, name),
                        report.start, report.end, horizon, report.rewardR)
  {
    hide SplitsOf, Summarize, SummaryOf, Until, Inside, After;
    var n := |configurations| - 1;
    if name != configurations[n].name {
      ReportSummaries(byName, configurations[..n], report, horizon, name);
    } else {
      SplitSummaries(TradesOf(byName, name), report.start, report.end, horizon, report.rewardR);
    }
  }

  lemma {:induction false} EveryNameIsSplit(byName: map<string, seq<Trade>>, configurations: seq<Threshold.Configuration>, c: Threshold.Configuration)
    requires Threshold.FirstWithoutSplit(byName, configurations).None? && c in configurations
    ensures c.name in byName
  {
    var n := |configurations| - 1;
    if c in configurations[..n] {
      EveryNameIsSplit(byName, configurations[..n], c);
    }
  }

  /**
   Every configuration's training, validation and holdout summaries are those of its kept trades in the three parts of
   the window, and a selection reports its own trades from five sixths of the window on: without one the net figure is
   unavailable, and otherwise it counts each of them.
   */
  lemma SummariesMean(report: Threshold.Report, configurations: seq<Threshold.Configuration>, limits: Threshold.Limits, name: string)
    requires Threshold.Calibrated(report, configurations, limits).Ok?
    ensures Threshold.HorizonOf(report, limits).Some?
    ensures var c, horizon := Threshold.Calibrated(report, configurations, limits).value, Threshold.HorizonOf(report, limits).value;
            var kept := KeptAt(report, configurations, name);
            && (name in c.all ==> SummariesOf(c.all[name], kept, report.start, report.end, horizon, report.rewardR))
            && (c.selected.name == Some(name) ==>
                  var late := After(kept, HoldoutStart(report.start, report.end));
                  && c.holdout.Some? && SummaryOf(c.holdout.value, late, report.rewardR)
                  && (late == [] ==> c.holdout.value.net.Unavailable? && NoTrades in c.holdout.value.net.reasons)
                  && (c.holdout.value.net.Available? ==> c.holdout.value.net.sampleSize == |late| > 0))
  {
    hide WalkForwardOf, Threshold.ByConfiguration, Threshold.Reports, Threshold.FirstWithoutSplit, Threshold.SelectedWeights,
      Threshold.TrainSplits, Threshold.ValidationSplits, Threshold.Agree, Threshold.PromotionOf, SummariesOf, Summarize, SplitsOf, After,
      Threshold.Earned, Won, Lost, TimedOut, Realized, Shows, PerformanceOf;
    var c, horizon := Threshold.Calibrated(report, configurations, limits).value, Threshold.HorizonOf(report, limits).value;
    var byName := Threshold.ByConfiguration(report.trades, CooldownMs(report.cooldownHours), configurations);
    Threshold.WalkForwardNeedsHorizon(
      byName, Threshold.Items(configurations), report.start, Threshold.DevelopmentEnd(report), horizon, limits.folds, limits.minimumFold);
    if name in c.all { ReportSummaries(byName, configurations, report, horizon, name); }
    if c.selected.name == Some(name) {
      Threshold.SelectionIsEarned(report, configurations, limits);
      var x :| x in configurations && x.name == name;
      EveryNameIsSplit(byName, configurations, x);
      SplitSummaries(TradesOf(byName, name), report.start, report.end, horizon, report.rewardR);
      NothingIsUnavailable();
      var late := After(KeptAt(report, configurations, name), HoldoutStart(report.start, report.end));
      if c.holdout.value.net.Available? { PerformanceMeans(late, NetR, 0.01); }
    }
  }

  lemma HoldoutSplitIsLate(trades: seq<Trade>, start: int, end: int, horizon: int)
    requires start < end && horizon >= 0
    ensures SplitsOf(trades, start, end, horizon).holdout == SortBy(After(trades, HoldoutStart(start, end)), TimeLe)
  {
    hide SortBy, Filter;
    var late := HoldoutStart(start, end);
    TimeSymbolOrder();
    FilterSortBy(trades, TimeLe, (t: Trade) => From(t, late));
    FilterSame(trades, (t: Trade) => From(t, late), (t: Trade) => t.timestamp >= late);
    FilterSame(SortBy(trades, TimeLe), (t: Trade) => From(t, late), (t: Trade) => From(t, ValidationBoundary(start, end)));
  }

  /** Nothing before the holdout reaches its summary. */
  lemma HoldoutSummaryReadsOnlyLateTrades(
    a: Threshold.Report, b: Threshold.Report, configurations: seq<Threshold.Configuration>, limits: Threshold.Limits, name: string)
    requires Threshold.Calibrated(a, configurations, limits).Ok? && Threshold.Calibrated(b, configurations, limits).Ok?
    requires Threshold.Calibrated(a, configurations, limits).value.selected.name == Some(name)
    requires Threshold.Calibrated(b, configurations, limits).value.selected.name == Some(name)
    requires After(KeptAt(a, configurations, name), HoldoutStart(a.start, a.end)) ==
             After(KeptAt(b, configurations, name), HoldoutStart(b.start, b.end))
    requires a.rewardR == b.rewardR
    ensures Threshold.Calibrated(a, configurations, limits).value.holdout == Threshold.Calibrated(b, configurations, limits).value.holdout
  {
    hide Threshold.Calibrated, KeptAt, After, Summarize;
    HoldoutOfLate(a, configurations, limits, name);
    HoldoutOfLate(b, configurations, limits, name);
  }

  lemma HoldoutOfLate(report: Threshold.Report, configurations: seq<Threshold.Configuration>, limits: Threshold.Limits, name: string)
    requires Threshold.Calibrated(report, configurations, limits).Ok?
    requires Threshold.Calibrated(report, configurations, limits).value.selected.name == Some(name)
    ensures Threshold.Calibrated(report, configurations, limits).value.holdout ==
            Some(Summarize(SortBy(After(KeptAt(report, configurations, name), HoldoutStart(report.start, report.end)), TimeLe), report.rewardR))
  {
    hide WalkForwardOf, Threshold.ByConfiguration, Threshold.Reports, Threshold.FirstWithoutSplit, Threshold.SelectedWeights,
      Threshold.TrainSplits, Threshold.ValidationSplits, Threshold.Agree, Threshold.PromotionOf, SummariesOf, Summarize, SplitsOf, After,
      SummaryOf, SortBy;
    SummariesMean(report, configurations, limits, name);
    var byName := Threshold.ByConfiguration(report.trades, CooldownMs(report.cooldownHours), configurations);
    HoldoutSplitIsLate(TradesOf(byName, name), report.start, report.end, Threshold.HorizonOf(report, limits).value);
  }

  // ----- the walk-forward gate -----

  ghost function FoldOf(trades: seq<Trade>, w: Window): seq<Trade> { Inside(trades, w.testStart, w.testSignalEnd) }

  /** The signals of all folds, one after another. */
  ghost function Joined(trades: seq<Trade>, windows: seq<Window>): seq<Trade> {
    if windows == [] then [] else Joined(trades, windows[..|windows| - 1]) + FoldOf(trades, windows[|windows| - 1])
  }

  ghost predicate Enough(trades: seq<Trade>, minimum: int) { NetOf(trades).Available? && NetOf(trades).sampleSize >= minimum }

  ghost predicate Earns(trades: seq<Trade>) { NetOf(trades).Available? && NetOf(trades).expectancyR > 0.0 }

  lemma FoldMeans(trades: seq<Trade>, w: Window, minimum: int)
    ensures PacketOf(trades, w, minimum).performance == NetOf(FoldOf(trades, w))
    ensures PacketOf(trades, w, minimum).sufficient <==> Enough(FoldOf(trades, w), minimum)
    ensures Between(trades, w.testStart, w.testSignalEnd) == FoldOf(trades, w)
  {
    hide PerformanceOf;
    FilterSame(trades, (t: Trade) => Within(t, w.testStart, w.testSignalEnd), (t: Trade) => w.testStart <= t.timestamp < w.testSignalEnd);
  }

  ghost predicate AllEnough(trades: seq<Trade>, windows: seq<Window>, minimum: int) {
    forall w :: w in windows ==> Enough(FoldOf(trades, w), minimum)
  }

  lemma AllEnoughInit(trades: seq<Trade>, windows: seq<Window>, minimum: int)
    requires windows != []
    ensures var n := |windows| - 1;
            AllEnough(trades, windows, minimum) <==> AllEnough(trades, windows[..n], minimum) && Enough(FoldOf(trades, windows[n]), minimum)
  {
    hide Enough, FoldOf;
    assert forall w :: w in windows <==> w in windows[..|windows| - 1] || w == windows[|windows| - 1];
  }

  lemma {:induction false} SufficientCount(trades: seq<Trade>, windows: seq<Window>, minimum: int)
    ensures Count(FoldPackets(trades, windows, minimum), IsSufficient) <= |windows|
    ensures Count(FoldPackets(trades, windows, minimum), IsSufficient) == |windows| <==> AllEnough(trades, windows, minimum)
  {
    hide PacketOf, Enough, FoldOf;
    if windows != [] {
      var n := |windows| - 1;
      SufficientCount(trades, windows[..n], minimum);
      FoldMeans(trades, windows[n], minimum);
      AllEnoughInit(trades, windows, minimum);
      hide Filter, PerformanceOf, AllEnough;
      FilterSnoc(FoldPackets(trades, windows[..n], minimum), PacketOf(trades, windows[n], minimum), IsSufficient);
    }
  }

  lemma {:induction false} PositiveCount(trades: seq<Trade>, windows: seq<Window>, minimum: int)
    requires AllEnough(trades, windows, minimum)
    ensures Count(FoldPackets(trades, windows, minimum), Positive) == |Filter(windows, (w: Window) => Earns(FoldOf(trades, w)))|
    ensures OutOfSample(trades, windows, minimum) == Joined(trades, windows)
  {
    hide PacketOf, Enough, FoldOf, PerformanceOf;
    if windows != [] {
      var n := |windows| - 1;
      AllEnoughInit(trades, windows, minimum);
      hide AllEnough;
      PositiveCount(trades, windows[..n], minimum);
      FoldMeans(trades, windows[n], minimum);
      FilterSnoc(FoldPackets(trades, windows[..n], minimum), PacketOf(trades, windows[n], minimum), Positive);
    }
  }

  /**
   A configuration passes the walk-forward gate exactly when every fold has enough trades, at least two thirds of the
   folds earn, and all folds together have a net performance with a profit factor.
   */
  lemma GateMeans(byName: map<string, seq<Trade>>, windows: seq<Window>, minimum: int, item: Item)
    ensures var trades := TradesOf(byName, item.name);
            Passes(byName, windows, |windows|, minimum, item) <==>
            && AllEnough(trades, windows, minimum)
            && 3 * |Filter(windows, (w: Window) => Earns(FoldOf(trades, w)))| >= 2 * |windows|
            && NetOf(Joined(trades, windows)).Available? && NetOf(Joined(trades, windows)).profitFactor.Some?
  {
    hide Enough, FoldOf, PerformanceOf, FoldPackets, OutOfSample, Joined, Filter, Earns;
    var trades := TradesOf(byName, item.name);
    SufficientCount(trades, windows, minimum);
    if AllEnough(trades, windows, minimum) {
      PositiveCount(trades, windows, minimum);
    }
  }

  // ----- what is kept of a pool -----

  /**
   Of a pool the trigger calibration keeps only trades whose required flags are all recorded true, and drops such a trade
   only for a negative time or behind a kept trade of its symbol that is still cooling down.
   */
  lemma KeptMeans(trades: seq<Trade>, cooldown: real, c: Trigger.Configuration, t: Trade)
    ensures var kept := Trigger.ConfigurationTrades(trades, cooldown, c);
            && (t in kept ==> t in trades && Fires(t, c))
            && (t in trades && Fires(t, c) && t !in kept ==> t.timestamp < 0 || exists k :: k in kept && Blocks(k, t, cooldown))
  {
    hide Fires, Blocks, Replay.Run, SortBy;
    var passing := Trigger.Passing(trades, c.requirements);
    FilterMembers(trades, (u: Trade) => Trigger.PassesRequirements(u, c.requirements));
    FiresMeans(t, c);
    PoolMeans(passing, cooldown, t);
  }

  ghost predicate Fires(t: Trade, c: Trigger.Configuration) {
    t.evidence.Some? && forall r :: r in c.requirements ==>
      r.timeframe in t.evidence.value && r.field in t.evidence.value[r.timeframe] && t.evidence.value[r.timeframe][r.field] == true
  }

  lemma FiresMeans(t: Trade, c: Trigger.Configuration)
    ensures Trigger.PassesRequirements(t, c.requirements) <==> Fires(t, c)
  {
  }

  lemma PoolMeans(passing: seq<Trade>, cooldown: real, t: Trade)
    ensures t in ReplayPool(passing, cooldown) ==> t in passing
    ensures t in passing && t !in ReplayPool(passing, cooldown) ==>
              t.timestamp < 0 || exists k :: k in ReplayPool(passing, cooldown) && Blocks(k, t, cooldown)
  {
    hide Replay.Run, SortBy, Blocks;
    TimeSymbolOrder();
    SortBySpec(passing, TimeSymbolLe);
    KeptAreGiven(SortBy(passing, TimeSymbolLe), cooldown);
    if t in passing && t !in ReplayPool(passing, cooldown) {
      DroppedAreBlocked(SortBy(passing, TimeSymbolLe), cooldown, t);
    }
  }

  /** The same of the threshold calibration: only trades whose available score reaches the threshold. */
  lemma KeptAtMeans(trades: seq<Trade>, cooldown: real, threshold: real, t: Trade)
    ensures var kept := Threshold.ThresholdTrades(trades, cooldown, threshold);
            var reaches := t.availableScore.Some? && t.availableScore.value >= threshold;
            && (t in kept ==> t in trades && reaches)
            && (t in trades && reaches && t !in kept ==> t.timestamp < 0 || exists k :: k in kept && Blocks(k, t, cooldown))
  {
    hide Blocks, Replay.Run, SortBy;
    FilterMembers(trades, (u: Trade) => Threshold.Reaches(u, threshold));
    PoolMeans(Threshold.Reaching(trades, threshold), cooldown, t);
  }
}
