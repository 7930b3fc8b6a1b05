/** Trigger calibration from an immutable candidate pool (scripts/calibrate_waterfall.py). */
module CalibrateWaterfall {
  import opened Common
  import opened Trades
  import opened Metrics
  import opened Replay
  import opened WalkForward

  datatype Requirement = Requirement(timeframe: string, field: string)

  datatype Configuration = Configuration(name: string, requirements: seq<Requirement>, complexity: int)

  /** The six configurations frozen before any holdout is opened. */
  const CONFIGURATIONS: seq<Configuration> := [
    Configuration("channel_v1_baseline", [], 0),
    Configuration("trigger_15m_two_bearish", [Requirement("15m", "two_bearish")], 1),
    Configuration("trigger_15m_volume", [Requirement("15m", "volume_acceleration")], 1),
    Configuration("trigger_5m_two_bearish", [Requirement("5m", "two_bearish")], 1),
    Configuration("trigger_both_two_bearish", [Requirement("15m", "two_bearish"), Requirement("5m", "two_bearish")], 2),
    Configuration("trigger_15m_two_bearish_volume",
                  [Requirement("15m", "two_bearish"), Requirement("15m", "volume_acceleration")], 2)]

  /** The parts of a backtest report the calibration reads. */
  datatype Report = Report(
    start: int,
    end: int,
    candidatePoolComplete: bool,
    promotionPermitted: Option<bool>,
    holdHours: Option<int>,
    cooldownHours: Option<real>,
    trades: seq<Trade>)

  datatype Rejection = InsufficientSample | NotPositive

  datatype Inner = Inner(selectedName: Option<string>, performance: Option<Performance>, rejected: map<string, Rejection>)

  datatype CalibrationError =
    | NotACompletePool | NoGuardrail | NoHorizon
    | BadSplit(split: SplitError) | BadWindows(windows: WindowError)

  /** What is reported of each configuration, whether or not it is selected. */
  datatype ConfigurationReport = ConfigurationReport(
    requirements: seq<Requirement>, complexity: int, fullSampleSize: nat, development: Performance, walkForward: Option<Packet>)

  datatype Calibration = Calibration(
    inner: Inner, walkForward: Assessment, agreed: bool, selectedName: Option<string>, holdout: Option<Performance>,
    all: map<string, ConfigurationReport>)

  const FOLDS: int := 3

  /** The frozen names differ, so a selected name stands for one configuration. */
  lemma FrozenNamesDiffer(i: nat, j: nat)
    requires i < j < |CONFIGURATIONS|
    ensures CONFIGURATIONS[i].name != CONFIGURATIONS[j].name
  {
    assert "trigger_15m_two_bearish"[8] != "trigger_5m_two_bearish"[8];
  }

  predicate Meets(trade: Trade, r: Requirement) {
    && trade.evidence.Some?
    && r.timeframe in trade.evidence.value
    && r.field in trade.evidence.value[r.timeframe]
    && trade.evidence.value[r.timeframe][r.field]
  }

  predicate PassesRequirements(trade: Trade, requirements: seq<Requirement>) {
    trade.evidence.Some? && forall r :: r in requirements ==> Meets(trade, r)
  }

  function Passing(trades: seq<Trade>, requirements: seq<Requirement>): seq<Trade> {
    Filter(trades, (t: Trade) => PassesRequirements(t, requirements))
  }

  function ConfigurationTrades(trades: seq<Trade>, cooldown: real, c: Configuration): seq<Trade> {
    ReplayPool(Passing(trades, c.requirements), cooldown)
  }

  function ByConfiguration(trades: seq<Trade>, cooldown: real, configurations: seq<Configuration>): (r: map<string, seq<Trade>>)
    ensures forall c :: c in configurations ==> c.name in r
  {
    if configurations == [] then map[]
    else
      var n := |configurations| - 1;
      assert forall c :: c in configurations ==> c in configurations[..n] || c == configurations[n];
      ByConfiguration(trades, cooldown, configurations[..n])
      [configurations[n].name := ConfigurationTrades(trades, cooldown, configurations[n])]
  }

  method TradesByConfiguration(report: Report, configurations: seq<Configuration>) returns (result: map<string, seq<Trade>>)
    ensures result == ByConfiguration(report.trades, CooldownMs(report.cooldownHours), configurations)
  {
    var cooldown := CooldownMs(report.cooldownHours);
    result := map[];
    for k := 0 to |configurations|
      invariant result == ByConfiguration(report.trades, cooldown, configurations[..k])
    {
      assert configurations[..k + 1][..k] == configurations[..k];
      var replayed := ReplayCooldown(Passing(report.trades, configurations[k].requirements), cooldown);
      result := result[configurations[k].name := replayed];
    }
    assert configurations[..|configurations|] == configurations;
  }

  // ----- inner validation -----

  datatype Entry = Entry(ranked: Ranked, performance: Performance)

  datatype Verdict = Rejected(reason: Rejection) | Kept(entry: Entry)

  /** What inner validation says of one configuration's validation trades. */
  function Judge(validation: seq<Trade>, c: Configuration, minimum: int): Verdict {
    var metrics := NetPerformance(validation);
    if metrics.Unavailable? || metrics.sampleSize < minimum then Rejected(InsufficientSample)
    else if metrics.expectancyR <= 0.0 || metrics.profitFactor.None? then Rejected(NotPositive)
    else Kept(Entry(Ranked(SelectionKey(Candidate(1, 1, metrics, c.complexity)), c.name), metrics))
  }

  function JudgeNamed(byName: map<string, seq<Trade>>, c: Configuration, start: int, end: int, horizon: int, minimum: int): Verdict
    requires start < end && horizon >= 0
  {
    Judge(SplitsOf(TradesOf(byName, c.name), start, end, horizon).validation, c, minimum)
  }

  predicate EntryLe(a: Entry, b: Entry) { RankedLe(a.ranked, b.ranked) }

  function Entries(
    byName: map<string, seq<Trade>>, configurations: seq<Configuration>, start: int, end: int, horizon: int, minimum: int): seq<Entry>
    requires start < end && horizon >= 0
  {
    if configurations == [] then []
    else
      var n := |configurations| - 1;
      var verdict := JudgeNamed(byName, configurations[n], start, end, horizon, minimum);
      Entries(byName, configurations[..n], start, end, horizon, minimum) + (if verdict.Kept? then [verdict.entry] else [])
  }

  function Rejections(
    byName: map<string, seq<Trade>>, configurations: seq<Configuration>, start: int, end: int, horizon: int, minimum: int)
    : map<string, Rejection>
    requires start < end && horizon >= 0
  {
    if configurations == [] then map[]
    else
      var n := |configurations| - 1;
      var verdict := JudgeNamed(byName, configurations[n], start, end, horizon, minimum);
      var before := Rejections(byName, configurations[..n], start, end, horizon, minimum);
      if verdict.Rejected? then before[configurations[n].name := verdict.reason] else before
  }

  function InnerFrom(entries: seq<Entry>, rejected: map<string, Rejection>): Inner {
    if entries == [] then Inner(None, None, rejected)
    else
      OrderByRank(EntryLe, (e: Entry) => e.ranked);
      SortBySpec(entries, EntryLe);
      var first := SortBy(entries, EntryLe)[0];
      Inner(Some(first.ranked.name), Some(first.performance), rejected)
  }

  function InnerOf(
    byName: map<string, seq<Trade>>, configurations: seq<Configuration>, start: int, end: int, horizon: int, minimum: int)
    : Result<Inner, SplitError>
  {
    if configurations == [] then Ok(Inner(None, None, map[]))
    else if start >= end || horizon < 0 then Err(InvalidResearchWindow)
    else Ok(InnerFrom(Entries(byName, configurations, start, end, horizon, minimum),
                      Rejections(byName, configurations, start, end, horizon, minimum)))
  }

  method SelectDevelopmentValidation(
    byName: map<string, seq<Trade>>, configurations: seq<Configuration>, start: int, end: int, horizon: int, minimum: int)
    returns (result: Result<Inner, SplitError>)
    ensures result == InnerOf(byName, configurations, start, end, horizon, minimum)
  {
    hide SelectionKey, PerformanceOf, InnerFrom, SplitsOf;
    var ranked: seq<Entry>, rejected: map<string, Rejection> := [], map[];
    for k := 0 to |configurations|
      invariant k > 0 ==> start < end && horizon >= 0
      invariant start < end && horizon >= 0 ==>
        && ranked == Entries(byName, configurations[..k], start, end, horizon, minimum)
        && rejected == Rejections(byName, configurations[..k], start, end, horizon, minimum)
    {
      var c := configurations[k];
      assert configurations[..k + 1][..k] == configurations[..k];
      var split := PurgedTimeSplits(TradesOf(byName, c.name), start, end, horizon);
      if split.Err? {
        return Err(split.error);
      }
      var performance := PerformanceMetrics(split.value.validation, NetR, RISK_FRACTION);
      var metrics := performance.value;
      if metrics.Unavailable? || metrics.sampleSize < minimum {
        rejected := rejected[c.name := InsufficientSample];
        continue;
      }
      if metrics.expectancyR <= 0.0 || metrics.profitFactor.None? {
        rejected := rejected[c.name := NotPositive];
        continue;
      }
      ranked := ranked + [Entry(Ranked(SelectionKey(Candidate(1, 1, metrics, c.complexity)), c.name), metrics)];
    }
    assert configurations[..|configurations|] == configurations;
    if configurations == [] {
      return Ok(Inner(None, None, map[]));
    }
    return Ok(InnerFrom(ranked, rejected));
  }

  // ----- calibration -----

  function DevelopmentEnd(report: Report): int { ValidationBoundary(report.start, report.end) }

  function HorizonMs(report: Report): int
    requires report.holdHours.Some?
  {
    report.holdHours.value * 3_600_000
  }

  /** Everything before the outcomes of development can reach past its end. */
  function VisibleEnd(report: Report): int
    requires report.holdHours.Some?
  {
    DevelopmentEnd(report) - HorizonMs(report)
  }

  function Items(configurations: seq<Configuration>): seq<Item> {
    Mapped(configurations, (c: Configuration) => Item(c.name, c.complexity))
  }

  function Agreement(inner: Inner, walkForward: Assessment): Option<string> {
    if inner.selectedName.Some? && inner.selectedName == walkForward.selectedName then inner.selectedName else None
  }

  function HoldoutOf(byName: map<string, seq<Trade>>, name: Option<string>, developmentEnd: int): Option<Performance> {
    if name.None? then None
    else Some(NetPerformance(Filter(TradesOf(byName, name.value), (t: Trade) => From(t, developmentEnd))))
  }

  function ReportOf(byName: map<string, seq<Trade>>, c: Configuration, developmentEnd: int, walkForward: Assessment): ConfigurationReport {
    var trades := TradesOf(byName, c.name);
    ConfigurationReport(c.requirements, c.complexity, |trades|, NetPerformance(Visible(trades, developmentEnd)),
                        if c.name in walkForward.packets then Some(walkForward.packets[c.name]) else None)
  }

  function Reports(byName: map<string, seq<Trade>>, configurations: seq<Configuration>, developmentEnd: int, walkForward: Assessment)
    : (r: map<string, ConfigurationReport>)
    ensures forall c :: c in configurations ==> c.name in r
  {
    if configurations == [] then map[]
    else
      var n := |configurations| - 1;
      assert forall c :: c in configurations ==> c in configurations[..n] || c == configurations[n];
      Reports(byName, configurations[..n], developmentEnd, walkForward)
      [configurations[n].name := ReportOf(byName, configurations[n], developmentEnd, walkForward)]
  }

  method ReportAll(byName: map<string, seq<Trade>>, configurations: seq<Configuration>, developmentEnd: int, walkForward: Assessment)
    returns (all: map<string, ConfigurationReport>)
    ensures all == Reports(byName, configurations, developmentEnd, walkForward)
  {
    hide PerformanceOf, Visible;
    all := map[];
    for k := 0 to |configurations|
      invariant all == Reports(byName, configurations[..k], developmentEnd, walkForward)
    {
      assert configurations[..k + 1][..k] == configurations[..k];
      var c := configurations[k];
      var trades := TradesOf(byName, c.name);
      var development := PerformanceMetrics(Visible(trades, developmentEnd), NetR, RISK_FRACTION);
      var packet := if c.name in walkForward.packets then Some(walkForward.packets[c.name]) else None;
      all := all[c.name := ConfigurationReport(c.requirements, c.complexity, |trades|, development.value, packet)];
    }
    assert configurations[..|configurations|] == configurations;
  }

  function Calibrated(report: Report, configurations: seq<Configuration>, minimumValidation: int, minimumFold: int)
    : Result<Calibration, CalibrationError>
  {
    if report.start >= report.end || !report.candidatePoolComplete then Err(NotACompletePool)
    else if report.promotionPermitted != Some(false) then Err(NoGuardrail)
    else if report.holdHours.None? || report.holdHours.value < 1 then Err(NoHorizon)
    else
      var end, horizon := DevelopmentEnd(report), HorizonMs(report);
      var byName := ByConfiguration(report.trades, CooldownMs(report.cooldownHours), configurations);
      match InnerOf(byName, configurations, report.start, end, horizon, minimumValidation)
      case Err(e) => Err(BadSplit(e))
      case Ok(inner) =>
        match WalkForwardOf(byName, Items(configurations), report.start, end, horizon, FOLDS, minimumFold)
        case Err(e) => Err(BadWindows(e))
        case Ok(walkForward) =>
          var selected := Agreement(inner, walkForward);
          Ok(Calibration(inner, walkForward, selected.Some?, selected, HoldoutOf(byName, selected, end),
                         Reports(byName, configurations, end, walkForward)))
  }

  method Calibrate(report: Report, configurations: seq<Configuration>, minimumValidation: int, minimumFold: int)
    returns (result: Result<Calibration, CalibrationError>)
    ensures result == Calibrated(report, configurations, minimumValidation, minimumFold)
  {
    hide InnerOf, WalkForwardOf, ByConfiguration, PerformanceOf, Reports;
    if report.start >= report.end || !report.candidatePoolComplete { return Err(NotACompletePool); }
    if report.promotionPermitted != Some(false) { return Err(NoGuardrail); }
    if report.holdHours.None? || report.holdHours.value < 1 { return Err(NoHorizon); }
    var horizon := report.holdHours.value * 3_600_000;
    var end := report.start + (report.end - report.start) * 5 / 6;
    var byName := TradesByConfiguration(report, configurations);
    var inner := SelectDevelopmentValidation(byName, configurations, report.start, end, horizon, minimumValidation);
    if inner.Err? { return Err(BadSplit(inner.error)); }
    var walkForward := AssessWalkForward(byName, Items(configurations), report.start, end, horizon, FOLDS, minimumFold);
    if walkForward.Err? { return Err(BadWindows(walkForward.error)); }
    var agreed := inner.value.selectedName.Some? && inner.value.selectedName == walkForward.value.selectedName;
    var selected := if agreed then inner.value.selectedName else None;
    var holdout: Option<Performance> := None;
    if selected.Some? {
      var metrics := PerformanceMetrics(
        Filter(TradesOf(byName, selected.value), (t: Trade) => From(t, end)), NetR, RISK_FRACTION);
      holdout := Some(metrics.value);
    }
    var all := ReportAll(byName, configurations, end, walkForward.value);
    return Ok(Calibration(inner.value, walkForward.value, agreed, selected, holdout, all));
  }

  // ----- the holdout cannot influence the selection -----

  /** Filtering by evidence and replaying the cooldown read only the visible trades. */
  lemma ConfigurationIsCausal(trades: seq<Trade>, cooldown: real, c: Configuration, cut: int)
    ensures Visible(ConfigurationTrades(trades, cooldown, c), cut) == ConfigurationTrades(Visible(trades, cut), cooldown, c)
  {
    hide PassesRequirements;
    var passes, before := (t: Trade) => PassesRequirements(t, c.requirements), (t: Trade) => Before(t, cut);
    PoolReplayIsCausal(Passing(trades, c.requirements), cut, cooldown);
    var both := (t: Trade) => PassesRequirements(t, c.requirements) && Before(t, cut);
    FilterFilter(trades, passes, before, both);
    FilterFilter(trades, before, passes, both);
  }

  lemma {:induction false} PoolsAgree(a: seq<Trade>, b: seq<Trade>, cooldown: real, configurations: seq<Configuration>, cut: int)
    requires Visible(a, cut) == Visible(b, cut)
    ensures AgreeBefore(ByConfiguration(a, cooldown, configurations), ByConfiguration(b, cooldown, configurations), cut)
  {
    hide ConfigurationTrades, Visible;
    if configurations != [] {
      var n := |configurations| - 1;
      PoolsAgree(a, b, cooldown, configurations[..n], cut);
      ConfigurationIsCausal(a, cooldown, configurations[n], cut);
      ConfigurationIsCausal(b, cooldown, configurations[n], cut);
    }
  }

  lemma JudgeIsVisible(
    a: map<string, seq<Trade>>, b: map<string, seq<Trade>>, c: Configuration, start: int, end: int, horizon: int, minimum: int)
    requires start < end && horizon >= 0 && AgreeBefore(a, b, end - horizon)
    ensures JudgeNamed(a, c, start, end, horizon, minimum) == JudgeNamed(b, c, start, end, horizon, minimum)
  {
    hide SplitsOf, PerformanceOf;
    DevelopmentSplitsAreVisible(TradesOf(a, c.name), TradesOf(b, c.name), start, end, horizon, end - horizon);
  }

  lemma {:induction false} InnerIsVisible(
    a: map<string, seq<Trade>>, b: map<string, seq<Trade>>, configurations: seq<Configuration>,
    start: int, end: int, horizon: int, minimum: int)
    requires start < end && horizon >= 0 && AgreeBefore(a, b, end - horizon)
    ensures Entries(a, configurations, start, end, horizon, minimum) == Entries(b, configurations, start, end, horizon, minimum)
    ensures Rejections(a, configurations, start, end, horizon, minimum) == Rejections(b, configurations, start, end, horizon, minimum)
  {
    hide JudgeNamed, AgreeBefore;
    if configurations != [] {
      var n := |configurations| - 1;
      InnerIsVisible(a, b, configurations[..n], start, end, horizon, minimum);
      JudgeIsVisible(a, b, configurations[n], start, end, horizon, minimum);
    }
  }

  /** The parts of two configuration reports that no trade beyond the visible end reaches. */
  ghost predicate SameBeforeHoldout(a: map<string, ConfigurationReport>, b: map<string, ConfigurationReport>) {
    && a.Keys == b.Keys
    && forall name :: name in a ==>
         a[name].(fullSampleSize := b[name].fullSampleSize, development := b[name].development) == b[name]
  }

  lemma {:induction false} ReportsAreVisible(
    a: map<string, seq<Trade>>, b: map<string, seq<Trade>>, configurations: seq<Configuration>, end: int, walkForward: Assessment)
    ensures SameBeforeHoldout(Reports(a, configurations, end, walkForward), Reports(b, configurations, end, walkForward))
  {
    hide NetPerformance, Visible, TradesOf;
    if configurations != [] {
      ReportsAreVisible(a, b, configurations[..|configurations| - 1], end, walkForward);
    }
  }

  ghost predicate SameDevelopment(a: map<string, ConfigurationReport>, b: map<string, ConfigurationReport>) {
    a.Keys == b.Keys && forall name :: name in a ==> a[name].(fullSampleSize := b[name].fullSampleSize) == b[name]
  }

  lemma {:induction false} DevelopmentIsVisible(
    a: map<string, seq<Trade>>, b: map<string, seq<Trade>>, configurations: seq<Configuration>, end: int, walkForward: Assessment)
    requires AgreeBefore(a, b, end)
    ensures SameDevelopment(Reports(a, configurations, end, walkForward), Reports(b, configurations, end, walkForward))
  {
    hide NetPerformance, Visible;
    if configurations != [] {
      var n := |configurations| - 1;
      DevelopmentIsVisible(a, b, configurations[..n], end, walkForward);
      assert Visible(TradesOf(a, configurations[n].name), end) == Visible(TradesOf(b, configurations[n].name), end);
    }
  }

  /**
   Holdout non-interference. Reports that differ only in trades at or after the development end minus the outcome
   horizon get the same inner validation, the same walk-forward assessment, the same selection and, of every
   configuration, the same report but for its full sample size and its performance over all of development.
   */
  lemma HoldoutCannotInfluenceSelection(
    a: Report, b: Report, configurations: seq<Configuration>, minimumValidation: int, minimumFold: int)
    requires a.(trades := b.trades) == b
    requires a.holdHours.Some? ==> Visible(a.trades, VisibleEnd(a)) == Visible(b.trades, VisibleEnd(b))
    ensures var x := Calibrated(a, configurations, minimumValidation, minimumFold);
            var y := Calibrated(b, configurations, minimumValidation, minimumFold);
            match x
            case Err(_) => x == y
            case Ok(c) =>
              y.Ok? && c.(holdout := y.value.holdout, all := y.value.all) == y.value && SameBeforeHoldout(c.all, y.value.all)
  {
    hide Visible, Entries, Rejections, InnerFrom, ByConfiguration, WalkForwardOf, AgreeBefore, Reports, HoldoutOf, SameBeforeHoldout;
    if a.holdHours.Some? && a.holdHours.value >= 1 {
      var cooldown := CooldownMs(a.cooldownHours);
      var start, end, horizon := a.start, DevelopmentEnd(a), HorizonMs(a);
      PoolsAgree(a.trades, b.trades, cooldown, configurations, VisibleEnd(a));
      var x, y := ByConfiguration(a.trades, cooldown, configurations), ByConfiguration(b.trades, cooldown, configurations);
      if start < end { InnerIsVisible(x, y, configurations, start, end, horizon, minimumValidation); }
      WalkForwardIsVisible(x, y, Items(configurations), start, end, horizon, FOLDS, minimumFold);
      var walkForward := WalkForwardOf(x, Items(configurations), start, end, horizon, FOLDS, minimumFold);
      if walkForward.Ok? { ReportsAreVisible(x, y, configurations, end, walkForward.value); }
    }
  }

  /** Reports that differ only in holdout trades agree on everything but the holdout performance and the full sample sizes. */
  lemma HoldoutReachesOnlyItsOwnFigures(
    a: Report, b: Report, configurations: seq<Configuration>, minimumValidation: int, minimumFold: int)
    requires a.(trades := b.trades) == b && Visible(a.trades, DevelopmentEnd(a)) == Visible(b.trades, DevelopmentEnd(b))
    ensures var x := Calibrated(a, configurations, minimumValidation, minimumFold);
            var y := Calibrated(b, configurations, minimumValidation, minimumFold);
            match x
            case Err(_) => x == y
            case Ok(c) =>
              y.Ok? && c.(holdout := y.value.holdout, all := y.value.all) == y.value && SameDevelopment(c.all, y.value.all)
  {
    hide Visible, InnerOf, ByConfiguration, WalkForwardOf, AgreeBefore, Reports, HoldoutOf, SameDevelopment, SameBeforeHoldout;
    if a.holdHours.Some? && a.holdHours.value >= 1 {
      EarlierIsVisible(a.trades, VisibleEnd(a), DevelopmentEnd(a));
      EarlierIsVisible(b.trades, VisibleEnd(b), DevelopmentEnd(b));
      HoldoutCannotInfluenceSelection(a, b, configurations, minimumValidation, minimumFold);
    }
    var x := Calibrated(a, configurations, minimumValidation, minimumFold);
    if x.Ok? {
      var cooldown, end := CooldownMs(a.cooldownHours), DevelopmentEnd(a);
      PoolsAgree(a.trades, b.trades, cooldown, configurations, end);
      DevelopmentIsVisible(ByConfiguration(a.trades, cooldown, configurations), ByConfiguration(b.trades, cooldown, configurations),
                           configurations, end, x.value.walkForward);
    }
  }

  // ----- what a selection guarantees -----

  lemma {:induction false} EntriesAreKept(
    byName: map<string, seq<Trade>>, configurations: seq<Configuration>, start: int, end: int, horizon: int, minimum: int, e: Entry)
    requires start < end && horizon >= 0
    ensures e in Entries(byName, configurations, start, end, horizon, minimum) <==>
            exists c :: c in configurations && JudgeNamed(byName, c, start, end, horizon, minimum) == Kept(e)
  {
    hide JudgeNamed;
    if configurations != [] {
      var n := |configurations| - 1;
      EntriesAreKept(byName, configurations[..n], start, end, horizon, minimum, e);
      assert forall c :: c in configurations <==> c in configurations[..n] || c == configurations[n];
    }
  }

  /** A selected name won the inner validation with enough profitable trades and also won the walk-forward ranking. */
  lemma SelectionIsEarned(report: Report, configurations: seq<Configuration>, minimumValidation: int, minimumFold: int)
    requires Calibrated(report, configurations, minimumValidation, minimumFold).Ok?
    ensures var c := Calibrated(report, configurations, minimumValidation, minimumFold).value;
            && c.agreed == c.selectedName.Some?
            && (c.selectedName.Some? ==>
                  && c.selectedName == c.inner.selectedName == c.walkForward.selectedName
                  && c.inner.performance.Some? && c.inner.performance.value.Available?
                  && c.inner.performance.value.sampleSize >= minimumValidation
                  && c.inner.performance.value.expectancyR > 0.0
                  && (exists x :: x in configurations && x.name == c.selectedName.value))
            && (c.selectedName.None? ==> c.inner.selectedName.None? || c.inner.selectedName != c.walkForward.selectedName)
  {
    hide WalkForwardOf, ByConfiguration, Reports;
    var c := Calibrated(report, configurations, minimumValidation, minimumFold).value;
    if c.selectedName.Some? {
      var start, end, horizon := report.start, DevelopmentEnd(report), HorizonMs(report);
      var byName := ByConfiguration(report.trades, CooldownMs(report.cooldownHours), configurations);
      var entries := Entries(byName, configurations, start, end, horizon, minimumValidation);
      OrderByRank(EntryLe, (e: Entry) => e.ranked);
      SortBySpec(entries, EntryLe);
      var first := SortBy(entries, EntryLe)[0];
      assert first in entries;
      EntriesAreKept(byName, configurations, start, end, horizon, minimumValidation, first);
    }
  }

  /** Calibrating the frozen configurations selects exactly one of the six, or none. */
  lemma FrozenSelectionIsUnique(report: Report, minimumValidation: int, minimumFold: int)
    requires Calibrated(report, CONFIGURATIONS, minimumValidation, minimumFold).Ok?
    ensures var selected := Calibrated(report, CONFIGURATIONS, minimumValidation, minimumFold).value.selectedName;
            selected.Some? ==>
              exists i :: 0 <= i < |CONFIGURATIONS| && CONFIGURATIONS[i].name == selected.value
                && forall j :: 0 <= j < |CONFIGURATIONS| && j != i ==> CONFIGURATIONS[j].name != selected.value
  {
    hide Calibrated;
    SelectionIsEarned(report, CONFIGURATIONS, minimumValidation, minimumFold);
    var selected := Calibrated(report, CONFIGURATIONS, minimumValidation, minimumFold).value.selectedName;
    if selected.Some? {
      var x :| x in CONFIGURATIONS && x.name == selected.value;
      var i :| 0 <= i < |CONFIGURATIONS| && CONFIGURATIONS[i] == x;
      forall j | 0 <= j < |CONFIGURATIONS| && j != i ensures CONFIGURATIONS[j].name != selected.value {
        FrozenNamesDiffer(if i < j then i else j, if i < j then j else i);
      }
    }
  }
}
