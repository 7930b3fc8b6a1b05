/** Threshold selection for the fixed Score V2 evidence contract (scripts/calibrate_score_v2.py). */
module CalibrateScoreV2 {
  import opened Common
  import opened Trades
  import opened Metrics
  import opened Replay
  import opened WalkForward
  import opened Promotion

  const AVAILABLE_MAXIMUM: real := 75.0

  /** The approved maxima; they sum to 100, so equality with them implies the sum check. */
  const APPROVED_WEIGHTS: map<string, real> := map[
    "structural_post_pump" := 35.0, "entry_timing" := 20.0, "execution_microstructure" := 20.0,
    "derivatives_confirmation" := 15.0, "cross_exchange_confirmation" := 5.0, "same_contract_price_location" := 5.0]

  /** A candidate's threshold field: absent, present but not a number, or a number. */
  datatype ThresholdField = Absent | NotANumber | Number(value: real)

  datatype Configuration = Configuration(name: string, weights: map<string, real>, threshold: ThresholdField, complexity: int)

  function Threshold(c: Configuration): Option<real> {
    match c.threshold
    case Absent => Some(0.0)
    case NotANumber => None
    case Number(v) => if 0.0 <= v <= AVAILABLE_MAXIMUM then Some(v) else None
  }

  predicate ValidCandidate(c: Configuration) { c.weights == APPROVED_WEIGHTS && Threshold(c).Some? }

  // ----- pools per threshold -----

  predicate Reaches(trade: Trade, threshold: real) {
    trade.availableScore.Some? && trade.availableScore.value >= threshold
  }

  function Reaching(trades: seq<Trade>, threshold: real): seq<Trade> {
    Filter(trades, (t: Trade) => Reaches(t, threshold))
  }

  function ThresholdTrades(trades: seq<Trade>, cooldown: real, threshold: real): seq<Trade> {
    ReplayPool(Reaching(trades, threshold), cooldown)
  }

  /** Configurations without a usable threshold get no pool at all. */
  function ByConfiguration(trades: seq<Trade>, cooldown: real, configurations: seq<Configuration>): map<string, seq<Trade>> {
    if configurations == [] then map[]
    else
      var n := |configurations| - 1;
      var before := ByConfiguration(trades, cooldown, configurations[..n]);
      match Threshold(configurations[n])
      case None => before
      case Some(threshold) => before[configurations[n].name := ThresholdTrades(trades, cooldown, threshold)]
  }

  method TradesByConfiguration(trades: seq<Trade>, cooldownHours: Option<real>, configurations: seq<Configuration>)
    returns (selected: map<string, seq<Trade>>)
    ensures selected == ByConfiguration(trades, CooldownMs(cooldownHours), configurations)
  {
    selected := map[];
    for k := 0 to |configurations|
      invariant selected == ByConfiguration(trades, CooldownMs(cooldownHours), configurations[..k])
    {
      assert configurations[..k + 1][..k] == configurations[..k];
      var threshold := Threshold(configurations[k]);
      if threshold.None? {
        continue;
      }
      var replayed := ReplayCooldown(Reaching(trades, threshold.value), CooldownMs(cooldownHours));
      selected := selected[configurations[k].name := replayed];
    }
    assert configurations[..|configurations|] == configurations;
  }

  // ----- selection on training and validation only -----

  /** None stands for an infinite degradation. */
  function Degradation(train: Summary, validation: Summary): Option<real> {
    if train.realizedExpectancy.None? || validation.realizedExpectancy.None? then None
    else Some(Max(train.realizedExpectancy.value - validation.realizedExpectancy.value, 0.0))
  }

  datatype Rejection =
    | BadWeights | CostsIncomplete | InsufficientTrades | NotPositive | UndefinedProfitFactor | SelectorsDisagree

  datatype Entry = Entry(ranked: Ranked, threshold: real, train: Summary, validation: Summary)

  datatype Verdict = Rejected(reason: Rejection) | Kept(entry: Entry)

  function Judge(train: seq<Trade>, validation: seq<Trade>, c: Configuration, rewardR: real, minimum: int): Verdict {
    if !ValidCandidate(c) then Rejected(BadWeights)
    else
      var trainSummary, summary := Summarize(train, rewardR), Summarize(validation, rewardR);
      var net := summary.net;
      if net.Unavailable? then Rejected(CostsIncomplete)
      else if net.sampleSize < minimum then Rejected(InsufficientTrades)
      else if net.expectancyR <= 0.0 then Rejected(NotPositive)
      else if net.profitFactor.None? then Rejected(UndefinedProfitFactor)
      else Kept(Entry(Ranked(SelectionKey(Candidate(1, 1, net, c.complexity)), c.name), Threshold(c).value, trainSummary, summary))
  }

  predicate EntryLe(a: Entry, b: Entry) { RankedLe(a.ranked, b.ranked) }

  function Entries(
    train: map<string, seq<Trade>>, validation: map<string, seq<Trade>>, candidates: seq<Configuration>, rewardR: real, minimum: int)
    : seq<Entry>
  {
    if candidates == [] then []
    else
      var n := |candidates| - 1;
      var name := candidates[n].name;
      var verdict := Judge(TradesOf(train, name), TradesOf(validation, name), candidates[n], rewardR, minimum);
      Entries(train, validation, candidates[..n], rewardR, minimum) + (if verdict.Kept? then [verdict.entry] else [])
  }

  function Rejections(
    train: map<string, seq<Trade>>, validation: map<string, seq<Trade>>, candidates: seq<Configuration>, rewardR: real, minimum: int)
    : map<string, Rejection>
  {
    if candidates == [] then map[]
    else
      var n := |candidates| - 1;
      var name := candidates[n].name;
      var verdict := Judge(TradesOf(train, name), TradesOf(validation, name), candidates[n], rewardR, minimum);
      var before := Rejections(train, validation, candidates[..n], rewardR, minimum);
      if verdict.Rejected? then before[name := verdict.reason] else before
  }

  datatype Selected = Selected(
    name: Option<string>, rejected: map<string, Rejection>, entry: Option<Entry>, degradation: Option<real>, walkForward: Option<Packet>)

  function FromEntries(entries: seq<Entry>, rejected: map<string, Rejection>): Selected {
    if entries == [] then Selected(None, rejected, None, None, None)
    else
      OrderByRank(EntryLe, (e: Entry) => e.ranked);
      SortBySpec(entries, EntryLe);
      var first := SortBy(entries, EntryLe)[0];
      var degradation := Degradation(first.train, first.validation);
      Selected(Some(first.ranked.name), rejected, Some(first),
               if degradation.None? then None else Some(Round(degradation.value, 10000.0)), None)
  }

  function SelectedWeights(
    train: map<string, seq<Trade>>, validation: map<string, seq<Trade>>, candidates: seq<Configuration>, rewardR: real, minimum: int)
    : Selected
  {
    FromEntries(Entries(train, validation, candidates, rewardR, minimum), Rejections(train, validation, candidates, rewardR, minimum))
  }

  /** The holdout is a parameter of the original that is dropped on entry; it is not passed here at all. */
  method SelectWeights(
    train: map<string, seq<Trade>>, validation: map<string, seq<Trade>>, candidates: seq<Configuration>, rewardR: real, minimum: int)
    returns (selected: Selected)
    ensures selected == SelectedWeights(train, validation, candidates, rewardR, minimum)
  {
    hide Summarize, SelectionKey, FromEntries, ValidCandidate;
    var ranked: seq<Entry>, rejected: map<string, Rejection> := [], map[];
    for k := 0 to |candidates|
      invariant ranked == Entries(train, validation, candidates[..k], rewardR, minimum)
      invariant rejected == Rejections(train, validation, candidates[..k], rewardR, minimum)
    {
      assert candidates[..k + 1][..k] == candidates[..k];
      var c := candidates[k];
      if !ValidCandidate(c) {
        rejected := rejected[c.name := BadWeights];
        continue;
      }
      var trainSummary := Summarize(TradesOf(train, c.name), rewardR);
      var summary := Summarize(TradesOf(validation, c.name), rewardR);
      var net := summary.net;
      if net.Unavailable? {
        rejected := rejected[c.name := CostsIncomplete];
        continue;
      }
      if net.sampleSize < minimum {
        rejected := rejected[c.name := InsufficientTrades];
        continue;
      }
      if net.expectancyR <= 0.0 {
        rejected := rejected[c.name := NotPositive];
        continue;
      }
      if net.profitFactor.None? {
        rejected := rejected[c.name := UndefinedProfitFactor];
        continue;
      }
      ValidHasThreshold(c);
      ranked := ranked + [Entry(Ranked(SelectionKey(Candidate(1, 1, net, c.complexity)), c.name),
                                Threshold(c).value, trainSummary, summary)];
    }
    assert candidates[..|candidates|] == candidates;
    selected := FromEntries(ranked, rejected);
  }

  lemma ValidHasThreshold(c: Configuration)
    ensures ValidCandidate(c) ==> Threshold(c).Some?
  {
  }

  // ----- calibration -----

  datatype Report = Report(
    start: int, end: int, candidatePoolComplete: bool, holdHours: Option<int>, cooldownHours: Option<real>, rewardR: real,
    trades: seq<Trade>)

  /** Gates the caller can set: an explicit outcome horizon, and the minimum sample sizes. */
  datatype Limits = Limits(horizon: Option<int>, minimumValidation: int, folds: int, minimumFold: int)

  datatype CalibrationError =
    | InvalidReportWindow | NotACompletePool | NoHorizon
    | BadSplit(split: SplitError) | BadWindows(windows: WindowError) | NoSplit(name: string)

  /** What is reported of each configuration, whether or not it is selected. */
  datatype ConfigurationReport = ConfigurationReport(
    weights: map<string, real>, threshold: Option<real>, train: Summary, validation: Summary, holdout: Summary)

  datatype Calibration = Calibration(
    selected: Selected, walkForward: Assessment, holdout: Option<Summary>, all: map<string, ConfigurationReport>,
    refusals: seq<Refusal>)

  function HorizonOf(report: Report, limits: Limits): Option<int> {
    if limits.horizon.Some? then limits.horizon
    else if report.holdHours.Some? && report.holdHours.value >= 1 then Some(report.holdHours.value * 3_600_000)
    else None
  }

  function DevelopmentEnd(report: Report): int { ValidationBoundary(report.start, report.end) }

  function TrainSplits(byName: map<string, seq<Trade>>, start: int, end: int, horizon: int): map<string, seq<Trade>>
    requires start < end && horizon >= 0
  {
    map name | name in byName :: SplitsOf(byName[name], start, end, horizon).train
  }

  function ValidationSplits(byName: map<string, seq<Trade>>, start: int, end: int, horizon: int): map<string, seq<Trade>>
    requires start < end && horizon >= 0
  {
    map name | name in byName :: SplitsOf(byName[name], start, end, horizon).validation
  }

  function Items(configurations: seq<Configuration>): seq<Item> {
    Mapped(configurations, (c: Configuration) => Item(c.name, c.complexity))
  }

  /** Both selectors must name the same configuration, or nothing is selected. */
  function Agree(selected: Selected, walkForward: Assessment): Selected {
    if selected.name != walkForward.selectedName then
      Selected(None, selected.rejected["selection" := SelectorsDisagree], None, None, None)
    else if selected.name.Some? && selected.name.value in walkForward.packets then
      selected.(walkForward := Some(walkForward.packets[selected.name.value]))
    else selected
  }

  function FirstWithoutSplit(byName: map<string, seq<Trade>>, configurations: seq<Configuration>): Option<string> {
    if configurations == [] then None
    else
      var n := |configurations| - 1;
      var earlier := FirstWithoutSplit(byName, configurations[..n]);
      if earlier.Some? then earlier
      else if configurations[n].name !in byName then Some(configurations[n].name) else None
  }

  function ReportOf(byName: map<string, seq<Trade>>, c: Configuration, report: Report, horizon: int): ConfigurationReport
    requires report.start < report.end && horizon >= 0
  {
    var split := SplitsOf(TradesOf(byName, c.name), report.start, report.end, horizon);
    ConfigurationReport(c.weights, Threshold(c), Summarize(split.train, report.rewardR), Summarize(split.validation, report.rewardR),
                        Summarize(split.holdout, report.rewardR))
  }

  function Reports(byName: map<string, seq<Trade>>, configurations: seq<Configuration>, report: Report, horizon: int)
    : map<string, ConfigurationReport>
    requires report.start < report.end && horizon >= 0
  {
    if configurations == [] then map[]
    else
      var n := |configurations| - 1;
      Reports(byName, configurations[..n], report, horizon)[configurations[n].name := ReportOf(byName, configurations[n], report, horizon)]
  }

  method ReportAll(byName: map<string, seq<Trade>>, configurations: seq<Configuration>, report: Report, horizon: int)
    returns (all: map<string, ConfigurationReport>)
    requires report.start < report.end && horizon >= 0
    ensures all == Reports(byName, configurations, report, horizon)
  {
    hide ReportOf;
    all := map[];
    for k := 0 to |configurations|
      invariant all == Reports(byName, configurations[..k], report, horizon)
    {
      assert configurations[..k + 1][..k] == configurations[..k];
      all := all[configurations[k].name := ReportOf(byName, configurations[k], report, horizon)];
    }
    assert configurations[..|configurations|] == configurations;
  }

  function Calibrated(report: Report, configurations: seq<Configuration>, limits: Limits): Result<Calibration, CalibrationError> {
    if report.start >= report.end then Err(InvalidReportWindow)
    else if !report.candidatePoolComplete then Err(NotACompletePool)
    else
      match HorizonOf(report, limits)
      case None => Err(NoHorizon)
      case Some(horizon) =>
        var byName := ByConfiguration(report.trades, CooldownMs(report.cooldownHours), configurations);
        if byName != map[] && horizon < 0 then Err(BadSplit(InvalidResearchWindow))
        else
          var start, end := report.start, report.end;
          match WalkForwardOf(byName, Items(configurations), start, DevelopmentEnd(report), horizon, limits.folds, limits.minimumFold)
          case Err(e) => Err(BadWindows(e))
          case Ok(walkForward) =>
            var selected := Agree(
              SelectedWeights(TrainSplits(byName, start, end, horizon), ValidationSplits(byName, start, end, horizon),
                              configurations, report.rewardR, limits.minimumValidation),
              walkForward);
            match FirstWithoutSplit(byName, configurations)
            case Some(name) => Err(NoSplit(name))
            case None =>
              var holdout := HoldoutOf(byName, selected.name, report, horizon);
              Ok(Calibration(selected, walkForward, holdout, Reports(byName, configurations, report, horizon),
                             PromotionOf(byName, selected, holdout, report)))
  }

  /** The signals a day of the selected configuration, over at least one day. */
  function SignalsPerDay(byName: map<string, seq<Trade>>, name: Option<string>, report: Report): real {
    var days := Max((report.end - report.start) as real / 86400000.0, 1.0);
    (if name.None? then 0 else |TradesOf(byName, name.value)|) as real / days
  }

  /** The promotion verdict; the historical strategy is never feature-equivalent. */
  function PromotionOf(byName: map<string, seq<Trade>>, selected: Selected, holdout: Option<Summary>, report: Report): seq<Refusal> {
    Refusals(holdout, if selected.entry.Some? then Some(selected.entry.value.validation) else None,
             SignalsPerDay(byName, selected.name, report), report.rewardR, false)
  }

  lemma WalkForwardNeedsHorizon(
    byName: map<string, seq<Trade>>, items: seq<Item>, start: int, end: int, horizon: int, folds: int, minimum: int)
    requires WalkForwardOf(byName, items, start, end, horizon, folds, minimum).Ok?
    ensures horizon >= 0
  {
  }

  function HoldoutOf(byName: map<string, seq<Trade>>, name: Option<string>, report: Report, horizon: int): Option<Summary>
    requires report.start < report.end && horizon >= 0
  {
    if name.None? || name.value !in byName then None
    else Some(Summarize(SplitsOf(byName[name.value], report.start, report.end, horizon).holdout, report.rewardR))
  }

  method Calibrate(report: Report, configurations: seq<Configuration>, limits: Limits) returns (result: Result<Calibration, CalibrationError>)
    ensures result == Calibrated(report, configurations, limits)
  {
    hide ByConfiguration, SelectedWeights, WalkForwardOf, Summarize, SplitsOf, FirstWithoutSplit, Reports;
    if report.start >= report.end { return Err(InvalidReportWindow); }
    if !report.candidatePoolComplete { return Err(NotACompletePool); }
    var resolved := HorizonOf(report, limits);
    if resolved.None? { return Err(NoHorizon); }
    var horizon := resolved.value;
    var byName := TradesByConfiguration(report.trades, report.cooldownHours, configurations);
    if byName != map[] && horizon < 0 { return Err(BadSplit(InvalidResearchWindow)); }
    var development := report.start + (report.end - report.start) * 5 / 6;
    var walkForward := AssessWalkForward(byName, Items(configurations), report.start, development, horizon, limits.folds, limits.minimumFold);
    if walkForward.Err? { return Err(BadWindows(walkForward.error)); }
    WalkForwardNeedsHorizon(byName, Items(configurations), report.start, development, horizon, limits.folds, limits.minimumFold);
    var selected := SelectWeights(
      TrainSplits(byName, report.start, report.end, horizon), ValidationSplits(byName, report.start, report.end, horizon),
      configurations, report.rewardR, limits.minimumValidation);
    selected := Agree(selected, walkForward.value);
    var missing := FirstWithoutSplit(byName, configurations);
    if missing.Some? { return Err(NoSplit(missing.value)); }
    var all := ReportAll(byName, configurations, report, horizon);
    var holdout := HoldoutOf(byName, selected.name, report, horizon);
    return Ok(Calibration(selected, walkForward.value, holdout, all, PromotionOf(byName, selected, holdout, report)));
  }

  // ----- the holdout cannot influence the selection -----

  lemma ThresholdIsCausal(trades: seq<Trade>, cooldown: real, threshold: real, cut: int)
    ensures Visible(ThresholdTrades(trades, cooldown, threshold), cut) == ThresholdTrades(Visible(trades, cut), cooldown, threshold)
  {
    var reaches, before := (t: Trade) => Reaches(t, threshold), (t: Trade) => Before(t, cut);
    PoolReplayIsCausal(Reaching(trades, threshold), cut, cooldown);
    var both := (t: Trade) => Reaches(t, threshold) && Before(t, cut);
    FilterFilter(trades, reaches, before, both);
    FilterFilter(trades, before, reaches, both);
  }

  lemma {:induction false} PoolsAgree(a: seq<Trade>, b: seq<Trade>, cooldown: real, configurations: seq<Configuration>, cut: int)
    requires Visible(a, cut) == Visible(b, cut)
    ensures AgreeBefore(ByConfiguration(a, cooldown, configurations), ByConfiguration(b, cooldown, configurations), cut)
  {
    hide ThresholdTrades, Visible;
    if configurations != [] {
      var n := |configurations| - 1;
      PoolsAgree(a, b, cooldown, configurations[..n], cut);
      match Threshold(configurations[n])
      case None =>
      case Some(threshold) =>
        ThresholdIsCausal(a, cooldown, threshold, cut);
        ThresholdIsCausal(b, cooldown, threshold, cut);
    }
  }

  lemma SplitsAreVisible(a: map<string, seq<Trade>>, b: map<string, seq<Trade>>, start: int, end: int, horizon: int)
    requires start < end && horizon >= 0 && AgreeBefore(a, b, ValidationBoundary(start, end) - horizon)
    ensures TrainSplits(a, start, end, horizon) == TrainSplits(b, start, end, horizon)
    ensures ValidationSplits(a, start, end, horizon) == ValidationSplits(b, start, end, horizon)
  {
    hide SplitsOf;
    forall name | name in a
      ensures SplitsOf(a[name], start, end, horizon).train == SplitsOf(b[name], start, end, horizon).train
      ensures SplitsOf(a[name], start, end, horizon).validation == SplitsOf(b[name], start, end, horizon).validation
    {
      DevelopmentSplitsAreVisible(a[name], b[name], start, end, horizon, ValidationBoundary(start, end) - horizon);
    }
  }

  lemma {:induction false} MissingDependsOnNames(a: map<string, seq<Trade>>, b: map<string, seq<Trade>>, configurations: seq<Configuration>)
    requires a.Keys == b.Keys
    ensures FirstWithoutSplit(a, configurations) == FirstWithoutSplit(b, configurations)
  {
    if configurations != [] {
      MissingDependsOnNames(a, b, configurations[..|configurations| - 1]);
    }
  }

  /** Reports of configurations that differ in their holdout summary alone. */
  ghost predicate SameBeforeHoldout(a: map<string, ConfigurationReport>, b: map<string, ConfigurationReport>) {
    a.Keys == b.Keys && forall name :: name in a ==> a[name].(holdout := b[name].holdout) == b[name]
  }

  lemma {:induction false} ReportsAreVisible(
    a: map<string, seq<Trade>>, b: map<string, seq<Trade>>, configurations: seq<Configuration>, r: Report, s: Report, horizon: int)
    requires r.start < r.end && horizon >= 0 && r.(trades := s.trades) == s
    requires AgreeBefore(a, b, ValidationBoundary(r.start, r.end) - horizon)
    ensures SameBeforeHoldout(Reports(a, configurations, r, horizon), Reports(b, configurations, s, horizon))
  {
    hide Summarize, SplitsOf, Visible, ValidationBoundary;
    if configurations != [] {
      var n := |configurations| - 1;
      var cut := ValidationBoundary(r.start, r.end) - horizon;
      ReportsAreVisible(a, b, configurations[..n], r, s, horizon);
      DevelopmentSplitsAreVisible(
        TradesOf(a, configurations[n].name), TradesOf(b, configurations[n].name), r.start, r.end, horizon, cut);
    }
  }

  /**
   Holdout non-interference for Score V2: the selected packet, with its training and validation summaries, the whole
   walk-forward assessment and, of every configuration, all but the holdout summary are the same for reports that differ
   only beyond the visible end.
   */
  lemma HoldoutCannotInfluenceSelection(a: Report, b: Report, configurations: seq<Configuration>, limits: Limits)
    requires a.(trades := b.trades) == b
    requires HorizonOf(a, limits).Some? ==>
      var cut := DevelopmentEnd(a) - HorizonOf(a, limits).value; Visible(a.trades, cut) == Visible(b.trades, cut)
    ensures var x, y := Calibrated(a, configurations, limits), Calibrated(b, configurations, limits);
            match x
            case Err(_) => x == y
            case Ok(c) =>
              && y.Ok? && c.selected == y.value.selected && c.walkForward == y.value.walkForward
              && SameBeforeHoldout(c.all, y.value.all)
  {
    hide Visible, SelectedWeights, ByConfiguration, WalkForwardOf, Summarize, FirstWithoutSplit, Reports, SameBeforeHoldout,
      TrainSplits, ValidationSplits, Agree, HoldoutOf, AgreeBefore;
    if HorizonOf(a, limits).Some? && a.start < a.end {
      var horizon, cooldown := HorizonOf(a, limits).value, CooldownMs(a.cooldownHours);
      var cut := DevelopmentEnd(a) - horizon;
      PoolsAgree(a.trades, b.trades, cooldown, configurations, cut);
      var x, y := ByConfiguration(a.trades, cooldown, configurations), ByConfiguration(b.trades, cooldown, configurations);
      SameNames(x, y, cut);
      MissingDependsOnNames(x, y, configurations);
      WalkForwardIsVisible(x, y, Items(configurations), a.start, DevelopmentEnd(a), horizon, limits.folds, limits.minimumFold);
      if WalkForwardOf(x, Items(configurations), a.start, DevelopmentEnd(a), horizon, limits.folds, limits.minimumFold).Ok? {
        WalkForwardNeedsHorizon(x, Items(configurations), a.start, DevelopmentEnd(a), horizon, limits.folds, limits.minimumFold);
        SplitsAreVisible(x, y, a.start, a.end, horizon);
        ReportsAreVisible(x, y, configurations, a, b, horizon);
      }
    }
  }

  lemma SameNames(a: map<string, seq<Trade>>, b: map<string, seq<Trade>>, cut: int)
    requires AgreeBefore(a, b, cut)
    ensures a.Keys == b.Keys && (a == map[] <==> b == map[])
  {
    EmptyByKeys(a);
    EmptyByKeys(b);
  }

  lemma EmptyByKeys(m: map<string, seq<Trade>>)
    ensures m == map[] <==> m.Keys == {}
  {
  }

  // ----- what a selection guarantees -----

  lemma {:induction false} EntriesAreKept(
    train: map<string, seq<Trade>>, validation: map<string, seq<Trade>>, candidates: seq<Configuration>, rewardR: real, minimum: int, e: Entry)
    ensures e in Entries(train, validation, candidates, rewardR, minimum) <==>
            exists c :: c in candidates
              && Judge(TradesOf(train, c.name), TradesOf(validation, c.name), c, rewardR, minimum) == Kept(e)
  {
    hide Judge;
    if candidates != [] {
      var n := |candidates| - 1;
      EntriesAreKept(train, validation, candidates[..n], rewardR, minimum, e);
      assert forall c :: c in candidates <==> c in candidates[..n] || c == candidates[n];
    }
  }

  /** The entry passed every gate of the selection and summarises the splits it was judged on. */
  ghost predicate Earned(
    train: map<string, seq<Trade>>, validation: map<string, seq<Trade>>, c: Configuration, rewardR: real, minimum: int, e: Entry)
  {
    && ValidCandidate(c) && e.ranked.name == c.name && Threshold(c) == Some(e.threshold)
    && e.train == Summarize(TradesOf(train, c.name), rewardR) && e.validation == Summarize(TradesOf(validation, c.name), rewardR)
    && e.validation.net.Available? && e.validation.net.sampleSize >= minimum && e.validation.net.expectancyR > 0.0
    && e.validation.net.profitFactor.Some?
  }

  lemma KeptIsEarned(
    train: map<string, seq<Trade>>, validation: map<string, seq<Trade>>, c: Configuration, rewardR: real, minimum: int, e: Entry)
    requires Judge(TradesOf(train, c.name), TradesOf(validation, c.name), c, rewardR, minimum) == Kept(e)
    ensures Earned(train, validation, c, rewardR, minimum, e)
  {
    hide Summarize, SelectionKey;
  }

  /** A name chosen on train and validation passed every gate, and no candidate that passes ranks before it. */
  lemma SelectedWeightsAreEarned(
    train: map<string, seq<Trade>>, validation: map<string, seq<Trade>>, candidates: seq<Configuration>, rewardR: real, minimum: int)
    ensures var s := SelectedWeights(train, validation, candidates, rewardR, minimum);
            && (s.name.Some? <==> s.entry.Some?) && s.walkForward.None?
            && (s.name.Some? ==>
                  && s.entry.value.ranked.name == s.name.value
                  && (exists c :: c in candidates && Earned(train, validation, c, rewardR, minimum, s.entry.value))
                  && forall e :: e in Entries(train, validation, candidates, rewardR, minimum) ==> RankedLe(s.entry.value.ranked, e.ranked))
  {
    hide RankedLe, Rejections, Degradation, Judge, Earned;
    var entries := Entries(train, validation, candidates, rewardR, minimum);
    if entries != [] {
      OrderByRank(EntryLe, (e: Entry) => e.ranked);
      SortBySpec(entries, EntryLe);
      var sorted := SortBy(entries, EntryLe);
      var first := sorted[0];
      EntriesAreKept(train, validation, candidates, rewardR, minimum, first);
      var c :| c in candidates && Judge(TradesOf(train, c.name), TradesOf(validation, c.name), c, rewardR, minimum) == Kept(first);
      KeptIsEarned(train, validation, c, rewardR, minimum, first);
      hide Entries;
      forall e | e in entries
        ensures RankedLe(first.ranked, e.ranked)
      {
        assert e in sorted;
        var i :| 0 <= i < |sorted| && sorted[i] == e;
        assert EntryLe(first, first);
        assert i > 0 ==> EntryLe(sorted[0], sorted[i]);
      }
    }
  }

  /** A selected name won both selectors, and its validation sample met the sample, expectancy and profit gates. */
  lemma SelectionIsEarned(report: Report, configurations: seq<Configuration>, limits: Limits)
    requires Calibrated(report, configurations, limits).Ok?
    ensures HorizonOf(report, limits).Some? && HorizonOf(report, limits).value >= 0 && report.start < report.end
    ensures var c, horizon := Calibrated(report, configurations, limits).value, HorizonOf(report, limits).value;
            var byName := ByConfiguration(report.trades, CooldownMs(report.cooldownHours), configurations);
            var train := TrainSplits(byName, report.start, report.end, horizon);
            var validation := ValidationSplits(byName, report.start, report.end, horizon);
            && (c.selected.name.Some? ==>
                  && c.selected.name == c.walkForward.selectedName
                     == SelectedWeights(train, validation, configurations, report.rewardR, limits.minimumValidation).name
                  && c.selected.entry.Some?
                  && exists x :: x in configurations && x.name == c.selected.name.value
                       && Earned(train, validation, x, report.rewardR, limits.minimumValidation, c.selected.entry.value))
            && (c.selected.name.None? ==>
                  || SelectedWeights(train, validation, configurations, report.rewardR, limits.minimumValidation).name.None?
                  || c.walkForward.selectedName
                     != SelectedWeights(train, validation, configurations, report.rewardR, limits.minimumValidation).name)
  {
    hide WalkForwardOf, ByConfiguration, Reports, Summarize, FirstWithoutSplit, SelectedWeights, Entries, Earned,
      RankedLe, TrainSplits, ValidationSplits;
    var horizon := HorizonOf(report, limits).value;
    var byName := ByConfiguration(report.trades, CooldownMs(report.cooldownHours), configurations);
    WalkForwardNeedsHorizon(byName, Items(configurations), report.start, DevelopmentEnd(report), horizon, limits.folds, limits.minimumFold);
    var train := TrainSplits(byName, report.start, report.end, horizon);
    var validation := ValidationSplits(byName, report.start, report.end, horizon);
    SelectedWeightsAreEarned(train, validation, configurations, report.rewardR, limits.minimumValidation);
    EarnedName(train, validation, configurations, report.rewardR, limits.minimumValidation);
  }

  lemma EarnedName(
    train: map<string, seq<Trade>>, validation: map<string, seq<Trade>>, candidates: seq<Configuration>, rewardR: real, minimum: int)
    ensures forall c, e :: c in candidates && Earned(train, validation, c, rewardR, minimum, e) ==> c.name == e.ranked.name
  {
    hide Summarize;
  }

  // ----- the promotion verdict -----

  lemma {:induction false} PoolMembers(trades: seq<Trade>, cooldown: real, configurations: seq<Configuration>, name: string, t: Trade)
    requires name in ByConfiguration(trades, cooldown, configurations)
    requires t in ByConfiguration(trades, cooldown, configurations)[name]
    ensures t in trades
  {
    hide ThresholdTrades;
    var n := |configurations| - 1;
    match Threshold(configurations[n])
    case None => PoolMembers(trades, cooldown, configurations[..n], name, t);
    case Some(threshold) =>
      if name == configurations[n].name {
        ThresholdMembers(trades, cooldown, threshold, t);
      } else {
        PoolMembers(trades, cooldown, configurations[..n], name, t);
      }
  }

  lemma ThresholdMembers(trades: seq<Trade>, cooldown: real, threshold: real, t: Trade)
    requires t in ThresholdTrades(trades, cooldown, threshold)
    ensures t in trades
  {
    var reaching := Reaching(trades, threshold);
    TimeSymbolOrder();
    SortBySpec(reaching, TimeSymbolLe);
    KeptAreGiven(SortBy(reaching, TimeSymbolLe), cooldown);
    FilterMembers(trades, (u: Trade) => Reaches(u, threshold));
  }

  /**
   No calibration permits promotion: the strategy is not equivalent, and over trades with modelled costs the cost gate of
   the holdout refuses as well.
   */
  lemma CalibrationNeverPromotes(report: Report, configurations: seq<Configuration>, limits: Limits)
    requires Calibrated(report, configurations, limits).Ok?
    ensures var c := Calibrated(report, configurations, limits).value;
            && NotEquivalent in c.refusals
            && ((forall t :: t in report.trades ==> Modelled(t)) ==>
                  HoldoutCostsIncomplete in c.refusals || HoldoutCostsModeled in c.refusals)
  {
    hide WalkForwardOf, ByConfiguration, Reports, Summarize, FirstWithoutSplit, SelectedWeights, SplitsOf, HoldoutCostRefusals, Agree,
      SampleRefusals, ValidationCostRefusals, Modelled, SignalsPerDay;
    var c, horizon := Calibrated(report, configurations, limits).value, HorizonOf(report, limits).value;
    var byName := ByConfiguration(report.trades, CooldownMs(report.cooldownHours), configurations);
    WalkForwardNeedsHorizon(byName, Items(configurations), report.start, DevelopmentEnd(report), horizon, limits.folds, limits.minimumFold);
    if forall t :: t in report.trades ==> Modelled(t) {
      HoldoutIsRefused(report, configurations, c.selected.name, horizon);
    }
  }

  lemma HoldoutIsRefused(report: Report, configurations: seq<Configuration>, name: Option<string>, horizon: int)
    requires report.start < report.end && horizon >= 0 && forall t :: t in report.trades ==> Modelled(t)
    ensures var byName := ByConfiguration(report.trades, CooldownMs(report.cooldownHours), configurations);
            var refused := HoldoutCostRefusals(HoldoutOf(byName, name, report, horizon));
            HoldoutCostsIncomplete in refused || HoldoutCostsModeled in refused
  {
    hide ByConfiguration, Summarize, SplitsOf, Modelled;
    var cooldown := CooldownMs(report.cooldownHours);
    var byName := ByConfiguration(report.trades, cooldown, configurations);
    if name.Some? && name.value in byName {
      var holdout := SplitsOf(byName[name.value], report.start, report.end, horizon).holdout;
      forall t | t in holdout ensures Modelled(t) {
        SplitsPartition(byName[name.value], report.start, report.end, horizon, t);
        PoolMembers(report.trades, cooldown, configurations, name.value, t);
      }
      ModelledIsRefused(holdout, report.rewardR);
    }
  }
}
