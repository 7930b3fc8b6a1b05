/**
 What the Score V2 calibration keeps, refuses, selects and says about promotion
 (scripts/calibrate_score_v2.py, scripts/historical_backtest.py).
 */
module ThresholdExactness {
  import opened Common
  import opened Trades
  import opened Metrics
  import opened Replay
  import opened WalkForward
  import opened Promotion
  import opened CalibrationExactness
  import opened WalkForwardExactness
  import opened TriggerExactness
  import Threshold = CalibrateScoreV2

  // ----- the promotion verdict -----

  ghost predicate LossOrNothing(x: Option<real>) { x.Some? ==> x.value <= 0.0 }

  ghost predicate Paid(s: Option<Summary>) { s.Some? && s.value.net.Available? && s.value.net.costBasis == Some("realized") }

  /** When each refusal is due. */
  ghost predicate Due(
    r: Refusal, holdout: Option<Summary>, validation: Option<Summary>, signalsPerDay: real, rewardR: real, equivalent: bool)
  {
    match r
    case NotEquivalent => !equivalent
    case RewardBelowOne => rewardR < 1.0
    case SparseSignals => signalsPerDay < 2.0
    case FewValidation => validation.Some? ==> validation.value.settled < 50
    case ValidationNotPositive => validation.Some? ==> LossOrNothing(validation.value.realizedExpectancy)
    case FewHoldout => holdout.Some? ==> holdout.value.settled < 30
    case LowWinRate => holdout.Some? && holdout.value.winRate.Some? ==> holdout.value.winRate.value < 0.7
    case HoldoutNotPositive => holdout.Some? ==> LossOrNothing(holdout.value.realizedExpectancy)
    case ValidationCostsIncomplete => validation.Some? ==> validation.value.net.Unavailable?
    case ValidationCostsModeled => validation.Some? && validation.value.net.Available? && validation.value.net.costBasis != Some("realized")
    case ValidationNetNotPositive => Paid(validation) && validation.value.net.expectancyR <= 0.0
    case HoldoutCostsIncomplete => holdout.Some? ==> holdout.value.net.Unavailable?
    case HoldoutCostsModeled => holdout.Some? && holdout.value.net.Available? && holdout.value.net.costBasis != Some("realized")
    case HoldoutNetNotPositive => Paid(holdout) && holdout.value.net.expectancyR <= 0.0
    case DeepDrawdown => Paid(holdout) && holdout.value.net.maxDrawdownPct > 20.0
    case LowProfitFactor => Paid(holdout) && (holdout.value.net.profitFactor.Some? ==> holdout.value.net.profitFactor.value < 1.5)
  }

  lemma SamplesDue(holdout: Option<Summary>, validation: Option<Summary>, r: Refusal)
    ensures r in SampleRefusals(holdout, validation) <==>
            r in {FewValidation, ValidationNotPositive, FewHoldout, LowWinRate, HoldoutNotPositive} && Due(r, holdout, validation, 0.0, 0.0, true)
  {
  }

  lemma ValidationCostsDue(holdout: Option<Summary>, validation: Option<Summary>, r: Refusal)
    ensures r in ValidationCostRefusals(validation) <==>
            r in {ValidationCostsIncomplete, ValidationCostsModeled, ValidationNetNotPositive} && Due(r, holdout, validation, 0.0, 0.0, true)
  {
  }

  lemma HoldoutCostsDue(holdout: Option<Summary>, validation: Option<Summary>, r: Refusal)
    ensures r in HoldoutCostRefusals(holdout) <==>
            r in {HoldoutCostsIncomplete, HoldoutCostsModeled, HoldoutNetNotPositive, DeepDrawdown, LowProfitFactor}
            && Due(r, holdout, validation, 0.0, 0.0, true)
  {
  }

  /** A promotion is refused for exactly the reasons that are due. */
  lemma RefusedExactly(
    holdout: Option<Summary>, validation: Option<Summary>, signalsPerDay: real, rewardR: real, equivalent: bool, r: Refusal)
    ensures r in Refusals(holdout, validation, signalsPerDay, rewardR, equivalent) <==>
            Due(r, holdout, validation, signalsPerDay, rewardR, equivalent)
  {
    SamplesDue(holdout, validation, r);
    ValidationCostsDue(holdout, validation, r);
    HoldoutCostsDue(holdout, validation, r);
    hide SampleRefusals, ValidationCostRefusals, HoldoutCostRefusals, Paid, LossOrNothing;
  }

  // ----- candidates and pools -----

  /** No threshold is zero; a threshold is a number in the available range of 75. */
  ghost function ThresholdOf(c: Threshold.Configuration): Option<real> {
    if c.threshold == Threshold.Absent then Some(0.0)
    else if c.threshold.Number? && 0.0 <= c.threshold.value <= 75.0 then Some(c.threshold.value)
    else None
  }

  /** The six approved weights, and a usable threshold. */
  ghost predicate Approved(c: Threshold.Configuration) {
    && c.weights.Keys == {"structural_post_pump", "entry_timing", "execution_microstructure", "derivatives_confirmation",
                          "cross_exchange_confirmation", "same_contract_price_location"}
    && c.weights["structural_post_pump"] == 35.0 && c.weights["entry_timing"] == 20.0 && c.weights["execution_microstructure"] == 20.0
    && c.weights["derivatives_confirmation"] == 15.0 && c.weights["cross_exchange_confirmation"] == 5.0
    && c.weights["same_contract_price_location"] == 5.0
    && ThresholdOf(c).Some?
  }

  lemma ThresholdMeans(c: Threshold.Configuration)
    ensures Threshold.Threshold(c) == ThresholdOf(c)
  {
  }

  lemma WeightNames()
    ensures Threshold.APPROVED_WEIGHTS.Keys ==
            {"structural_post_pump", "entry_timing", "execution_microstructure", "derivatives_confirmation",
             "cross_exchange_confirmation", "same_contract_price_location"}
  {
  }

  lemma WeightValues()
    ensures Threshold.APPROVED_WEIGHTS["structural_post_pump"] == 35.0 && Threshold.APPROVED_WEIGHTS["entry_timing"] == 20.0
    ensures Threshold.APPROVED_WEIGHTS["execution_microstructure"] == 20.0 && Threshold.APPROVED_WEIGHTS["derivatives_confirmation"] == 15.0
    ensures Threshold.APPROVED_WEIGHTS["cross_exchange_confirmation"] == 5.0 && Threshold.APPROVED_WEIGHTS["same_contract_price_location"] == 5.0
  {
    assert |"structural_post_pump"| == 20 && |"entry_timing"| == 12 && |"execution_microstructure"| == 24;
    assert |"derivatives_confirmation"| == 24 && |"cross_exchange_confirmation"| == 27 && |"same_contract_price_location"| == 28;
    assert "derivatives_confirmation"[0] != "execution_microstructure"[0];
  }

  lemma ApprovedMeans(c: Threshold.Configuration)
    ensures Threshold.ValidCandidate(c) <==> Approved(c)
  {
    ThresholdMeans(c);
    WeightNames();
    WeightValues();
    hide Threshold.Threshold, ThresholdOf;
    if Approved(c) {
      forall name | name in c.weights ensures c.weights[name] == Threshold.APPROVED_WEIGHTS[name] {
      }
      assert c.weights == Threshold.APPROVED_WEIGHTS;
    }
  }

  /** Configuration k is the last one of its name with a usable threshold. */
  ghost predicate LastUsable(configurations: seq<Threshold.Configuration>, k: nat, name: string) {
    && k < |configurations| && configurations[k].name == name && ThresholdOf(configurations[k]).Some?
    && forall j :: k < j < |configurations| && configurations[j].name == name ==> ThresholdOf(configurations[j]).None?
  }

  ghost predicate HasPool(configurations: seq<Threshold.Configuration>, name: string) {
    exists c :: c in configurations && c.name == name && ThresholdOf(c).Some?
  }

  lemma {:induction false} PoolNames(trades: seq<Trade>, cooldown: real, configurations: seq<Threshold.Configuration>, name: string)
    ensures name in Threshold.ByConfiguration(trades, cooldown, configurations) <==> HasPool(configurations, name)
  {
    hide Threshold.ThresholdTrades, Threshold.Threshold, ThresholdOf;
    if configurations != [] {
      var n := |configurations| - 1;
      PoolNames(trades, cooldown, configurations[..n], name);
      ThresholdMeans(configurations[n]);
      assert forall c :: c in configurations <==> c in configurations[..n] || c == configurations[n];
    }
  }

  lemma {:induction false} PoolOf(trades: seq<Trade>, cooldown: real, configurations: seq<Threshold.Configuration>, k: nat, name: string)
    requires LastUsable(configurations, k, name)
    ensures name in Threshold.ByConfiguration(trades, cooldown, configurations)
    ensures Threshold.ByConfiguration(trades, cooldown, configurations)[name] ==
            Threshold.ThresholdTrades(trades, cooldown, ThresholdOf(configurations[k]).value)
  {
    hide Threshold.ThresholdTrades, Threshold.Threshold, ThresholdOf;
    var n := |configurations| - 1;
    ThresholdMeans(configurations[n]);
    if k < n { PoolOf(trades, cooldown, configurations[..n], k, name); }
  }

  /** The same of the threshold: kept are pool trades that reach it, a cooldown apart by symbol, and none is dropped without a reason. */
  lemma KeptAtExactly(report: Threshold.Report, configurations: seq<Threshold.Configuration>, k: nat, name: string, t: Trade)
    requires LastUsable(configurations, k, name)
    ensures var kept, cooldown := KeptAt(report, configurations, name), HoursMs(report.cooldownHours);
            var reaches := t.availableScore.Some? && t.availableScore.value >= ThresholdOf(configurations[k]).value;
            && Apart(kept, cooldown)
            && (t in kept ==> t in report.trades && reaches)
            && (t in report.trades && reaches && t !in kept ==> t.timestamp < 0 || exists u :: u in kept && Blocks(u, t, cooldown))
  {
    hide Threshold.ByConfiguration, Threshold.Reaching, ThresholdOf, Blocks, Apart, Replay.ReplayPool;
    var threshold := ThresholdOf(configurations[k]).value;
    CooldownMeans(report.cooldownHours);
    PoolOf(report.trades, CooldownMs(report.cooldownHours), configurations, k, name);
    KeptAtMeans(report.trades, CooldownMs(report.cooldownHours), threshold, t);
    PoolIsApart(Threshold.Reaching(report.trades, threshold), CooldownMs(report.cooldownHours));
  }

  // ----- refusals -----

  /** The outcome horizon: as given, else the report's hold of at least an hour. */
  ghost function Horizon(report: Threshold.Report, limits: Threshold.Limits): Option<int> {
    if limits.horizon.Some? then limits.horizon
    else if report.holdHours.Some? && report.holdHours.value >= 1 then Some(report.holdHours.value * 3_600_000)
    else None
  }

  lemma HorizonMeans(report: Threshold.Report, limits: Threshold.Limits)
    ensures Threshold.HorizonOf(report, limits) == Horizon(report, limits)
  {
  }

  /** The first configuration whose name has no pool. */
  ghost predicate FirstPoolless(configurations: seq<Threshold.Configuration>, k: nat) {
    && k < |configurations| && !HasPool(configurations, configurations[k].name)
    && forall j :: 0 <= j < k ==> HasPool(configurations, configurations[j].name)
  }

  lemma {:induction false} MissingMeans(
    byName: map<string, seq<Trade>>, given: seq<Threshold.Configuration>, configurations: seq<Threshold.Configuration>)
    requires forall name :: name in byName <==> HasPool(configurations, name)
    ensures match Threshold.FirstWithoutSplit(byName, given)
            case None => forall c :: c in given ==> HasPool(configurations, c.name)
            case Some(name) => exists k: nat :: k < |given| && given[k].name == name && !HasPool(configurations, name)
                                 && forall j :: 0 <= j < k ==> HasPool(configurations, given[j].name)
  {
    hide HasPool;
    if given != [] {
      var n := |given| - 1;
      MissingMeans(byName, given[..n], configurations);
      var earlier := Threshold.FirstWithoutSplit(byName, given[..n]);
      if earlier.Some? {
        var k: nat :| k < n && given[..n][k].name == earlier.value && !HasPool(configurations, earlier.value)
                      && forall j :: 0 <= j < k ==> HasPool(configurations, given[..n][j].name);
        assert given[k].name == earlier.value && forall j :: 0 <= j < k ==> given[..n][j] == given[j];
      } else {
        assert forall c :: c in given <==> c in given[..n] || c == given[n];
        assert forall j :: 0 <= j < n ==> given[j] == given[..n][j] && given[..n][j] in given[..n];
      }
    }
  }

  /**
   The calibration refuses, in order, an empty window, an incomplete pool, a missing horizon, a negative horizon over some
   pool, windows it cannot fold, and the first configuration whose name has no usable threshold; nothing else.
   */
  lemma ThresholdRefusesExactly(report: Threshold.Report, configurations: seq<Threshold.Configuration>, limits: Threshold.Limits)
    returns (first: int, width: int)
    ensures limits.folds > 0 ==> Divides(report.start, HoldoutStart(report.start, report.end), limits.folds, 0.5, first, width)
    ensures var result, end := Threshold.Calibrated(report, configurations, limits), HoldoutStart(report.start, report.end);
            if report.start >= report.end then result == Err(Threshold.InvalidReportWindow)
            else if !report.candidatePoolComplete then result == Err(Threshold.NotACompletePool)
            else match Horizon(report, limits)
                 case None => result == Err(Threshold.NoHorizon)
                 case Some(horizon) =>
                   if horizon < 0 && exists c :: c in configurations && ThresholdOf(c).Some?
                     then result == Err(Threshold.BadSplit(InvalidResearchWindow))
                   else if end == report.start then result == Err(Threshold.BadWindows(InvalidWindow))
                   else if horizon < 0 then result == Err(Threshold.BadWindows(InvalidHorizon))
                   else if limits.folds < 2 then result == Err(Threshold.BadWindows(TooFewFolds))
                   else if width <= horizon then result == Err(Threshold.BadWindows(FoldsTooShort))
                   else if exists c :: c in configurations && !HasPool(configurations, c.name)
                     then exists k: nat :: FirstPoolless(configurations, k) && result == Err(Threshold.NoSplit(configurations[k].name))
                   else result.Ok?
  {
    hide Threshold.ByConfiguration, Threshold.Reports, Threshold.SelectedWeights, WalkForwardOf, Windows, Divides, Threshold.HoldoutOf, HoldoutStart,
      Threshold.Agree, Threshold.PromotionOf, Threshold.TrainSplits, Threshold.ValidationSplits, HasPool, ThresholdOf, Threshold.FirstWithoutSplit;
    HorizonMeans(report, limits);
    var end, horizon := HoldoutStart(report.start, report.end), Horizon(report, limits).GetOr(0);
    if report.start < report.end { HoldoutStartInside(report.start, report.end); }
    first, width := WindowsMean(report.start, end, horizon, limits.folds, 0.5);
    var byName := Threshold.ByConfiguration(report.trades, CooldownMs(report.cooldownHours), configurations);
    WalkForwardWindows(byName, Threshold.Items(configurations), report.start, end, horizon, limits.folds, limits.minimumFold);
    forall name ensures name in byName <==> HasPool(configurations, name) {
      PoolNames(report.trades, CooldownMs(report.cooldownHours), configurations, name);
    }
    SomePool(byName, configurations);
    MissingMeans(byName, configurations, configurations);
    DevelopmentEndMeans(report);
  }

  lemma DevelopmentEndMeans(report: Threshold.Report)
    ensures Threshold.DevelopmentEnd(report) == HoldoutStart(report.start, report.end)
  {
  }

  lemma SomePool(byName: map<string, seq<Trade>>, configurations: seq<Threshold.Configuration>)
    requires forall name :: name in byName <==> HasPool(configurations, name)
    ensures byName != map[] <==> exists c :: c in configurations && ThresholdOf(c).Some?
  {
    hide ThresholdOf;
    Threshold.EmptyByKeys(byName);
    if byName != map[] {
      var name :| name in byName;
      assert HasPool(configurations, name);
    }
    if exists c :: c in configurations && ThresholdOf(c).Some? {
      var c :| c in configurations && ThresholdOf(c).Some?;
      assert HasPool(configurations, c.name) && c.name in byName;
    }
  }

  // ----- the selection on training and validation -----

  /** The net performance of a name's kept trades in the validation part, a horizon short of its end. */
  ghost function ValidationAt(report: Threshold.Report, configurations: seq<Threshold.Configuration>, horizon: int, name: string): Performance {
    NetOf(Inside(KeptAt(report, configurations, name), report.start + (report.end - report.start) / 2,
                 HoldoutStart(report.start, report.end) - horizon))
  }

  ghost function WeightStanding(
    report: Threshold.Report, configurations: seq<Threshold.Configuration>, horizon: int, c: Threshold.Configuration): Candidate
  {
    Candidate(1, 1, ValidationAt(report, configurations, horizon, c.name), c.complexity)
  }

  /** An approved configuration, profitable in validation. */
  ghost predicate Admitted(
    report: Threshold.Report, configurations: seq<Threshold.Configuration>, horizon: int, minimum: int, c: Threshold.Configuration)
  {
    c in configurations && Approved(c) && Profitable(ValidationAt(report, configurations, horizon, c.name), minimum)
  }

  /** Configuration c is admitted, and no admitted one stands better; equals go by name. */
  ghost predicate WeightsBest(
    report: Threshold.Report, configurations: seq<Threshold.Configuration>, horizon: int, minimum: int, c: Threshold.Configuration)
  {
    && Admitted(report, configurations, horizon, minimum, c)
    && forall d :: Admitted(report, configurations, horizon, minimum, d) ==>
         BeatsOrTies(WeightStanding(report, configurations, horizon, c), c.name, WeightStanding(report, configurations, horizon, d), d.name)
  }

  /** Why a configuration is rejected, the first reason first. */
  ghost function ReasonOf(c: Threshold.Configuration, net: Performance, minimum: int): Threshold.Rejection {
    if !Approved(c) then Threshold.BadWeights
    else if net.Unavailable? then Threshold.CostsIncomplete
    else if net.sampleSize < minimum then Threshold.InsufficientTrades
    else if net.expectancyR <= 0.0 then Threshold.NotPositive
    else Threshold.UndefinedProfitFactor
  }

  lemma JudgedAs(train: seq<Trade>, validation: seq<Trade>, c: Threshold.Configuration, rewardR: real, minimum: int)
    ensures var verdict := Threshold.Judge(train, validation, c, rewardR, minimum);
            && (verdict.Kept? <==> Approved(c) && Profitable(NetOf(validation), minimum))
            && (verdict.Rejected? ==> verdict.reason == ReasonOf(c, NetOf(validation), minimum))
            && (verdict.Kept? ==>
                  && verdict.entry.ranked == Ranked(SelectionKey(Candidate(1, 1, NetOf(validation), c.complexity)), c.name)
                  && Some(verdict.entry.threshold) == ThresholdOf(c)
                  && verdict.entry.train == Summarize(train, rewardR) && verdict.entry.validation == Summarize(validation, rewardR))
  {
    ApprovedMeans(c);
    ThresholdMeans(c);
    Threshold.ValidHasThreshold(c);
    hide Approved, Threshold.ValidCandidate, Threshold.Threshold, ThresholdOf, PerformanceOf, SelectionKey, Filter, Sum, RealizedReturns, Ratio;
  }

  /** The entry of an admitted configuration. */
  ghost predicate EntryFor(
    report: Threshold.Report, configurations: seq<Threshold.Configuration>, horizon: int, minimum: int,
    c: Threshold.Configuration, e: Threshold.Entry)
  {
    && Admitted(report, configurations, horizon, minimum, c)
    && e.ranked == Ranked(SelectionKey(WeightStanding(report, configurations, horizon, c)), c.name) && Some(e.threshold) == ThresholdOf(c)
    && SummariesFor(report, KeptAt(report, configurations, c.name), horizon, e)
  }

  ghost predicate SummariesFor(report: Threshold.Report, kept: seq<Trade>, horizon: int, e: Threshold.Entry) {
    var half, late := report.start + (report.end - report.start) / 2, HoldoutStart(report.start, report.end);
    SummaryOf(e.train, Until(kept, half - horizon), report.rewardR) && SummaryOf(e.validation, Inside(kept, half, late - horizon), report.rewardR)
  }

  ghost function VerdictOn(
    report: Threshold.Report, configurations: seq<Threshold.Configuration>, horizon: int, minimum: int, c: Threshold.Configuration)
    : Threshold.Verdict
    requires report.start < report.end && horizon >= 0
  {
    var byName := Threshold.ByConfiguration(report.trades, CooldownMs(report.cooldownHours), configurations);
    Threshold.Judge(TradesOf(Threshold.TrainSplits(byName, report.start, report.end, horizon), c.name),
                    TradesOf(Threshold.ValidationSplits(byName, report.start, report.end, horizon), c.name), c, report.rewardR, minimum)
  }

  lemma WeightsVerdict(
    report: Threshold.Report, configurations: seq<Threshold.Configuration>, horizon: int, minimum: int, c: Threshold.Configuration)
    requires report.start < report.end && horizon >= 0 && c in configurations
    ensures var verdict := VerdictOn(report, configurations, horizon, minimum, c);
            && (verdict.Kept? <==> Admitted(report, configurations, horizon, minimum, c))
            && (verdict.Kept? ==> EntryFor(report, configurations, horizon, minimum, c, verdict.entry))
            && (verdict.Rejected? ==> verdict.reason == ReasonOf(c, ValidationAt(report, configurations, horizon, c.name), minimum))
  {
    hide Threshold.ByConfiguration, Threshold.Judge, SplitsOf, Summarize, SummaryOf, PerformanceOf, SelectionKey, Inside, Until, HoldoutStart,
      ThresholdOf, HasPool, Profitable;
    var byName := Threshold.ByConfiguration(report.trades, CooldownMs(report.cooldownHours), configurations);
    var train, validation := Threshold.TrainSplits(byName, report.start, report.end, horizon),
                             Threshold.ValidationSplits(byName, report.start, report.end, horizon);
    JudgedAs(TradesOf(train, c.name), TradesOf(validation, c.name), c, report.rewardR, minimum);
    if Approved(c) {
      ApprovedHasPool(configurations, c);
      PoolNames(report.trades, CooldownMs(report.cooldownHours), configurations, c.name);
      SplitSummaries(byName[c.name], report.start, report.end, horizon, report.rewardR);
      ValidationMeans(byName[c.name], report.start, report.end, horizon);
    }
    hide Approved;
  }

  lemma ApprovedHasPool(configurations: seq<Threshold.Configuration>, c: Threshold.Configuration)
    requires c in configurations && Approved(c)
    ensures HasPool(configurations, c.name)
  {
    hide ThresholdOf;
  }

  lemma FirstWeights(entries: seq<Threshold.Entry>)
    requires entries != []
    ensures |SortBy(entries, Threshold.EntryLe)| > 0 && SortBy(entries, Threshold.EntryLe)[0] in entries
    ensures forall e :: e in entries ==> RankedLe(SortBy(entries, Threshold.EntryLe)[0].ranked, e.ranked)
  {
    hide RankedLe;
    OrderByRank(Threshold.EntryLe, (e: Threshold.Entry) => e.ranked);
    SortBySpec(entries, Threshold.EntryLe);
    var sorted := SortBy(entries, Threshold.EntryLe);
    forall e | e in entries ensures RankedLe(sorted[0].ranked, e.ranked) {
      assert e in sorted;
      var i :| 0 <= i < |sorted| && sorted[i] == e;
      assert Threshold.EntryLe(sorted[0], sorted[i]);
    }
  }

  lemma WeightsBeat(
    report: Threshold.Report, configurations: seq<Threshold.Configuration>, horizon: int, minimum: int,
    c: Threshold.Configuration, d: Threshold.Configuration, e: Threshold.Entry, f: Threshold.Entry)
    requires EntryFor(report, configurations, horizon, minimum, c, e) && EntryFor(report, configurations, horizon, minimum, d, f)
    requires RankedLe(e.ranked, f.ranked)
    ensures BeatsOrTies(WeightStanding(report, configurations, horizon, c), c.name, WeightStanding(report, configurations, horizon, d), d.name)
  {
    hide ValidationAt, SelectionKey, Profitable, RankedLe, Better, Usable, StringLe, SummariesFor, Approved, ThresholdOf;
    ProfitableIsUsable(ValidationAt(report, configurations, horizon, c.name), minimum, c.complexity);
    ProfitableIsUsable(ValidationAt(report, configurations, horizon, d.name), minimum, d.complexity);
    LowerIsNotBetter(WeightStanding(report, configurations, horizon, c), WeightStanding(report, configurations, horizon, d), c.name, d.name);
  }

  ghost function SelectionOf(
    report: Threshold.Report, configurations: seq<Threshold.Configuration>, horizon: int, minimum: int): Threshold.Selected
    requires report.start < report.end && horizon >= 0
  {
    var byName := Threshold.ByConfiguration(report.trades, CooldownMs(report.cooldownHours), configurations);
    Threshold.SelectedWeights(Threshold.TrainSplits(byName, report.start, report.end, horizon),
                              Threshold.ValidationSplits(byName, report.start, report.end, horizon), configurations, report.rewardR, minimum)
  }

  ghost predicate EntriesOf(
    report: Threshold.Report, configurations: seq<Threshold.Configuration>, horizon: int, minimum: int, entries: seq<Threshold.Entry>)
    requires report.start < report.end && horizon >= 0
  {
    forall e :: e in entries <==> exists c :: c in configurations && VerdictOn(report, configurations, horizon, minimum, c) == Threshold.Kept(e)
  }

  lemma SelectionEntries(report: Threshold.Report, configurations: seq<Threshold.Configuration>, horizon: int, minimum: int)
    returns (entries: seq<Threshold.Entry>)
    requires report.start < report.end && horizon >= 0
    ensures EntriesOf(report, configurations, horizon, minimum, entries)
    ensures SelectionOf(report, configurations, horizon, minimum).entry.Some? <==> entries != []
    ensures |SortBy(entries, Threshold.EntryLe)| == |entries|
    ensures entries != [] ==> SelectionOf(report, configurations, horizon, minimum).entry.value == SortBy(entries, Threshold.EntryLe)[0]
    ensures SelectionOf(report, configurations, horizon, minimum).name ==
            if entries == [] then None else Some(SortBy(entries, Threshold.EntryLe)[0].ranked.name)
  {
    hide Threshold.ByConfiguration, Threshold.TrainSplits, Threshold.ValidationSplits, Threshold.Judge, Threshold.Entries, Threshold.Rejections,
      Threshold.Degradation, RankedLe, SortBy;
    var byName := Threshold.ByConfiguration(report.trades, CooldownMs(report.cooldownHours), configurations);
    var train, validation := Threshold.TrainSplits(byName, report.start, report.end, horizon),
                             Threshold.ValidationSplits(byName, report.start, report.end, horizon);
    entries := Threshold.Entries(train, validation, configurations, report.rewardR, minimum);
    OrderByRank(Threshold.EntryLe, (e: Threshold.Entry) => e.ranked);
    SortBySpec(entries, Threshold.EntryLe);
    forall e
      ensures e in entries <==> exists c :: c in configurations && VerdictOn(report, configurations, horizon, minimum, c) == Threshold.Kept(e)
    {
      Threshold.EntriesAreKept(train, validation, configurations, report.rewardR, minimum, e);
    }
  }

  /** The selection on training and validation names the best admitted configuration, under its own entry. */
  lemma WeightsExactly(report: Threshold.Report, configurations: seq<Threshold.Configuration>, horizon: int, minimum: int)
    requires report.start < report.end && horizon >= 0
    ensures var s := SelectionOf(report, configurations, horizon, minimum);
            && (s.name.None? ==> forall c :: !Admitted(report, configurations, horizon, minimum, c))
            && (s.name.Some? ==>
                  && s.entry.Some?
                  && exists c: Threshold.Configuration :: c.name == s.name.value && WeightsBest(report, configurations, horizon, minimum, c)
                       && EntryFor(report, configurations, horizon, minimum, c, s.entry.value))
  {
    hide SelectionOf, VerdictOn, EntryFor, Admitted, BeatsOrTies, WeightStanding, RankedLe, SortBy;
    var entries := SelectionEntries(report, configurations, horizon, minimum);
    forall c | Admitted(report, configurations, horizon, minimum, c)
      ensures exists e :: e in entries && EntryFor(report, configurations, horizon, minimum, c, e)
    {
      AdmittedIsGiven(report, configurations, horizon, minimum, c);
      WeightsVerdict(report, configurations, horizon, minimum, c);
      assert VerdictOn(report, configurations, horizon, minimum, c).entry in entries;
    }
    if entries != [] {
      FirstWeights(entries);
      var first := SortBy(entries, Threshold.EntryLe)[0];
      var c :| c in configurations && VerdictOn(report, configurations, horizon, minimum, c) == Threshold.Kept(first);
      WeightsVerdict(report, configurations, horizon, minimum, c);
      EntryName(report, configurations, horizon, minimum, c, first);
      forall d | Admitted(report, configurations, horizon, minimum, d)
        ensures BeatsOrTies(WeightStanding(report, configurations, horizon, c), c.name, WeightStanding(report, configurations, horizon, d), d.name)
      {
        var e :| e in entries && EntryFor(report, configurations, horizon, minimum, d, e);
        WeightsBeat(report, configurations, horizon, minimum, c, d, first, e);
      }
      assert WeightsBest(report, configurations, horizon, minimum, c);
    }
  }

  lemma AdmittedIsGiven(
    report: Threshold.Report, configurations: seq<Threshold.Configuration>, horizon: int, minimum: int, c: Threshold.Configuration)
    requires Admitted(report, configurations, horizon, minimum, c)
    ensures c in configurations
  {
    hide Approved, ValidationAt, Profitable;
  }

  lemma EntryName(
    report: Threshold.Report, configurations: seq<Threshold.Configuration>, horizon: int, minimum: int,
    c: Threshold.Configuration, e: Threshold.Entry)
    requires EntryFor(report, configurations, horizon, minimum, c, e)
    ensures e.ranked.name == c.name && Admitted(report, configurations, horizon, minimum, c)
  {
    hide Admitted, SummariesFor, SelectionKey, WeightStanding, ThresholdOf;
  }

  lemma WeightsBestIsUnique(
    report: Threshold.Report, configurations: seq<Threshold.Configuration>, horizon: int, minimum: int,
    c: Threshold.Configuration, d: Threshold.Configuration)
    requires WeightsBest(report, configurations, horizon, minimum, c) && WeightsBest(report, configurations, horizon, minimum, d)
    ensures c.name == d.name
  {
    hide Admitted, WeightStanding;
    EachBeats(WeightStanding(report, configurations, horizon, c), c.name, WeightStanding(report, configurations, horizon, d), d.name);
  }

  /** How much less validation earned than training, to four digits and never negative. */
  ghost predicate FallsShort(shown: Option<real>, train: Summary, validation: Summary) {
    && (shown.Some? <==> train.realizedExpectancy.Some? && validation.realizedExpectancy.Some?)
    && (shown.Some? ==>
          var gap := train.realizedExpectancy.value - validation.realizedExpectancy.value;
          Abs(shown.value - (if gap > 0.0 then gap else 0.0)) <= 0.00005)
  }

  lemma DegradationMeans(report: Threshold.Report, configurations: seq<Threshold.Configuration>, horizon: int, minimum: int)
    requires report.start < report.end && horizon >= 0
    ensures var s := SelectionOf(report, configurations, horizon, minimum);
            && (s.name.Some? <==> s.entry.Some?) && s.walkForward.None?
            && (s.entry.Some? ==> FallsShort(s.degradation, s.entry.value.train, s.entry.value.validation))
  {
    hide Threshold.ByConfiguration, Threshold.TrainSplits, Threshold.ValidationSplits, Threshold.Entries, Threshold.Rejections, RankedLe,
      SortBy, Round;
    forall train: Summary, validation: Summary | Threshold.Degradation(train, validation).Some?
      ensures Abs(Round(Threshold.Degradation(train, validation).value, 10000.0) - Threshold.Degradation(train, validation).value) <= 0.00005
    {
      RoundError(Threshold.Degradation(train, validation).value, 10000.0);
    }
  }

  // ----- the calibration -----

  ghost function HorizonIn(report: Threshold.Report, limits: Threshold.Limits): int { Horizon(report, limits).GetOr(0) }

  lemma CalibratedParts(report: Threshold.Report, configurations: seq<Threshold.Configuration>, limits: Threshold.Limits)
    requires Threshold.Calibrated(report, configurations, limits).Ok?
    ensures report.start < report.end && HorizonIn(report, limits) >= 0
    ensures var c, horizon := Threshold.Calibrated(report, configurations, limits).value, HorizonIn(report, limits);
            var byName := Threshold.ByConfiguration(report.trades, CooldownMs(report.cooldownHours), configurations);
            && c.selected == Threshold.Agree(SelectionOf(report, configurations, horizon, limits.minimumValidation), c.walkForward)
            && WalkForwardOf(byName, Threshold.Items(configurations), report.start, HoldoutStart(report.start, report.end), horizon,
                             limits.folds, limits.minimumFold) == Ok(c.walkForward)
            && c.all == Threshold.Reports(byName, configurations, report, horizon)
            && c.refusals == Threshold.PromotionOf(byName, c.selected, c.holdout, report)
  {
    hide WalkForwardOf, Threshold.ByConfiguration, Threshold.Reports, Threshold.FirstWithoutSplit, Threshold.SelectedWeights,
      Threshold.TrainSplits, Threshold.ValidationSplits, Threshold.Agree, Threshold.PromotionOf, Threshold.HoldoutOf;
    HorizonMeans(report, limits);
    var byName := Threshold.ByConfiguration(report.trades, CooldownMs(report.cooldownHours), configurations);
    Threshold.WalkForwardNeedsHorizon(
      byName, Threshold.Items(configurations), report.start, Threshold.DevelopmentEnd(report), HorizonIn(report, limits),
      limits.folds, limits.minimumFold);
  }

  /** The best admitted configuration has this name. */
  ghost predicate BestNamed(
    report: Threshold.Report, configurations: seq<Threshold.Configuration>, horizon: int, minimum: int, name: string)
  {
    exists x: Threshold.Configuration :: x.name == name && WeightsBest(report, configurations, horizon, minimum, x)
  }

  ghost predicate EntryNamed(
    report: Threshold.Report, configurations: seq<Threshold.Configuration>, horizon: int, minimum: int, name: string, e: Threshold.Entry)
  {
    exists x: Threshold.Configuration :: x.name == name && EntryFor(report, configurations, horizon, minimum, x, e)
  }

  lemma BestIsNamed(report: Threshold.Report, configurations: seq<Threshold.Configuration>, horizon: int, minimum: int, name: string)
    requires report.start < report.end && horizon >= 0
    ensures var s := SelectionOf(report, configurations, horizon, minimum);
            && (s.name == Some(name) <==> BestNamed(report, configurations, horizon, minimum, name))
            && (s.name == Some(name) ==> s.entry.Some? && EntryNamed(report, configurations, horizon, minimum, name, s.entry.value))
  {
    hide SelectionOf, WeightsBest, EntryFor, Admitted;
    WeightsExactly(report, configurations, horizon, minimum);
    var s := SelectionOf(report, configurations, horizon, minimum);
    if BestNamed(report, configurations, horizon, minimum, name) {
      var x: Threshold.Configuration :| x.name == name && WeightsBest(report, configurations, horizon, minimum, x);
      BestIsAdmitted(report, configurations, horizon, minimum, x);
      var y: Threshold.Configuration :| y.name == s.name.value && WeightsBest(report, configurations, horizon, minimum, y);
      WeightsBestIsUnique(report, configurations, horizon, minimum, x, y);
    }
  }

  /**
   A name is selected exactly when it is the best admitted configuration and the walk-forward choice; its entry holds the
   threshold and the training and validation summaries of its kept trades, how far validation fell short, and its packet.
   */
  lemma SelectsWeightsExactly(
    report: Threshold.Report, configurations: seq<Threshold.Configuration>, limits: Threshold.Limits, name: string)
    requires Threshold.Calibrated(report, configurations, limits).Ok?
    ensures var c, horizon := Threshold.Calibrated(report, configurations, limits).value, HorizonIn(report, limits);
            && (c.selected.name == Some(name) <==>
                  c.walkForward.selectedName == Some(name) && BestNamed(report, configurations, horizon, limits.minimumValidation, name))
            && (c.selected.name == Some(name) ==>
                  && c.selected.entry.Some?
                  && EntryNamed(report, configurations, horizon, limits.minimumValidation, name, c.selected.entry.value)
                  && FallsShort(c.selected.degradation, c.selected.entry.value.train, c.selected.entry.value.validation)
                  && (name in c.walkForward.packets ==> c.selected.walkForward == Some(c.walkForward.packets[name])))
            && (c.selected.name.None? ==> c.selected.entry.None?)
  {
    hide Threshold.Calibrated, SelectionOf, BestNamed, EntryNamed, FallsShort, WalkForwardOf;
    CalibratedParts(report, configurations, limits);
    BestIsNamed(report, configurations, HorizonIn(report, limits), limits.minimumValidation, name);
    DegradationMeans(report, configurations, HorizonIn(report, limits), limits.minimumValidation);
  }

  lemma BestIsAdmitted(
    report: Threshold.Report, configurations: seq<Threshold.Configuration>, horizon: int, minimum: int, c: Threshold.Configuration)
    requires WeightsBest(report, configurations, horizon, minimum, c)
    ensures Admitted(report, configurations, horizon, minimum, c)
  {
    hide Admitted, BeatsOrTies;
  }

  /** Signals a day of the selected name, over at least one day. */
  ghost function SignalRate(report: Threshold.Report, configurations: seq<Threshold.Configuration>, name: Option<string>): real {
    var count := if name.Some? then |KeptAt(report, configurations, name.value)| else 0;
    if report.end - report.start <= 86_400_000 then count as real
    else count as real / ((report.end - report.start) as real / 86400000.0)
  }

  lemma RateMeans(report: Threshold.Report, configurations: seq<Threshold.Configuration>, name: Option<string>)
    ensures Threshold.SignalsPerDay(Threshold.ByConfiguration(report.trades, CooldownMs(report.cooldownHours), configurations), name, report) ==
            SignalRate(report, configurations, name)
  {
    hide Threshold.ByConfiguration;
  }

  /**
   The promotion of a calibration is refused for exactly the reasons due of its holdout, of the validation of what it
   selected, of the rate of its signals and of the reward, and always for want of equivalence.
   */
  lemma PromotionExactly(report: Threshold.Report, configurations: seq<Threshold.Configuration>, limits: Threshold.Limits, r: Refusal)
    requires Threshold.Calibrated(report, configurations, limits).Ok?
    ensures var c := Threshold.Calibrated(report, configurations, limits).value;
            r in c.refusals <==>
            Due(r, c.holdout, if c.selected.entry.Some? then Some(c.selected.entry.value.validation) else None,
                SignalRate(report, configurations, c.selected.name), report.rewardR, false)
  {
    hide Threshold.Calibrated, SignalRate, Threshold.SignalsPerDay, Due, Refusals, WalkForwardOf, SelectionOf;
    CalibratedParts(report, configurations, limits);
    var c := Threshold.Calibrated(report, configurations, limits).value;
    RateMeans(report, configurations, c.selected.name);
    RefusedExactly(c.holdout, if c.selected.entry.Some? then Some(c.selected.entry.value.validation) else None,
                   SignalRate(report, configurations, c.selected.name), report.rewardR, false, r);
  }

  // ----- what is reported of every configuration -----

  /** Configuration k is the only one of its name. */
  ghost predicate OnlyNamed(configurations: seq<Threshold.Configuration>, k: nat, name: string) {
    && k < |configurations| && configurations[k].name == name
    && forall j :: 0 <= j < |configurations| && j != k ==> configurations[j].name != name
  }

  lemma {:induction false} RejectedIn(
    report: Threshold.Report, configurations: seq<Threshold.Configuration>, given: seq<Threshold.Configuration>, horizon: int, minimum: int,
    k: nat, name: string)
    requires report.start < report.end && horizon >= 0 && given <= configurations && OnlyNamed(configurations, k, name)
    ensures var byName := Threshold.ByConfiguration(report.trades, CooldownMs(report.cooldownHours), configurations);
            var rejected := Threshold.Rejections(Threshold.TrainSplits(byName, report.start, report.end, horizon),
                                                 Threshold.ValidationSplits(byName, report.start, report.end, horizon),
                                                 given, report.rewardR, minimum);
            && (name in rejected <==> k < |given| && !Admitted(report, configurations, horizon, minimum, configurations[k]))
            && (name in rejected ==> rejected[name] == ReasonOf(configurations[k], ValidationAt(report, configurations, horizon, name), minimum))
  {
    hide Threshold.ByConfiguration, Threshold.TrainSplits, Threshold.ValidationSplits, Threshold.Judge, Admitted, ValidationAt, ReasonOf, EntryFor;
    if given != [] {
      var n := |given| - 1;
      assert given[n] in configurations;
      RejectedIn(report, configurations, given[..n], horizon, minimum, k, name);
      WeightsVerdict(report, configurations, horizon, minimum, given[n]);
    }
  }

  lemma SelectionRejects(report: Threshold.Report, configurations: seq<Threshold.Configuration>, horizon: int, minimum: int)
    requires report.start < report.end && horizon >= 0
    ensures var byName := Threshold.ByConfiguration(report.trades, CooldownMs(report.cooldownHours), configurations);
            SelectionOf(report, configurations, horizon, minimum).rejected ==
            Threshold.Rejections(Threshold.TrainSplits(byName, report.start, report.end, horizon),
                                 Threshold.ValidationSplits(byName, report.start, report.end, horizon), configurations, report.rewardR, minimum)
  {
    hide Threshold.ByConfiguration, Threshold.TrainSplits, Threshold.ValidationSplits, Threshold.Entries, Threshold.Rejections,
      Threshold.Degradation, Round, RankedLe, SortBy;
  }

  /** Every configuration that is not admitted is reported with its first reason; the name of the pair with their disagreement. */
  lemma RejectsExactly(
    report: Threshold.Report, configurations: seq<Threshold.Configuration>, limits: Threshold.Limits, k: nat, name: string)
    requires Threshold.Calibrated(report, configurations, limits).Ok? && OnlyNamed(configurations, k, name) && name != "selection"
    ensures var rejected, horizon := Threshold.Calibrated(report, configurations, limits).value.selected.rejected, HorizonIn(report, limits);
            && (name in rejected <==> !Admitted(report, configurations, horizon, limits.minimumValidation, configurations[k]))
            && (name in rejected ==>
                  rejected[name] == ReasonOf(configurations[k], ValidationAt(report, configurations, horizon, name), limits.minimumValidation))
  {
    hide Threshold.Calibrated, SelectionOf, Admitted, ValidationAt, ReasonOf, WalkForwardOf, Threshold.Rejections;
    CalibratedParts(report, configurations, limits);
    var horizon, minimum := HorizonIn(report, limits), limits.minimumValidation;
    SelectionRejects(report, configurations, horizon, minimum);
    RejectedIn(report, configurations, configurations, horizon, minimum, k, name);
  }

  /** The selectors are said to disagree exactly when they do, unless a configuration bears the very key. */
  lemma DisagreementMeans(report: Threshold.Report, configurations: seq<Threshold.Configuration>, limits: Threshold.Limits)
    requires Threshold.Calibrated(report, configurations, limits).Ok? && forall c :: c in configurations ==> c.name != "selection"
    ensures var c, horizon := Threshold.Calibrated(report, configurations, limits).value, HorizonIn(report, limits);
            var rejected := c.selected.rejected;
            && ("selection" in rejected <==>
                  (match c.walkForward.selectedName
                   case None => exists name :: BestNamed(report, configurations, horizon, limits.minimumValidation, name)
                   case Some(name) => !BestNamed(report, configurations, horizon, limits.minimumValidation, name)))
            && ("selection" in rejected ==> rejected["selection"] == Threshold.SelectorsDisagree)
  {
    hide Threshold.Calibrated, SelectionOf, BestNamed, EntryNamed, WalkForwardOf, Threshold.Rejections;
    CalibratedParts(report, configurations, limits);
    var c, horizon, minimum := Threshold.Calibrated(report, configurations, limits).value, HorizonIn(report, limits), limits.minimumValidation;
    var s := SelectionOf(report, configurations, horizon, minimum);
    forall name ensures s.name == Some(name) <==> BestNamed(report, configurations, horizon, minimum, name) {
      BestIsNamed(report, configurations, horizon, minimum, name);
    }
    SelectionRejects(report, configurations, horizon, minimum);
    var byName := Threshold.ByConfiguration(report.trades, CooldownMs(report.cooldownHours), configurations);
    RejectedAreGiven(Threshold.TrainSplits(byName, report.start, report.end, horizon),
                     Threshold.ValidationSplits(byName, report.start, report.end, horizon), configurations, report.rewardR, minimum, "selection");
  }

  lemma {:induction false} RejectedAreGiven(
    train: map<string, seq<Trade>>, validation: map<string, seq<Trade>>, candidates: seq<Threshold.Configuration>, rewardR: real, minimum: int,
    name: string)
    requires forall c :: c in candidates ==> c.name != name
    ensures name !in Threshold.Rejections(train, validation, candidates, rewardR, minimum)
  {
    hide Threshold.Judge;
    if candidates != [] {
      var n := |candidates| - 1;
      assert candidates[n] in candidates && forall c :: c in candidates[..n] ==> c in candidates;
      RejectedAreGiven(train, validation, candidates[..n], rewardR, minimum, name);
    }
  }

  /** Configuration k is the last one of its name. */
  ghost predicate LastAt(configurations: seq<Threshold.Configuration>, k: nat, name: string) {
    k < |configurations| && configurations[k].name == name && forall j :: k < j < |configurations| ==> configurations[j].name != name
  }

  lemma {:induction false} WeightsReported(
    byName: map<string, seq<Trade>>, configurations: seq<Threshold.Configuration>, report: Threshold.Report, horizon: int, k: nat, name: string)
    requires report.start < report.end && horizon >= 0 && LastAt(configurations, k, name)
    ensures var all := Threshold.Reports(byName, configurations, report, horizon);
            name in all && all[name].weights == configurations[k].weights && all[name].threshold == ThresholdOf(configurations[k])
  {
    hide SplitsOf, Summarize, ThresholdOf, Threshold.Threshold;
    var n := |configurations| - 1;
    ThresholdMeans(configurations[n]);
    if k < n { WeightsReported(byName, configurations[..n], report, horizon, k, name); }
  }

  lemma ItemsAt(configurations: seq<Threshold.Configuration>, k: nat, name: string)
    requires LastAt(configurations, k, name)
    ensures LastItem(Threshold.Items(configurations), k, name) && Threshold.Items(configurations)[k].complexity == configurations[k].complexity
  {
  }

  /** The walk-forward choice is made over the asked folds of the second half of development, a horizon short of their ends. */
  lemma WalkForwardAtExactly(
    report: Threshold.Report, configurations: seq<Threshold.Configuration>, limits: Threshold.Limits, k: nat, name: string)
    returns (windows: seq<Window>)
    requires Threshold.Calibrated(report, configurations, limits).Ok? && LastAt(configurations, k, name)
    ensures Windows(report.start, HoldoutStart(report.start, report.end), HorizonIn(report, limits), limits.folds, 0.5) == Ok(windows)
    ensures var c := Threshold.Calibrated(report, configurations, limits).value;
            var byName := Threshold.ByConfiguration(report.trades, CooldownMs(report.cooldownHours), configurations);
            && name in c.walkForward.packets
            && PacketShown(c.walkForward.packets[name], KeptAt(report, configurations, name), windows, limits.minimumFold,
                           configurations[k].complexity)
            && (c.walkForward.selectedName.Some? <==>
                  exists i :: i in Threshold.Items(configurations) && Stable(TradesOf(byName, i.name), windows, limits.minimumFold))
            && (c.walkForward.selectedName.Some? ==> exists best: Item ::
                  best.name == c.walkForward.selectedName.value
                  && BestStanding(byName, Threshold.Items(configurations), windows, limits.minimumFold, best))
            && name in c.all && c.all[name].weights == configurations[k].weights && c.all[name].threshold == ThresholdOf(configurations[k])
  {
    hide Threshold.Calibrated, WalkForwardOf, Threshold.ByConfiguration, Threshold.Reports, SelectionOf, Windows, PacketShown, BestStanding, Stable,
      Mapped, ThresholdOf, Threshold.PromotionOf;
    CalibratedParts(report, configurations, limits);
    var end, horizon := HoldoutStart(report.start, report.end), HorizonIn(report, limits);
    var byName, items := Threshold.ByConfiguration(report.trades, CooldownMs(report.cooldownHours), configurations), Threshold.Items(configurations);
    WalkForwardMeans(byName, items, report.start, end, horizon, limits.folds, limits.minimumFold, name);
    SelectedMeans(byName, items, report.start, end, horizon, limits.folds, limits.minimumFold);
    windows := Windows(report.start, end, horizon, limits.folds, 0.5).value;
    ItemsAt(configurations, k, name);
    WeightsReported(byName, configurations, report, horizon, k, name);
    BestIsStable(byName, items, windows, limits.minimumFold);
  }
}
