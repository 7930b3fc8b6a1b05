/**
 From data to selection: the reports of two pool backtests whose data agree up to the end of development are calibrated
 to the same selection (scripts/historical_backtest.py, scripts/calibrate_waterfall.py, scripts/calibrate_score_v2.py).
 */
module Pipeline {
  import opened Common
  import opened Trades
  import opened Replay
  import opened Backtest
  import opened Causality
  import opened PoolReplay
  import CalibrateWaterfall
  import CalibrateScoreV2
  import Promotion

  function JobOf(run: Backtest.Run, d: Data): Job { Job(RunOver(run, d), d.rows, d.macro) }

  /** One job of a report for every run, over its own data. */
  function Jobs(runs: seq<Backtest.Run>, data: seq<Data>): (r: seq<Job>)
    requires |runs| == |data|
    ensures |r| == |runs|
  {
    seq(|runs|, i requires 0 <= i < |runs| => JobOf(runs[i], data[i]))
  }

  /** What the pool backtest of all symbols reports. */
  ghost function PoolTrades(runs: seq<Backtest.Run>, data: seq<Data>): seq<Trade>
    requires |runs| == |data| && PoolJobs(Jobs(runs, data))
  {
    PoolReport(Jobs(runs, data))
  }

  /** The data sets of every symbol show the same at time x. */
  ghost predicate SameUntil(a: seq<Data>, b: seq<Data>, x: int)
    requires |a| == |b|
  {
    forall i :: 0 <= i < |a| ==> SameDataUntil(a[i], b[i], x)
  }

  ghost predicate HoldAtMost(runs: seq<Backtest.Run>, horizon: int) {
    forall i :: 0 <= i < |runs| ==> runs[i].holdHours * 3_600_000 <= horizon
  }

  lemma OneSymbol(run: Backtest.Run, d: Data, e: Data, x: int, cut: int)
    requires PoolJob(JobOf(run, d)) && PoolJob(JobOf(run, e))
    requires SameDataUntil(d, e, x) && cut <= x - run.holdHours * 3_600_000
    ensures Visible(PoolOf(JobOf(run, d)), cut) == Visible(PoolOf(JobOf(run, e)), cut)
  {
    hide Evaluated, SameDataUntil, Visible;
    assert PoolRun(RunOver(run, d)) == RunOver(PoolRun(run), d);
    assert PoolRun(RunOver(run, e)) == RunOver(PoolRun(run), e);
    SettledTradesAreCausal(PoolRun(run), d, e, x, cut);
  }

  /** Before a cut one holding horizon earlier than x the two reports hold the same trades, outcomes and costs included. */
  lemma {:induction false} ReportsAgree(runs: seq<Backtest.Run>, a: seq<Data>, b: seq<Data>, x: int, cut: int)
    requires |runs| == |a| == |b| && SameUntil(a, b, x) && PoolJobs(Jobs(runs, a)) && PoolJobs(Jobs(runs, b))
    requires HoldAtMost(runs, x - cut)
    ensures Visible(PoolTrades(runs, a), cut) == Visible(PoolTrades(runs, b), cut)
  {
    hide SameDataUntil, PoolJob, PoolOf, Visible, JobOf;
    if runs != [] {
      var n := |runs| - 1;
      assert Jobs(runs, a)[..n] == Jobs(runs[..n], a[..n]) && Jobs(runs, b)[..n] == Jobs(runs[..n], b[..n]);
      ReportsAgree(runs[..n], a[..n], b[..n], x, cut);
      assert Jobs(runs, a)[n] == JobOf(runs[n], a[n]) && Jobs(runs, b)[n] == JobOf(runs[n], b[n]);
      OneSymbol(runs[n], a[n], b[n], x, cut);
      VisibleAppend(PoolTrades(runs[..n], a[..n]), PoolOf(Jobs(runs, a)[n]), cut);
      VisibleAppend(PoolTrades(runs[..n], b[..n]), PoolOf(Jobs(runs, b)[n]), cut);
    }
  }

  lemma VisibleAppend(s: seq<Trade>, t: seq<Trade>, cut: int)
    ensures Visible(s + t, cut) == Visible(s, cut) + Visible(t, cut)
  {
    FilterAppend(s, t, (u: Trade) => Before(u, cut));
  }

  /**
   Selection reads no data past development. When the data of every symbol agree on what was observed by the end of
   development, the trigger calibration of the two pool reports selects the same configuration for the same reasons:
   inner validation, walk-forward assessment and agreement are equal, and so is any refusal.
   */
  lemma DevelopmentDataDecideTrigger(
    runs: seq<Backtest.Run>, a: seq<Data>, b: seq<Data>, report: CalibrateWaterfall.Report,
    configurations: seq<CalibrateWaterfall.Configuration>, minimumValidation: int, minimumFold: int)
    requires |runs| == |a| == |b| && SameUntil(a, b, CalibrateWaterfall.DevelopmentEnd(report))
    requires PoolJobs(Jobs(runs, a)) && PoolJobs(Jobs(runs, b))
    requires report.holdHours.Some? ==> HoldAtMost(runs, CalibrateWaterfall.HorizonMs(report))
    ensures var x := CalibrateWaterfall.Calibrated(report.(trades := PoolTrades(runs, a)), configurations, minimumValidation, minimumFold);
            var y := CalibrateWaterfall.Calibrated(report.(trades := PoolTrades(runs, b)), configurations, minimumValidation, minimumFold);
            match x
            case Err(_) => x == y
            case Ok(c) =>
              && y.Ok? && c.selectedName == y.value.selectedName && c.agreed == y.value.agreed
              && c.inner == y.value.inner && c.walkForward == y.value.walkForward
  {
    hide CalibrateWaterfall.Calibrated, PoolTrades, SameUntil, PoolJobs, HoldAtMost, Visible;
    var p, q := report.(trades := PoolTrades(runs, a)), report.(trades := PoolTrades(runs, b));
    if report.holdHours.Some? {
      ReportsAgree(runs, a, b, CalibrateWaterfall.DevelopmentEnd(report), CalibrateWaterfall.VisibleEnd(p));
    }
    CalibrateWaterfall.HoldoutCannotInfluenceSelection(p, q, configurations, minimumValidation, minimumFold);
  }

  /** The same for the threshold calibration of Score V2. */
  lemma DevelopmentDataDecideThreshold(
    runs: seq<Backtest.Run>, a: seq<Data>, b: seq<Data>, report: CalibrateScoreV2.Report,
    configurations: seq<CalibrateScoreV2.Configuration>, limits: CalibrateScoreV2.Limits)
    requires |runs| == |a| == |b| && SameUntil(a, b, CalibrateScoreV2.DevelopmentEnd(report))
    requires PoolJobs(Jobs(runs, a)) && PoolJobs(Jobs(runs, b))
    requires CalibrateScoreV2.HorizonOf(report, limits).Some? ==> HoldAtMost(runs, CalibrateScoreV2.HorizonOf(report, limits).value)
    ensures var x := CalibrateScoreV2.Calibrated(report.(trades := PoolTrades(runs, a)), configurations, limits);
            var y := CalibrateScoreV2.Calibrated(report.(trades := PoolTrades(runs, b)), configurations, limits);
            match x
            case Err(_) => x == y
            case Ok(c) => y.Ok? && c.selected == y.value.selected && c.walkForward == y.value.walkForward
  {
    hide CalibrateScoreV2.Calibrated, PoolTrades, SameUntil, PoolJobs, HoldAtMost, Visible;
    var p, q := report.(trades := PoolTrades(runs, a)), report.(trades := PoolTrades(runs, b));
    var horizon := CalibrateScoreV2.HorizonOf(report, limits);
    if horizon.Some? {
      ReportsAgree(runs, a, b, CalibrateScoreV2.DevelopmentEnd(report), CalibrateScoreV2.DevelopmentEnd(report) - horizon.value);
    }
    CalibrateScoreV2.HoldoutCannotInfluenceSelection(p, q, configurations, limits);
  }

  // ----- nothing modelled is promoted -----

  lemma {:induction false} PoolIsModelled(runs: seq<Backtest.Run>, data: seq<Data>, t: Trade)
    requires |runs| == |data| && PoolJobs(Jobs(runs, data)) && t in PoolTrades(runs, data)
    ensures Promotion.Modelled(t)
  {
    hide Promotion.Modelled, SignalsFrom;
    if runs != [] {
      var n := |runs| - 1;
      assert Jobs(runs, data)[..n] == Jobs(runs[..n], data[..n]);
      if t in PoolTrades(runs[..n], data[..n]) {
        PoolIsModelled(runs[..n], data[..n], t);
      } else {
        var job := Jobs(runs, data)[n];
        assert PoolJob(job) && t in PoolOf(job);
        JobIsModelled(job, t);
      }
    }
  }

  lemma JobIsModelled(job: Job, t: Trade)
    requires PoolJob(job) && t in PoolOf(job)
    ensures Promotion.Modelled(t)
  {
    hide SignalsFrom, Promotion.Modelled;
    EmittedTradesAreSound(PoolRun(job.run), job.rows, job.macro, FirstIndex(job.run), 0, t);
  }

  /**
   Research alone never promotes. Whatever the data, the calibration of a pool backtest is refused promotion twice: the
   strategy is not equivalent to the live one, and the holdout's net figures, if complete, rest on modelled costs.
   */
  lemma ResearchNeverPromotes(
    runs: seq<Backtest.Run>, data: seq<Data>, report: CalibrateScoreV2.Report,
    configurations: seq<CalibrateScoreV2.Configuration>, limits: CalibrateScoreV2.Limits)
    requires |runs| == |data| && PoolJobs(Jobs(runs, data))
    requires CalibrateScoreV2.Calibrated(report.(trades := PoolTrades(runs, data)), configurations, limits).Ok?
    ensures var refusals := CalibrateScoreV2.Calibrated(report.(trades := PoolTrades(runs, data)), configurations, limits).value.refusals;
            && Promotion.NotEquivalent in refusals
            && (Promotion.HoldoutCostsIncomplete in refusals || Promotion.HoldoutCostsModeled in refusals)
  {
    hide CalibrateScoreV2.Calibrated, PoolTrades, PoolJobs, Promotion.Modelled;
    forall t | t in PoolTrades(runs, data) ensures Promotion.Modelled(t) {
      PoolIsModelled(runs, data, t);
    }
    CalibrateScoreV2.CalibrationNeverPromotes(report.(trades := PoolTrades(runs, data)), configurations, limits);
  }
}
