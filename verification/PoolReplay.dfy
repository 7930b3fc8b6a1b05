/**
 The candidate pool refines the direct run: emitting every candidate and later filtering by threshold and replaying the
 cooldown (scripts/calibrate_score_v2.py) gives the trades the loop emits with that threshold and its own cooldown
 (scripts/historical_backtest.py), up to the pool flag.
 */
module PoolReplay {
  import opened Common
  import opened Candles
  import opened Trades
  import opened Signals
  import opened Replay
  import opened Backtest
  import opened CalibrateScoreV2
  import Settlement
  import Slippage
  import Fees
  import Funding

  /** The same run, emitting its pool. */
  function PoolRun(run: Run): Run { run.(emitPool := true, threshold := 0.0) }

  function Unflag(t: Trade): Trade { t.(poolEvent := false) }

  function UnflagAll(trades: seq<Trade>): (r: seq<Trade>)
    ensures |r| == |trades|
  {
    seq(|trades|, i requires 0 <= i < |trades| => Unflag(trades[i]))
  }

  function CooldownOf(run: Run): real { CooldownMs(Some(run.cooldownHours as real)) }

  /** Forward replay of one symbol's trades with entries blocked until `until`. */
  function Greedy(trades: seq<Trade>, until: real, cooldown: real): seq<Trade> {
    if trades == [] then []
    else if trades[0].timestamp as real < until then Greedy(trades[1..], until, cooldown)
    else [trades[0]] + Greedy(trades[1..], trades[0].timestamp as real + cooldown, cooldown)
  }

  function StepAll(state: State, trades: seq<Trade>, cooldown: real): State
    decreases |trades|
  {
    if trades == [] then state else StepAll(Step(state, trades[0], cooldown), trades[1..], cooldown)
  }

  lemma {:induction false} RunAppend(a: seq<Trade>, b: seq<Trade>, cooldown: real)
    ensures Replay.Run(a + b, cooldown) == StepAll(Replay.Run(a, cooldown), b, cooldown)
    decreases |b|
  {
    hide Step;
    if b == [] {
      assert a + b == a;
    } else {
      assert (a + [b[0]])[..|a|] == a;
      RunAppend(a + [b[0]], b[1..], cooldown);
      assert a + b == a + [b[0]] + b[1..];
    }
  }

  lemma {:induction false} OneSymbolIsGreedy(state: State, trades: seq<Trade>, symbol: string, cooldown: real)
    requires forall t :: t in trades ==> t.symbol == symbol
    ensures StepAll(state, trades, cooldown).kept == state.kept + Greedy(trades, CooldownEnd(state.until, symbol), cooldown)
    decreases |trades|
  {
    if trades != [] {
      assert trades[0] in trades;
      assert forall t :: t in trades[1..] ==> t in trades;
      var next := Step(state, trades[0], cooldown);
      assert next == (if trades[0].timestamp as real < CooldownEnd(state.until, symbol) then state
                      else State(state.kept + [trades[0]], state.until[symbol := trades[0].timestamp as real + cooldown]));
      hide Step;
      OneSymbolIsGreedy(Step(state, trades[0], cooldown), trades[1..], symbol, cooldown);
    }
  }

  /** For one symbol the calibrator's replay is the forward replay from time zero. */
  lemma ReplayIsGreedy(trades: seq<Trade>, symbol: string, cooldown: real)
    requires forall t :: t in trades ==> t.symbol == symbol
    ensures Replayed(trades, cooldown) == Greedy(trades, 0.0, cooldown)
  {
    hide StepAll, Greedy;
    RunAppend([], trades, cooldown);
    assert [] + trades == trades;
    OneSymbolIsGreedy(State([], map[]), trades, symbol, cooldown);
  }

  lemma ReachingCons(t: Trade, rest: seq<Trade>, threshold: real)
    ensures Reaching([t] + rest, threshold) == (if Reaches(t, threshold) then [t] else []) + Reaching(rest, threshold)
  {
    FilterAppend([t], rest, (x: Trade) => Reaches(x, threshold));
    assert [t][..0] == [];
  }

  /** A pool packet is the direct packet with its flag set. */
  lemma PoolPacket(run: Run, rows: seq<Candle>, i: nat, d: Decision)
    requires i + 1 < |rows| && rows[i + 1].open != 0.0 && run.stopPct > 0.0 && !run.emitPool
    requires Build(PoolRun(run), rows, i, d).Ok?
    ensures Build(run, rows, i, d) == Ok(Unflag(Build(PoolRun(run), rows, i, d).value))
    ensures Build(PoolRun(run), rows, i, d).value.availableScore == d.gate.availableScore
    ensures Build(PoolRun(run), rows, i, d).value.timestamp == d.closeTime
  {
    hide Settlement.Settle, Slippage.CostR, Fees.FeeR, Funding.ShortFundingR, Funding.ChargesBetween, Round, NetOf, SignalEvidence, ChannelSetup;
    var resolution := Settlement.Settle(rows, i + 1, run.stopPct, run.targetPct, HorizonBars(run));
    if resolution.Ok? {
      SameCosts(run, d.closeTime, rows[i + 1].open, resolution.value, Round(resolution.value.r, 1000000.0));
    }
  }

  lemma SameCosts(run: Run, closeTime: int, entry: real, resolution: Settlement.Resolution, gross: real)
    ensures CostsOf(PoolRun(run), closeTime, entry, resolution, gross) == CostsOf(run, closeTime, entry, resolution, gross)
  {
    hide Slippage.CostR, Fees.FeeR, Funding.ShortFundingR, Funding.ChargesBetween, Round, NetOf;
  }

  ghost predicate Replayable(run: Run, rows: seq<Candle>) {
    && Tradable(rows) && run.stopPct > 0.0 && run.triggerInterval > 0 && run.holdHours >= 1
    && run.study.derivativesFilter == ScoreV2 && !run.emitPool && run.cooldownHours >= 1
  }

  ghost predicate InWindow(run: Run, closeTime: int) { run.signalStart.None? || closeTime >= run.signalStart.value }

  /** The packet the pool holds for candle i, if any. */
  ghost predicate InPool(run: Run, rows: seq<Candle>, macro: Option<seq<seq<Candle>>>, i: nat)
    requires i < |rows|
  {
    Decide(run.study, rows, macro, i).Some? && InWindow(run, CloseTime(rows[i]))
  }

  /** One step of the pool run: it emits every decision inside the window. */
  lemma PoolStep(run: Run, rows: seq<Candle>, macro: Option<seq<seq<Candle>>>, i: nat, poolUntil: int) returns (packet: seq<Trade>)
    requires Replayable(run, rows) && i < |rows| - HorizonBars(run)
    requires SignalsFrom(PoolRun(run), rows, macro, i, poolUntil).Ok?
    ensures var rest := SignalsFrom(PoolRun(run), rows, macro, i + run.triggerInterval, poolUntil);
            rest.Ok? && SignalsFrom(PoolRun(run), rows, macro, i, poolUntil) == Ok(packet + rest.value)
    ensures if InPool(run, rows, macro, i)
            then |packet| == 1 && packet[0].timestamp == CloseTime(rows[i])
                 && packet[0].availableScore == Decide(run.study, rows, macro, i).value.gate.availableScore
                 && rows[i + 1].open != 0.0
                 && Build(run, rows, i, Decide(run.study, rows, macro, i).value) == Ok(Unflag(packet[0]))
            else packet == []
  {
    hide SignalsFrom, Decide, Build, Tradable;
    LoopStep(PoolRun(run), rows, macro, i, poolUntil);
    DecisionTime(run.study, rows, macro, i);
    if InPool(run, rows, macro, i) {
      var decision := Decide(run.study, rows, macro, i).value;
      PoolPacket(run, rows, i, decision);
      packet := [Build(PoolRun(run), rows, i, decision).value];
    } else {
      packet := [];
      ExtendNothing(SignalsFrom(PoolRun(run), rows, macro, i + run.triggerInterval, poolUntil));
    }
  }

  /** One step of the direct run, told from the pool packet. */
  lemma DirectStep(run: Run, rows: seq<Candle>, macro: Option<seq<seq<Candle>>>, i: nat, until: int, packet: seq<Trade>)
    requires Replayable(run, rows) && i < |rows| - HorizonBars(run)
    requires if InPool(run, rows, macro, i)
             then |packet| == 1 && packet[0].timestamp == CloseTime(rows[i])
                  && packet[0].availableScore == Decide(run.study, rows, macro, i).value.gate.availableScore
                  && rows[i + 1].open != 0.0
                  && Build(run, rows, i, Decide(run.study, rows, macro, i).value) == Ok(Unflag(packet[0]))
             else packet == []
    ensures var next := i + run.triggerInterval;
            if packet != [] && Reaches(packet[0], run.threshold) && packet[0].timestamp >= until
            then SignalsFrom(run, rows, macro, i, until) ==
                 Prepend(Unflag(packet[0]), SignalsFrom(run, rows, macro, next, packet[0].timestamp + run.cooldownHours * 3_600_000))
            else SignalsFrom(run, rows, macro, i, until) == SignalsFrom(run, rows, macro, next, until)
  {
    hide SignalsFrom, Decide, Build, Tradable, Prepend;
    LoopStep(run, rows, macro, i, until);
  }

  /** From any candle and any pending cooldown, the direct run emits the forward replay of what the pool holds from there. */
  lemma {:induction false} DirectIsReplayFrom(run: Run, rows: seq<Candle>, macro: Option<seq<seq<Candle>>>, i: nat, until: int, poolUntil: int)
    requires Replayable(run, rows)
    requires SignalsFrom(PoolRun(run), rows, macro, i, poolUntil).Ok?
    ensures var pool := SignalsFrom(PoolRun(run), rows, macro, i, poolUntil).value;
            SignalsFrom(run, rows, macro, i, until) == Ok(UnflagAll(Greedy(Reaching(pool, run.threshold), until as real, CooldownOf(run))))
    decreases |rows| - i
  {
    hide SignalsFrom, Decide, Build, Tradable, Reaching, InPool, Greedy, CooldownMs;
    if i >= |rows| - HorizonBars(run) {
      LoopEnd(run, rows, macro, i, until);
      LoopEnd(PoolRun(run), rows, macro, i, poolUntil);
      ReachingNothing(run.threshold, until as real, CooldownOf(run));
    } else {
      var packet := PoolStep(run, rows, macro, i, poolUntil);
      DirectStep(run, rows, macro, i, until, packet);
      var next := i + run.triggerInterval;
      var rest := SignalsFrom(PoolRun(run), rows, macro, next, poolUntil).value;
      var reaches := packet != [] && Reaches(packet[0], run.threshold);
      var emits := reaches && packet[0].timestamp >= until;
      var after := if emits then packet[0].timestamp + run.cooldownHours * 3_600_000 else until;
      DirectIsReplayFrom(run, rows, macro, next, after, poolUntil);
      if packet == [] {
        assert packet + rest == rest;
      } else {
        ReachingCons(packet[0], rest, run.threshold);
        assert packet == [packet[0]];
        GreedyStep(packet[0], Reaching(rest, run.threshold), reaches, until, after, run.cooldownHours, CooldownOf(run));
      }
    }
  }

  lemma ReachingNothing(threshold: real, until: real, cooldown: real)
    ensures UnflagAll(Greedy(Reaching([], threshold), until, cooldown)) == []
  {
  }

  lemma GreedyStep(packet: Trade, rest: seq<Trade>, reaches: bool, until: int, after: int, hours: int, cooldown: real)
    requires hours >= 1 && cooldown == CooldownMs(Some(hours as real))
    requires after == if reaches && packet.timestamp >= until then packet.timestamp + hours * 3_600_000 else until
    ensures var trades := (if reaches then [packet] else []) + rest;
            if reaches && packet.timestamp >= until
            then UnflagAll(Greedy(trades, until as real, cooldown)) == [Unflag(packet)] + UnflagAll(Greedy(rest, after as real, cooldown))
            else UnflagAll(Greedy(trades, until as real, cooldown)) == UnflagAll(Greedy(rest, after as real, cooldown))
  {
    var trades := (if reaches then [packet] else []) + rest;
    assert cooldown == hours as real * 3600000.0;
    assert (hours * 3_600_000) as real == hours as real * 3600000.0;
    if reaches {
      assert trades[1..] == rest;
    } else {
      assert trades == rest;
    }
  }

  ghost predicate StrictlyLater(trades: seq<Trade>) {
    forall i, j :: 0 <= i < j < |trades| ==> trades[i].timestamp < trades[j].timestamp
  }

  /** A run emits its own symbol's trades in strictly increasing time. */
  lemma {:induction false} EmittedInOrder(run: Run, rows: seq<Candle>, macro: Option<seq<seq<Candle>>>, i: nat, until: int)
    requires Contiguous(rows) && Tradable(rows) && run.stopPct > 0.0 && run.targetPct >= -run.stopPct
    requires run.triggerInterval > 0 && run.holdHours >= 1 && SignalsFrom(run, rows, macro, i, until).Ok?
    ensures StrictlyLater(SignalsFrom(run, rows, macro, i, until).value)
    ensures forall t :: t in SignalsFrom(run, rows, macro, i, until).value ==> t.symbol == run.symbol
    decreases |rows| - i
  {
    hide SignalsFrom, Decide, Build, MeetsThreshold, Skipped, Sound;
    var trades := SignalsFrom(run, rows, macro, i, until).value;
    forall t | t in trades ensures t.symbol == run.symbol {
      EmittedTradesAreSound(run, rows, macro, i, until, t);
    }
    if i >= |rows| - HorizonBars(run) {
      LoopEnd(run, rows, macro, i, until);
    } else {
      LoopStep(run, rows, macro, i, until);
      var decision, closeTime := Decide(run.study, rows, macro, i), CloseTime(rows[i]);
      var skip := Skipped(run, closeTime, until) || decision.None? || !MeetsThreshold(run, decision.value);
      var next := if skip || run.emitPool then until else closeTime + run.cooldownHours * 3_600_000;
      EmittedInOrder(run, rows, macro, i + run.triggerInterval, next);
      if !skip {
        DecisionTime(run.study, rows, macro, i);
        BuiltTradeIsSound(run, rows, i, decision.value);
        var rest := SignalsFrom(run, rows, macro, i + run.triggerInterval, next).value;
        forall k | 0 <= k < |rest| ensures rest[k].timestamp > closeTime {
          EmittedTradesAreSound(run, rows, macro, i + run.triggerInterval, next, rest[k]);
          assert rows[i].ts < rows[i + run.triggerInterval].ts;
        }
      }
    }
  }

  lemma InOrderIsSorted(trades: seq<Trade>)
    requires StrictlyLater(trades)
    ensures SortBy(trades, TimeSymbolLe) == trades
  {
    SortBySorted(trades, TimeSymbolLe);
  }

  /** One symbol, whole run: threshold and cooldown replayed over the pool give the direct run's trades. */
  lemma PoolReplayIsDirect(run: Run, rows: seq<Candle>, macro: Option<seq<seq<Candle>>>)
    requires Contiguous(rows) && Tradable(rows) && run.stopPct > 0.0 && run.targetPct >= -run.stopPct
    requires run.study.derivativesFilter == ScoreV2 && !run.emitPool && ConfigurationError(run) == None
    requires Evaluated(PoolRun(run), rows, macro).Ok?
    ensures Evaluated(run, rows, macro) ==
            Ok(UnflagAll(ThresholdTrades(Evaluated(PoolRun(run), rows, macro).value, CooldownOf(run), run.threshold)))
  {
    hide SignalsFrom;
    var pool := Evaluated(PoolRun(run), rows, macro).value;
    var passing := Reaching(pool, run.threshold);
    DirectIsReplayFrom(run, rows, macro, FirstIndex(run), 0, 0);
    EmittedInOrder(PoolRun(run), rows, macro, FirstIndex(run), 0);
    FilterMembers(pool, (t: Trade) => Reaches(t, run.threshold));
    InOrderIsSorted(pool);
    TimeSymbolOrder();
    FilterSortBy(pool, TimeSymbolLe, (t: Trade) => Reaches(t, run.threshold));
    ReplayIsGreedy(passing, run.symbol, CooldownOf(run));
  }

  // ----- all symbols at once -----

  /** One symbol's share of a report. */
  datatype Job = Job(run: Run, rows: seq<Candle>, macro: Option<seq<seq<Candle>>>)

  /** The job's pool run succeeds. */
  ghost predicate PoolJob(job: Job) {
    && Contiguous(job.rows) && Tradable(job.rows) && job.run.stopPct > 0.0 && job.run.targetPct >= -job.run.stopPct
    && Evaluated(PoolRun(job.run), job.rows, job.macro).Ok?
  }

  ghost predicate PoolJobs(jobs: seq<Job>) { forall k :: 0 <= k < |jobs| ==> PoolJob(jobs[k]) }

  /** And the direct run is one that a threshold on the score gates. */
  ghost predicate ValidJob(job: Job) {
    PoolJob(job) && job.run.study.derivativesFilter == ScoreV2 && !job.run.emitPool && ConfigurationError(job.run) == None
  }

  ghost predicate ValidJobs(jobs: seq<Job>) { forall k :: 0 <= k < |jobs| ==> ValidJob(jobs[k]) }

  ghost function PoolOf(job: Job): seq<Trade>
    requires PoolJob(job)
  {
    Evaluated(PoolRun(job.run), job.rows, job.macro).value
  }

  /** results.extend(evaluate(...)) over the selected symbols. */
  ghost function PoolReport(jobs: seq<Job>): seq<Trade>
    requires PoolJobs(jobs)
  {
    if jobs == [] then [] else PoolReport(jobs[..|jobs| - 1]) + PoolOf(jobs[|jobs| - 1])
  }

  ghost predicate DistinctSymbols(jobs: seq<Job>) {
    forall i, j :: 0 <= i < j < |jobs| ==> jobs[i].run.symbol != jobs[j].run.symbol
  }

  lemma PoolHasOneSymbol(job: Job, symbol: string)
    requires PoolJob(job)
    ensures OnlySymbol(PoolOf(job), symbol) == if symbol == job.run.symbol then PoolOf(job) else []
  {
    hide SignalsFrom;
    EmittedInOrder(PoolRun(job.run), job.rows, job.macro, FirstIndex(job.run), 0);
    if symbol == job.run.symbol {
      FilterAll(PoolOf(job), (t: Trade) => OfSymbol(t, symbol));
    } else {
      FilterNone(PoolOf(job), (t: Trade) => OfSymbol(t, symbol));
    }
  }

  /** With distinct symbols, a symbol's candidates in the report are those of its own job. */
  lemma {:induction false} ShareOfReport(jobs: seq<Job>, k: nat)
    requires PoolJobs(jobs)
    requires DistinctSymbols(jobs) && k < |jobs|
    ensures OnlySymbol(PoolReport(jobs), jobs[k].run.symbol) == PoolOf(jobs[k])
  {
    hide PoolJob, PoolOf;
    var n := |jobs| - 1;
    var symbol := jobs[k].run.symbol;
    FilterAppend(PoolReport(jobs[..n]), PoolOf(jobs[n]), (t: Trade) => OfSymbol(t, symbol));
    PoolHasOneSymbol(jobs[n], symbol);
    if k < n {
      ShareOfReport(jobs[..n], k);
      assert jobs[..n][k] == jobs[k];
    } else {
      NoShare(jobs[..n], symbol);
    }
  }

  lemma {:induction false} NoShare(jobs: seq<Job>, symbol: string)
    requires PoolJobs(jobs)
    requires forall k :: 0 <= k < |jobs| ==> jobs[k].run.symbol != symbol
    ensures OnlySymbol(PoolReport(jobs), symbol) == []
  {
    hide PoolJob, PoolOf;
    if jobs != [] {
      var n := |jobs| - 1;
      NoShare(jobs[..n], symbol);
      FilterAppend(PoolReport(jobs[..n]), PoolOf(jobs[n]), (t: Trade) => OfSymbol(t, symbol));
      PoolHasOneSymbol(jobs[n], symbol);
    }
  }

  /** Filtering by threshold, sorting and replaying a whole report keeps each symbol's own replay. */
  lemma SymbolShareOfReplay(trades: seq<Trade>, symbol: string, cooldown: real, threshold: real)
    ensures OnlySymbol(ThresholdTrades(trades, cooldown, threshold), symbol) ==
            ThresholdTrades(OnlySymbol(trades, symbol), cooldown, threshold)
  {
    var mine, reaches := (t: Trade) => OfSymbol(t, symbol), (t: Trade) => Reaches(t, threshold);
    SymbolsAreIndependent(SortBy(Reaching(trades, threshold), TimeSymbolLe), symbol, cooldown);
    TimeSymbolOrder();
    FilterSortBy(Reaching(trades, threshold), TimeSymbolLe, mine);
    var both := (t: Trade) => OfSymbol(t, symbol) && Reaches(t, threshold);
    FilterFilter(trades, mine, reaches, both);
    FilterFilter(trades, reaches, mine, both);
  }

  /**
   Pool replay refines the direct run. In a pool report over distinct symbols, what the calibrator keeps of a symbol at
   a threshold is what that symbol's direct run emits with the same threshold and cooldown, up to the pool flag.
   */
  lemma ReportReplayIsDirect(jobs: seq<Job>, k: nat)
    requires ValidJobs(jobs)
    requires DistinctSymbols(jobs) && k < |jobs|
    ensures var job := jobs[k];
            Evaluated(job.run, job.rows, job.macro) ==
            Ok(UnflagAll(OnlySymbol(ThresholdTrades(PoolReport(jobs), CooldownOf(job.run), job.run.threshold), job.run.symbol)))
  {
    var job := jobs[k];
    ShareOfReport(jobs, k);
    SymbolShareOfReplay(PoolReport(jobs), job.run.symbol, CooldownOf(job.run), job.run.threshold);
    PoolReplayIsDirect(job.run, job.rows, job.macro);
  }
}
