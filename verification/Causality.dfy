/** What a whole backtest run emits depends only on the data observed by then (scripts/historical_backtest.py). */
module Causality {
  import opened Common
  import opened Candles
  import opened Trades
  import opened Signals
  import opened Derivatives
  import opened Replay
  import opened Backtest
  import Funding
  import Settlement
  import Slippage
  import Fees

  /** Everything one run reads: candles, market regime candles, archived metrics and funding. */
  datatype Data = Data(
    rows: seq<Candle>, macro: Option<seq<seq<Candle>>>, archive: Option<Archive>, funding: Option<seq<Funding.Funding>>)

  /** The run over these data; without an archive it consults no derivatives at all. */
  function RunOver(run: Run, d: Data): Run {
    run.(study := run.study.(derivatives := if d.archive.Some? then Some(PointInTime(d.archive.value, d.funding)) else None),
         funding := d.funding)
  }

  function Emitted(run: Run, d: Data): Result<seq<Trade>, Failure>
    requires Tradable(d.rows) && run.stopPct > 0.0
  {
    Evaluated(RunOver(run, d), d.rows, d.macro)
  }

  /** Two data sets show the same at time x; what either holds afterwards is its own. */
  ghost predicate SameDataUntil(d: Data, e: Data, x: int) {
    && Contiguous(d.rows) && Contiguous(e.rows) && SameUntil(d.rows, e.rows, x)
    && SameMacroUntil(d.macro, e.macro, x)
    && (d.archive.Some? <==> e.archive.Some?)
    && (d.archive.Some? ==> SameArchiveUntil(d.archive.value, e.archive.value, x))
    && SameFundingUntil(d.funding, e.funding, x)
  }

  /** Every field of a packet that is not its outcome, exit or cost. */
  datatype EntryView = EntryView(
    symbol: string, timestamp: int, evidence: Option<map<string, map<string, bool>>>, availableScore: Option<real>,
    poolEvent: bool, facts: EntryFacts)

  function ViewOf(t: Trade): EntryView {
    EntryView(t.symbol, t.timestamp, t.evidence, t.availableScore, t.poolEvent, t.facts)
  }

  function Views(trades: seq<Trade>): (r: seq<EntryView>)
    ensures |r| == |trades|
  {
    seq(|trades|, i requires 0 <= i < |trades| => ViewOf(trades[i]))
  }

  lemma BuiltView(run: Run, rows: seq<Candle>, i: nat, d: Decision)
    requires i + 1 < |rows| && rows[i + 1].open != 0.0 && run.stopPct > 0.0 && Build(run, rows, i, d).Ok?
    ensures ViewOf(Build(run, rows, i, d).value) ==
            EntryView(run.symbol, d.closeTime, Some(SignalEvidence(d.checks)), d.gate.availableScore, run.emitPool, FactsOf(run, d))
  {
    hide Settlement.Settle, CostsOf, SignalEvidence, FactsOf, Round;
  }

  lemma FirstView(t: Trade, rest: seq<Trade>, x: int)
    ensures Views(Visible([t] + rest, x)) == (if t.timestamp < x then [ViewOf(t)] else []) + Views(Visible(rest, x))
  {
    FirstVisible(t, rest, x);
  }

  lemma FirstVisible(t: Trade, rest: seq<Trade>, x: int)
    ensures Visible([t] + rest, x) == (if t.timestamp < x then [t] else []) + Visible(rest, x)
  {
    FilterAppend([t], rest, (u: Trade) => Before(u, x));
    assert [t][..0] == [];
  }

  // ----- earlier agreement -----

  /** How many candles of a contiguous list are closed by time x. */
  lemma {:induction false} SomeClosed(rows: seq<Candle>, x: int) returns (k: nat)
    requires Contiguous(rows)
    ensures ClosedBy(rows, k, x)
  {
    if rows == [] {
      k := 0;
    } else if CloseTime(rows[|rows| - 1]) <= x {
      k := |rows|;
      assert forall i :: 0 <= i < |rows| ==> rows[i].ts <= rows[|rows| - 1].ts;
    } else {
      var n := |rows| - 1;
      ContiguousPrefix(rows, n);
      k := SomeClosed(rows[..n], x);
      assert forall i :: 0 <= i < n ==> rows[..n][i] == rows[i];
    }
  }

  /** Agreement at a time implies agreement at every earlier time. */
  lemma SameUntilEarlier(a: seq<Candle>, b: seq<Candle>, x: int, y: int)
    requires Contiguous(a) && Contiguous(b) && SameUntil(a, b, x) && y <= x
    ensures SameUntil(a, b, y)
  {
    var k: nat :| ClosedBy(a, k, x) && ClosedBy(b, k, x) && a[..k] == b[..k];
    var m := SomeClosed(a, y);
    if k < |a| { assert CloseTime(a[k]) > x; }
    assert a[..m] == a[..k][..m] && b[..m] == b[..k][..m];
    forall i | 0 <= i < |b| ensures if i < m then CloseTime(b[i]) <= y else CloseTime(b[i]) > y {
      if i < k { assert b[i] == b[..k][i] == a[..k][i] == a[i]; }
    }
    assert ClosedBy(b, m, y);
  }

  lemma SameMacroEarlier(p: Option<seq<seq<Candle>>>, q: Option<seq<seq<Candle>>>, x: int, y: int)
    requires SameMacroUntil(p, q, x) && y <= x
    ensures SameMacroUntil(p, q, y)
  {
    if p.Some? && q.Some? {
      forall i | 0 <= i < |p.value| ensures Contiguous(p.value[i]) && Contiguous(q.value[i]) && SameUntil(p.value[i], q.value[i], y) {
        SameUntilEarlier(p.value[i], q.value[i], x, y);
      }
    }
  }

  lemma SameDataEarlier(d: Data, e: Data, x: int, y: int)
    requires SameDataUntil(d, e, x) && y <= x
    ensures SameDataUntil(d, e, y)
  {
    hide Contiguous, SameUntil, SameMacroUntil, SameArchiveUntil, SameFundingUntil;
    SameUntilEarlier(d.rows, e.rows, x, y);
    SameMacroEarlier(d.macro, e.macro, x, y);
    if d.archive.Some? { SameArchiveEarlier(d.archive.value, e.archive.value, x, y); }
    SameFundingEarlier(d.funding, e.funding, x, y);
  }

  /** The candles both data sets show by time x. */
  lemma SharedCandles(a: seq<Candle>, b: seq<Candle>, x: int) returns (n: nat)
    requires SameUntil(a, b, x)
    ensures ClosedBy(a, n, x) && ClosedBy(b, n, x) && a[..n] == b[..n]
  {
    n :| ClosedBy(a, n, x) && ClosedBy(b, n, x) && a[..n] == b[..n];
  }

  lemma ClosedAtBar(rows: seq<Candle>, n: nat, i: nat)
    requires Contiguous(rows) && i < |rows| && ClosedBy(rows, n, CloseTime(rows[i]))
    ensures n == i + 1
  {
    if i + 1 < |rows| { assert rows[i + 1].ts > rows[i].ts; }
  }

  lemma SharedPrefix(a: seq<Candle>, b: seq<Candle>, n: nat, j: nat)
    requires j < n <= |a| && n <= |b| && a[..n] == b[..n]
    ensures a[..j + 1] == b[..j + 1] && a[j] == b[j]
  {
    assert a[..j + 1] == a[..n][..j + 1] && b[..j + 1] == b[..n][..j + 1];
    assert a[j] == a[..n][j] && b[j] == b[..n][j];
  }

  /** At every shared bar the two runs decide alike. */
  lemma DecisionsAgree(run: Run, d: Data, e: Data, n: nat, x: int, j: nat)
    requires SameDataUntil(d, e, x) && ClosedBy(d.rows, n, x) && ClosedBy(e.rows, n, x) && d.rows[..n] == e.rows[..n] && j < n
    ensures Decide(RunOver(run, d).study, d.rows, d.macro, j) == Decide(RunOver(run, e).study, e.rows, e.macro, j)
  {
    hide Contiguous, SameUntil, SameMacroUntil, SameArchiveUntil, SameFundingUntil, Decide, PointInTime;
    SharedPrefix(d.rows, e.rows, n, j);
    SameDataEarlier(d, e, x, CloseTime(d.rows[j]));
    if d.archive.Some? {
      NoLookaheadWithDerivatives(
        run.study, d.rows, e.rows, d.macro, e.macro, j, d.archive.value, e.archive.value, d.funding, e.funding);
    } else {
      NoLookahead(RunOver(run, d).study, d.rows, e.rows, d.macro, e.macro, j);
    }
  }

  ghost predicate Runnable(run: Run, rows: seq<Candle>) {
    && Contiguous(rows) && Tradable(rows)
    && run.triggerInterval > 0 && run.stopPct > 0.0 && run.targetPct >= -run.stopPct && run.holdHours >= 1
  }

  /** From bar j on, nothing emitted is visible before the bar's close. */
  lemma LaterIsInvisible(run: Run, rows: seq<Candle>, macro: Option<seq<seq<Candle>>>, j: nat, until: int, cut: int)
    requires Runnable(run, rows) && SignalsFrom(run, rows, macro, j, until).Ok?
    requires j < |rows| - HorizonBars(run) ==> cut <= CloseTime(rows[j])
    ensures Visible(SignalsFrom(run, rows, macro, j, until).value, cut) == []
  {
    var trades := SignalsFrom(run, rows, macro, j, until).value;
    forall t | t in trades ensures !Before(t, cut) {
      EmittedTradesAreSound(run, rows, macro, j, until, t);
    }
    FilterNone(trades, (t: Trade) => Before(t, cut));
  }

  // ----- entries -----

  /**
   From any loop position, two runs whose decisions agree on the first n candles, which both share, emit the same
   entries before a time no later bar closes by, whatever the later data and the outcomes are.
   */
  lemma {:induction false} EntriesAreCausal(run: Run, d: Data, e: Data, n: nat, x: int, j: nat, until: int)
    requires Runnable(run, d.rows) && Runnable(run, e.rows)
    requires SameDataUntil(d, e, x) && ClosedBy(d.rows, n, x) && ClosedBy(e.rows, n, x) && d.rows[..n] == e.rows[..n]
    requires n <= |d.rows| - HorizonBars(run) && n <= |e.rows| - HorizonBars(run)
    requires SignalsFrom(RunOver(run, d), d.rows, d.macro, j, until).Ok? && SignalsFrom(RunOver(run, e), e.rows, e.macro, j, until).Ok?
    ensures Views(Visible(SignalsFrom(RunOver(run, d), d.rows, d.macro, j, until).value, x + 1)) ==
            Views(Visible(SignalsFrom(RunOver(run, e), e.rows, e.macro, j, until).value, x + 1))
    decreases |d.rows| - j
  {
    hide SignalsFrom, Decide, Build, SameDataUntil, Contiguous, Tradable, ViewOf, Views, Visible, PointInTime, FactsOf, SignalEvidence;
    var r, s := RunOver(run, d), RunOver(run, e);
    if j >= n {
      LaterIsInvisible(r, d.rows, d.macro, j, until, x + 1);
      LaterIsInvisible(s, e.rows, e.macro, j, until, x + 1);
    } else {
      LoopStep(r, d.rows, d.macro, j, until);
      LoopStep(s, e.rows, e.macro, j, until);
      DecisionsAgree(run, d, e, n, x, j);
      SharedPrefix(d.rows, e.rows, n, j);
      var decision, closeTime := Decide(r.study, d.rows, d.macro, j), CloseTime(d.rows[j]);
      if Skipped(r, closeTime, until) || decision.None? || !MeetsThreshold(r, decision.value) {
        EntriesAreCausal(run, d, e, n, x, j + run.triggerInterval, until);
      } else {
        var next := if run.emitPool then until else closeTime + run.cooldownHours * 3_600_000;
        EntriesAreCausal(run, d, e, n, x, j + run.triggerInterval, next);
        SameView(run, d, e, j, decision.value);
        FirstView(Build(r, d.rows, j, decision.value).value, SignalsFrom(r, d.rows, d.macro, j + run.triggerInterval, next).value, x + 1);
        FirstView(Build(s, e.rows, j, decision.value).value, SignalsFrom(s, e.rows, e.macro, j + run.triggerInterval, next).value, x + 1);
      }
    }
  }

  lemma SameView(run: Run, d: Data, e: Data, j: nat, decision: Decision)
    requires j + 1 < |d.rows| && j + 1 < |e.rows| && d.rows[j + 1].open != 0.0 && e.rows[j + 1].open != 0.0 && run.stopPct > 0.0
    requires Build(RunOver(run, d), d.rows, j, decision).Ok? && Build(RunOver(run, e), e.rows, j, decision).Ok?
    ensures var t, u := Build(RunOver(run, d), d.rows, j, decision).value, Build(RunOver(run, e), e.rows, j, decision).value;
            ViewOf(t) == ViewOf(u) && t.timestamp == u.timestamp
  {
    BuiltView(RunOver(run, d), d.rows, j, decision);
    BuiltView(RunOver(run, e), e.rows, j, decision);
    hide Build, PointInTime, SignalEvidence;
  }

  /**
   No lookahead, for the whole evaluation. Two data sets that agree on every candle closed, every metrics row archived
   and every funding observation made by bar i's close, each with a full holding horizon of candles behind the bar, get
   the same entries up to that close, whatever either of them holds afterwards.
   */
  lemma EvaluationIsCausal(run: Run, d: Data, e: Data, i: nat)
    requires Tradable(d.rows) && Tradable(e.rows) && run.stopPct > 0.0 && run.targetPct >= -run.stopPct
    requires Emitted(run, d).Ok? && Emitted(run, e).Ok?
    requires 0 <= HorizonBars(run) && i < |d.rows| - HorizonBars(run) && i < |e.rows| - HorizonBars(run)
    requires SameDataUntil(d, e, CloseTime(d.rows[i]))
    ensures Views(Visible(Emitted(run, d).value, CloseTime(d.rows[i]) + 1)) ==
            Views(Visible(Emitted(run, e).value, CloseTime(d.rows[i]) + 1))
  {
    hide SignalsFrom, SameMacroUntil, SameArchiveUntil, SameFundingUntil, SameUntil, PointInTime;
    var n := SharedCandles(d.rows, e.rows, CloseTime(d.rows[i]));
    ClosedAtBar(d.rows, n, i);
    EntriesAreCausal(run, d, e, n, CloseTime(d.rows[i]), FirstIndex(run), 0);
  }

  // ----- whole trades -----

  /** Every bar closing before the cut has its whole holding horizon within the first n candles. */
  ghost predicate SettledBy(run: Run, rows: seq<Candle>, n: nat, cut: int) {
    forall i :: 0 <= i < |rows| && i < |rows| - HorizonBars(run) && CloseTime(rows[i]) < cut ==> i + HorizonBars(run) < n
  }

  /** The two runs agree on the charges of every window that ends with the first n candles. */
  ghost predicate SameChargesUntil(a: Option<seq<Funding.Funding>>, b: Option<seq<Funding.Funding>>, x: int) {
    forall start, end :: end <= x ==> Funding.ChargesBetween(a, start, end) == Funding.ChargesBetween(b, start, end)
  }

  lemma SameCharges(a: Option<seq<Funding.Funding>>, b: Option<seq<Funding.Funding>>, x: int)
    requires SameFundingUntil(a, b, x)
    ensures SameChargesUntil(a, b, x)
  {
    hide Funding.ChargesBetween, SameFundingUntil;
    forall start, end | end <= x ensures Funding.ChargesBetween(a, start, end) == Funding.ChargesBetween(b, start, end) {
      ChargesAreVisible(a, b, x, start, end);
    }
  }

  lemma SameCosts(run: Run, d: Data, e: Data, x: int, closeTime: int, entry: real, resolution: Settlement.Resolution, gross: real)
    requires d.archive.Some? <==> e.archive.Some?
    requires SameChargesUntil(d.funding, e.funding, x) && resolution.fundingCutoff <= x
    ensures CostsOf(RunOver(run, d), closeTime, entry, resolution, gross) == CostsOf(RunOver(run, e), closeTime, entry, resolution, gross)
  {
    hide Funding.ChargesBetween, Slippage.CostR, Fees.FeeR, Funding.ShortFundingR, Round, NetOf, PointInTime;
    assert Funding.ChargesBetween(d.funding, closeTime, resolution.fundingCutoff)
        == Funding.ChargesBetween(e.funding, closeTime, resolution.fundingCutoff);
  }

  /** A packet reads only the horizon behind its entry and the charges until its exit: shared ones give the same packet. */
  lemma SameBuild(run: Run, d: Data, e: Data, n: nat, x: int, i: nat, decision: Decision)
    requires Contiguous(d.rows) && ClosedBy(d.rows, n, x) && ClosedBy(e.rows, n, x) && d.rows[..n] == e.rows[..n]
    requires d.archive.Some? <==> e.archive.Some?
    requires SameChargesUntil(d.funding, e.funding, x)
    requires i + HorizonBars(run) < n && run.holdHours >= 1 && d.rows[i + 1].open != 0.0 && run.stopPct > 0.0
    ensures i + 1 < n && e.rows[i + 1] == d.rows[i + 1]
    ensures Build(RunOver(run, d), d.rows, i, decision) == Build(RunOver(run, e), e.rows, i, decision)
  {
    var horizon := HorizonBars(run);
    hide CostsOf, SignalEvidence, Stages, ChannelSetup, Settlement.SettleHeld, Round, SameChargesUntil, PointInTime;
    SharedPrefix(d.rows, e.rows, n, i + 1);
    SliceOfPrefix(d.rows, n, i + 1, i + 1 + horizon);
    SliceOfPrefix(e.rows, n, i + 1, i + 1 + horizon);
    assert Settlement.Held(d.rows, i + 1, horizon) == Settlement.Held(e.rows, i + 1, horizon);
    var resolution := Settlement.Settle(d.rows, i + 1, run.stopPct, run.targetPct, horizon);
    assert resolution == Settlement.Settle(e.rows, i + 1, run.stopPct, run.targetPct, horizon);
    if resolution.Ok? {
      Settlement.ExitsWithinHorizon(d.rows, i + 1, run.stopPct, run.targetPct, horizon);
      assert CloseTime(d.rows[i + horizon]) <= x;
      SameCosts(run, d, e, x, decision.closeTime, d.rows[i + 1].open, resolution.value, Round(resolution.value.r, 1000000.0));
    }
  }

  /** The two runs decide alike at every bar whose horizon lies within the first n candles. */
  ghost predicate SameDecisions(run: Run, d: Data, e: Data, n: nat) {
    && n <= |d.rows| && n <= |e.rows|
    && forall j :: 0 <= j < n && j + HorizonBars(run) < n ==>
         Decide(RunOver(run, d).study, d.rows, d.macro, j) == Decide(RunOver(run, e).study, e.rows, e.macro, j)
  }

  /**
   From any loop position, two runs that share the first n candles, their decisions on them and the charges until the
   last of them closes emit the same trades, outcomes and costs included, before any cut by which no later candle
   matters. A history that ends with the shared candles cannot fail on them.
   */
  lemma {:induction false} TradesAreCausal(run: Run, d: Data, e: Data, n: nat, x: int, cut: int, j: nat, until: int)
    requires Runnable(run, d.rows) && Runnable(run, e.rows)
    requires ClosedBy(d.rows, n, x) && ClosedBy(e.rows, n, x) && d.rows[..n] == e.rows[..n]
    requires SameDecisions(run, d, e, n) && SameChargesUntil(d.funding, e.funding, x) && (d.archive.Some? <==> e.archive.Some?)
    requires SettledBy(run, d.rows, n, cut) && SettledBy(run, e.rows, n, cut)
    requires SignalsFrom(RunOver(run, d), d.rows, d.macro, j, until).Ok?
    requires |e.rows| == n || SignalsFrom(RunOver(run, e), e.rows, e.macro, j, until).Ok?
    ensures SignalsFrom(RunOver(run, e), e.rows, e.macro, j, until).Ok?
    ensures Visible(SignalsFrom(RunOver(run, d), d.rows, d.macro, j, until).value, cut) ==
            Visible(SignalsFrom(RunOver(run, e), e.rows, e.macro, j, until).value, cut)
    decreases |d.rows| - j
  {
    hide SignalsFrom, Decide, Build, SameChargesUntil, Contiguous, Tradable, Visible, PointInTime, MeetsThreshold, Skipped;
    var r, s := RunOver(run, d), RunOver(run, e);
    if j + HorizonBars(run) >= n {
      if |e.rows| == n { LoopEnd(s, e.rows, e.macro, j, until); }
      LaterIsInvisible(r, d.rows, d.macro, j, until, cut);
      LaterIsInvisible(s, e.rows, e.macro, j, until, cut);
    } else {
      LoopStep(r, d.rows, d.macro, j, until);
      LoopStep(s, e.rows, e.macro, j, until);
      SharedPrefix(d.rows, e.rows, n, j);
      SameSettings(run, d, e);
      var decision, closeTime := Decide(r.study, d.rows, d.macro, j), CloseTime(d.rows[j]);
      if Skipped(r, closeTime, until) || decision.None? || !MeetsThreshold(r, decision.value) {
        TradesAreCausal(run, d, e, n, x, cut, j + run.triggerInterval, until);
      } else {
        var next := if run.emitPool then until else closeTime + run.cooldownHours * 3_600_000;
        SameBuild(run, d, e, n, x, j, decision.value);
        TradesAreCausal(run, d, e, n, x, cut, j + run.triggerInterval, next);
        var trade := Build(r, d.rows, j, decision.value).value;
        FirstVisible(trade, SignalsFrom(r, d.rows, d.macro, j + run.triggerInterval, next).value, cut);
        FirstVisible(trade, SignalsFrom(s, e.rows, e.macro, j + run.triggerInterval, next).value, cut);
      }
    }
  }

  lemma SameSettings(run: Run, d: Data, e: Data)
    ensures forall x: int, until: int :: Skipped(RunOver(run, d), x, until) == Skipped(RunOver(run, e), x, until)
    ensures forall c: Decision :: MeetsThreshold(RunOver(run, d), c) == MeetsThreshold(RunOver(run, e), c)
  {
    hide PointInTime;
  }

  lemma SharedDecisions(run: Run, d: Data, e: Data, n: nat, shared: nat, x: int)
    requires SameDataUntil(d, e, x) && ClosedBy(d.rows, shared, x) && ClosedBy(e.rows, shared, x) && d.rows[..shared] == e.rows[..shared]
    requires n <= |d.rows| && n <= |e.rows| && n - HorizonBars(run) <= shared
    ensures SameDecisions(run, d, e, n)
  {
    hide Decide, SameDataUntil, PointInTime;
    forall j | 0 <= j < n && j + HorizonBars(run) < n
      ensures Decide(RunOver(run, d).study, d.rows, d.macro, j) == Decide(RunOver(run, e).study, e.rows, e.macro, j)
    {
      DecisionsAgree(run, d, e, shared, x, j);
    }
  }

  /**
   Before a cut one holding horizon earlier than x, two evaluations over data that agree up to x hold the same trades,
   outcomes and costs included.
   */
  lemma SettledTradesAreCausal(run: Run, d: Data, e: Data, x: int, cut: int)
    requires Tradable(d.rows) && Tradable(e.rows) && run.stopPct > 0.0 && run.targetPct >= -run.stopPct
    requires Emitted(run, d).Ok? && Emitted(run, e).Ok?
    requires SameDataUntil(d, e, x) && cut <= x - run.holdHours * 3_600_000
    ensures Visible(Emitted(run, d).value, cut) == Visible(Emitted(run, e).value, cut)
  {
    hide SignalsFrom, SameMacroUntil, SameArchiveUntil, SameFundingUntil, SameUntil, SameDecisions, SameChargesUntil, PointInTime, Visible;
    var n := SharedCandles(d.rows, e.rows, x);
    SharedDecisions(run, d, e, n, n, x);
    SameCharges(d.funding, e.funding, x);
    SettledBefore(run, d.rows, n, x, cut);
    SettledBefore(run, e.rows, n, x, cut);
    TradesAreCausal(run, d, e, n, x, cut, FirstIndex(run), 0);
  }

  lemma SettledBefore(run: Run, rows: seq<Candle>, n: nat, x: int, cut: int)
    requires Contiguous(rows) && ClosedBy(rows, n, x) && cut <= x - run.holdHours * 3_600_000 && run.holdHours >= 1
    ensures SettledBy(run, rows, n, cut)
  {
    forall i | 0 <= i < |rows| && i < |rows| - HorizonBars(run) && CloseTime(rows[i]) < cut ensures i + HorizonBars(run) < n {
      assert rows[i + HorizonBars(run)].ts == rows[i].ts + run.holdHours * 3_600_000;
    }
  }

  // ----- the tail without a full horizon -----

  /** The last bar of n candles that still has a full holding horizon behind it. */
  function LastTradable(run: Run, n: nat): int { n - HorizonBars(run) - 1 }

  /**
   The exact effect of missing candles at the end: a history cut after n candles emits exactly the longer history's
   trades, outcomes and costs included, up to the cut's last bar with a full horizon behind it, and nothing without
   one. Besides, the data need agree only up to that bar's close, and the funding up to the cut.
   */
  lemma CutHistoryEmitsPrefix(run: Run, d: Data, e: Data, n: nat)
    requires Contiguous(d.rows) && Tradable(d.rows) && n <= |d.rows| && e.rows == d.rows[..n]
    requires run.stopPct > 0.0 && run.targetPct >= -run.stopPct
    requires Emitted(run, d).Ok?
    requires 0 <= LastTradable(run, n) < n ==>
               && SameDataUntil(d, e, CloseTime(d.rows[LastTradable(run, n)]))
               && SameFundingUntil(d.funding, e.funding, CloseTime(d.rows[n - 1]))
    ensures run.holdHours >= 1 && Tradable(e.rows)
    ensures Emitted(run, e) ==
            if LastTradable(run, n) < 0 then Ok([])
            else Ok(Visible(Emitted(run, d).value, CloseTime(d.rows[LastTradable(run, n)]) + 1))
  {
    hide SignalsFrom, SameDataUntil, SameFundingUntil, Contiguous, Tradable, PointInTime, Visible;
    CutIsRunnable(d.rows, e.rows, n);
    if LastTradable(run, n) < 0 {
      LoopEnd(RunOver(run, e), e.rows, e.macro, FirstIndex(run), 0);
    } else {
      CutEmits(run, d, e, n, LastTradable(run, n));
    }
  }

  lemma CutIsRunnable(a: seq<Candle>, b: seq<Candle>, n: nat)
    requires Contiguous(a) && Tradable(a) && n <= |a| && b == a[..n]
    ensures Contiguous(b) && Tradable(b) && |b| == n
  {
    ContiguousPrefix(a, n);
    assert forall c :: c in b ==> c in a;
  }

  lemma CutEmits(run: Run, d: Data, e: Data, n: nat, last: nat)
    requires Runnable(run, d.rows) && Runnable(run, e.rows) && n <= |d.rows| && e.rows == d.rows[..n] && last == LastTradable(run, n)
    requires SameDataUntil(d, e, CloseTime(d.rows[last])) && SameFundingUntil(d.funding, e.funding, CloseTime(d.rows[n - 1]))
    requires SignalsFrom(RunOver(run, d), d.rows, d.macro, FirstIndex(run), 0).Ok?
    ensures SignalsFrom(RunOver(run, e), e.rows, e.macro, FirstIndex(run), 0) ==
            Ok(Visible(SignalsFrom(RunOver(run, d), d.rows, d.macro, FirstIndex(run), 0).value, CloseTime(d.rows[last]) + 1))
  {
    hide SignalsFrom, SameDataUntil, SameFundingUntil, SameDecisions, SameChargesUntil, PointInTime, Visible, Tradable;
    var x, cut := CloseTime(d.rows[n - 1]), CloseTime(d.rows[last]) + 1;
    CutIsShared(d.rows, e.rows, n, last);
    CutIsSettled(run, d.rows, n, last);
    CutIsSettled(run, e.rows, n, last);
    assert d.archive.Some? <==> e.archive.Some? by { SameArchives(d, e, CloseTime(d.rows[last])); }
    SharedDecisions(run, d, e, n, last + 1, CloseTime(d.rows[last]));
    SameCharges(d.funding, e.funding, x);
    hide SettledBy, Contiguous;
    TradesAreCausal(run, d, e, n, x, cut, FirstIndex(run), 0);
    AllVisible(run, e, FirstIndex(run), cut);
  }

  lemma SameArchives(d: Data, e: Data, x: int)
    requires SameDataUntil(d, e, x)
    ensures d.archive.Some? <==> e.archive.Some?
  {
  }

  lemma CutIsSettled(run: Run, rows: seq<Candle>, n: nat, last: nat)
    requires Contiguous(rows) && last == LastTradable(run, n) && last < |rows| && run.holdHours >= 1
    ensures SettledBy(run, rows, n, CloseTime(rows[last]) + 1)
  {
    assert forall i :: 0 <= i < |rows| ==> rows[i].ts == rows[last].ts + (i - last) * FIVE_MINUTES;
  }

  lemma CutIsShared(a: seq<Candle>, b: seq<Candle>, n: nat, last: nat)
    requires Contiguous(a) && last < n <= |a| && b == a[..n]
    ensures ClosedBy(a, n, CloseTime(a[n - 1])) && ClosedBy(b, n, CloseTime(a[n - 1])) && a[..n] == b[..n]
    ensures ClosedBy(a, last + 1, CloseTime(a[last])) && ClosedBy(b, last + 1, CloseTime(a[last])) && a[..last + 1] == b[..last + 1]
  {
    assert b[..n] == b;
    assert forall i :: 0 <= i < |a| ==> a[i].ts == a[n - 1].ts + (i - (n - 1)) * FIVE_MINUTES;
    assert forall i :: 0 <= i < |a| ==> a[i].ts == a[last].ts + (i - last) * FIVE_MINUTES;
    assert a[..last + 1] == a[..n][..last + 1];
  }

  /** Nothing is emitted after the last bar with a full horizon. */
  lemma AllVisible(run: Run, d: Data, j: nat, cut: int)
    requires Runnable(run, d.rows) && SignalsFrom(RunOver(run, d), d.rows, d.macro, j, 0).Ok?
    requires 0 <= LastTradable(run, |d.rows|) < |d.rows| && CloseTime(d.rows[LastTradable(run, |d.rows|)]) < cut
    ensures var trades := SignalsFrom(RunOver(run, d), d.rows, d.macro, j, 0).value; Visible(trades, cut) == trades
  {
    var trades := SignalsFrom(RunOver(run, d), d.rows, d.macro, j, 0).value;
    forall t | t in trades ensures Before(t, cut) {
      EmittedTradesAreSound(RunOver(run, d), d.rows, d.macro, j, 0, t);
    }
    FilterAll(trades, (t: Trade) => Before(t, cut));
  }

  /**
   Whether a bar emits is therefore not a matter of the past alone: an entry of the full history survives the cut exactly
   when its whole horizon does. With fewer candles the bar emits nothing at all.
   */
  lemma EntryNeedsItsHorizon(run: Run, d: Data, e: Data, n: nat, i: nat, t: Trade)
    requires Contiguous(d.rows) && Tradable(d.rows) && i < n <= |d.rows| && e.rows == d.rows[..n]
    requires run.stopPct > 0.0 && run.targetPct >= -run.stopPct
    requires Emitted(run, d).Ok? && t in Emitted(run, d).value && t.timestamp == CloseTime(d.rows[i])
    requires 0 <= LastTradable(run, n) < n ==>
               && SameDataUntil(d, e, CloseTime(d.rows[LastTradable(run, n)]))
               && SameFundingUntil(d.funding, e.funding, CloseTime(d.rows[n - 1]))
    ensures Tradable(e.rows) && Emitted(run, e).Ok?
    ensures t in Emitted(run, e).value <==> i + HorizonBars(run) < n
    ensures i + HorizonBars(run) >= n ==> forall u :: u in Emitted(run, e).value ==> u.timestamp != CloseTime(d.rows[i])
  {
    hide Emitted, SameDataUntil, SameFundingUntil, Visible, Tradable, Contiguous;
    CutHistoryEmitsPrefix(run, d, e, n);
    var last := LastTradable(run, n);
    if last >= 0 {
      BarsByTime(d.rows, i, last);
      VisibleMembers(Emitted(run, d).value, CloseTime(d.rows[last]));
    }
  }

  lemma BarsByTime(rows: seq<Candle>, i: nat, k: nat)
    requires Contiguous(rows) && i < |rows| && k < |rows|
    ensures CloseTime(rows[i]) <= CloseTime(rows[k]) <==> i <= k
  {
  }

  lemma VisibleMembers(trades: seq<Trade>, x: int)
    ensures forall t :: t in Visible(trades, x + 1) <==> t in trades && t.timestamp <= x
  {
    FilterMembers(trades, (t: Trade) => Before(t, x + 1));
  }
}
