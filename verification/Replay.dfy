/**
 Cooldown replay of a candidate pool and purged research splits, shared by both calibrators
 (scripts/calibrate_waterfall.py, scripts/calibrate_score_v2.py, scripts/historical_backtest.py).
 */
module Replay {
  import opened Common
  import opened Trades

  const HOUR_MS: real := 3600000.0

  /** The trades kept so far and, per symbol, when its cooldown ends. */
  datatype State = State(kept: seq<Trade>, until: map<string, real>)

  function CooldownEnd(until: map<string, real>, symbol: string): real {
    if symbol in until then until[symbol] else 0.0
  }

  function Step(state: State, trade: Trade, cooldown: real): State {
    if trade.timestamp as real < CooldownEnd(state.until, trade.symbol) then state
    else State(state.kept + [trade], state.until[trade.symbol := trade.timestamp as real + cooldown])
  }

  function Run(trades: seq<Trade>, cooldown: real): State {
    if trades == [] then State([], map[])
    else Step(Run(trades[..|trades| - 1], cooldown), trades[|trades| - 1], cooldown)
  }

  function Replayed(trades: seq<Trade>, cooldown: real): seq<Trade> { Run(trades, cooldown).kept }

  /** What a calibrator keeps of the trades that pass its filter. */
  function ReplayPool(passing: seq<Trade>, cooldown: real): seq<Trade> {
    Replayed(SortBy(passing, TimeSymbolLe), cooldown)
  }

  function CooldownMs(hours: Option<real>): real { Max(hours.GetOr(0.0), 0.0) * HOUR_MS }

  method ReplayCooldown(passing: seq<Trade>, cooldown: real) returns (replayed: seq<Trade>)
    ensures replayed == ReplayPool(passing, cooldown)
  {
    var ordered := SortBy(passing, TimeSymbolLe);
    replayed := [];
    var until: map<string, real> := map[];
    for k := 0 to |ordered|
      invariant State(replayed, until) == Run(ordered[..k], cooldown)
    {
      assert ordered[..k + 1][..k] == ordered[..k];
      var trade := ordered[k];
      if trade.timestamp as real < (if trade.symbol in until then until[trade.symbol] else 0.0) {
        continue;
      }
      replayed := replayed + [trade];
      until := until[trade.symbol := trade.timestamp as real + cooldown];
    }
    assert ordered[..|ordered|] == ordered;
  }

  predicate OfSymbol(trade: Trade, symbol: string) { trade.symbol == symbol }

  function OnlySymbol(trades: seq<Trade>, symbol: string): seq<Trade> {
    Filter(trades, (t: Trade) => OfSymbol(t, symbol))
  }

  predicate Before(trade: Trade, cut: int) { trade.timestamp < cut }

  function Visible(trades: seq<Trade>, cut: int): seq<Trade> {
    Filter(trades, (t: Trade) => Before(t, cut))
  }

  /** Symbols do not disturb each other: replaying one symbol alone gives its share of the whole replay. */
  lemma {:induction false} SymbolsAreIndependent(trades: seq<Trade>, symbol: string, cooldown: real)
    ensures OnlySymbol(Replayed(trades, cooldown), symbol) == Replayed(OnlySymbol(trades, symbol), cooldown)
    ensures CooldownEnd(Run(trades, cooldown).until, symbol) == CooldownEnd(Run(OnlySymbol(trades, symbol), cooldown).until, symbol)
  {
    if trades != [] {
      var n := |trades| - 1;
      var p := (t: Trade) => OfSymbol(t, symbol);
      SymbolsAreIndependent(trades[..n], symbol, cooldown);
      FilterSnoc(Replayed(trades[..n], cooldown), trades[n], p);
      if p(trades[n]) {
        var mine := OnlySymbol(trades[..n], symbol);
        assert (mine + [trades[n]])[..|mine|] == mine;
      }
    }
  }

  /** Later trades cannot change what is kept earlier. */
  lemma {:induction false} ReplayIsCausal(trades: seq<Trade>, cut: int, cooldown: real)
    requires Sorted(trades, TimeSymbolLe)
    ensures Visible(Replayed(trades, cooldown), cut) == Replayed(Visible(trades, cut), cooldown)
  {
    if trades != [] {
      var n := |trades| - 1;
      var p := (t: Trade) => Before(t, cut);
      if trades[n].timestamp < cut {
        assert forall t :: t in trades ==> p(t) by { AllBeforeLast(trades, cut); }
        FilterAll(trades, p);
        KeptAreGiven(trades, cooldown);
        FilterAll(Replayed(trades, cooldown), p);
      } else {
        ReplayIsCausal(trades[..n], cut, cooldown);
        FilterSnoc(Replayed(trades[..n], cooldown), trades[n], p);
      }
    }
  }

  lemma AllBeforeLast(trades: seq<Trade>, cut: int)
    requires Sorted(trades, TimeSymbolLe) && trades != [] && trades[|trades| - 1].timestamp < cut
    ensures forall t :: t in trades ==> t.timestamp < cut
  {
    forall t | t in trades ensures t.timestamp < cut {
      var i :| 0 <= i < |trades| && trades[i] == t;
      assert i < |trades| - 1 ==> TimeSymbolLe(trades[i], trades[|trades| - 1]);
    }
  }

  lemma {:induction false} KeptAreGiven(trades: seq<Trade>, cooldown: real)
    ensures forall t :: t in Replayed(trades, cooldown) ==> t in trades
  {
    if trades != [] {
      KeptAreGiven(trades[..|trades| - 1], cooldown);
      assert forall t :: t in trades[..|trades| - 1] ==> t in trades;
    }
  }

  /** The replay of a pool, cut at a time, is the replay of the pool cut at that time. */
  lemma PoolReplayIsCausal(passing: seq<Trade>, cut: int, cooldown: real)
    ensures Visible(ReplayPool(passing, cooldown), cut) == ReplayPool(Visible(passing, cut), cooldown)
  {
    TimeSymbolOrder();
    SortBySpec(passing, TimeSymbolLe);
    ReplayIsCausal(SortBy(passing, TimeSymbolLe), cut, cooldown);
    FilterSortBy(passing, TimeSymbolLe, (t: Trade) => Before(t, cut));
  }

  // ----- what the replay means -----

  ghost predicate Spaced(state: State, cooldown: real) {
    && (forall s :: s in state.until ==> state.until[s] >= 0.0)
    && (forall k :: k in state.kept ==>
          k.timestamp >= 0 && k.timestamp as real + cooldown <= CooldownEnd(state.until, k.symbol))
    && (forall i, j :: 0 <= i < j < |state.kept| && state.kept[i].symbol == state.kept[j].symbol ==>
          state.kept[i].timestamp as real + cooldown <= state.kept[j].timestamp as real)
  }

  lemma StepKeepsSpacing(state: State, trade: Trade, cooldown: real)
    requires cooldown >= 0.0 && Spaced(state, cooldown)
    ensures Spaced(Step(state, trade, cooldown), cooldown)
  {
    var next := Step(state, trade, cooldown);
    if next != state {
      assert trade.timestamp as real >= CooldownEnd(state.until, trade.symbol) >= 0.0;
      forall i, j | 0 <= i < j < |next.kept| && next.kept[i].symbol == next.kept[j].symbol
        ensures next.kept[i].timestamp as real + cooldown <= next.kept[j].timestamp as real
      {
        assert next.kept[i] == state.kept[i] && state.kept[i] in state.kept;
      }
    }
  }

  /** Kept trades of one symbol are at least a cooldown apart, at non-negative times. */
  lemma {:induction false} KeptAreSpaced(trades: seq<Trade>, cooldown: real)
    requires cooldown >= 0.0
    ensures Spaced(Run(trades, cooldown), cooldown)
  {
    if trades != [] {
      KeptAreSpaced(trades[..|trades| - 1], cooldown);
      StepKeepsSpacing(Run(trades[..|trades| - 1], cooldown), trades[|trades| - 1], cooldown);
    }
  }

  ghost predicate Blocks(kept: Trade, dropped: Trade, cooldown: real) {
    && kept.symbol == dropped.symbol
    && kept.timestamp <= dropped.timestamp
    && dropped.timestamp as real < kept.timestamp as real + cooldown
  }

  lemma {:induction false} CooldownEndIsKept(trades: seq<Trade>, symbol: string, cooldown: real)
    ensures var state := Run(trades, cooldown);
            symbol in state.until ==>
              exists k :: k in state.kept && k.symbol == symbol && k.timestamp as real + cooldown == state.until[symbol]
  {
    if trades != [] {
      var n := |trades| - 1;
      CooldownEndIsKept(trades[..n], symbol, cooldown);
      var before, after := Run(trades[..n], cooldown), Run(trades, cooldown);
      if after != before && symbol == trades[n].symbol {
        assert trades[n] in after.kept;
      } else if symbol in before.until {
        var k :| k in before.kept && k.symbol == symbol && k.timestamp as real + cooldown == before.until[symbol];
        assert k in after.kept;
      }
    }
  }

  /** A trade is dropped only when an earlier kept trade of its symbol is still cooling down (or its time is negative). */
  lemma {:induction false} DroppedAreBlocked(trades: seq<Trade>, cooldown: real, dropped: Trade)
    requires Sorted(trades, TimeSymbolLe)
    requires dropped in trades && dropped !in Replayed(trades, cooldown)
    ensures dropped.timestamp < 0 || exists k :: k in Replayed(trades, cooldown) && Blocks(k, dropped, cooldown)
  {
    var n := |trades| - 1;
    var before := Run(trades[..n], cooldown);
    if dropped in trades[..n] {
      DroppedAreBlocked(trades[..n], cooldown, dropped);
      if dropped.timestamp >= 0 {
        var k :| k in before.kept && Blocks(k, dropped, cooldown);
        assert k in Replayed(trades, cooldown);
      }
    } else if dropped.symbol in before.until {
      CooldownEndIsKept(trades[..n], dropped.symbol, cooldown);
      var k :| k in before.kept && k.symbol == dropped.symbol && k.timestamp as real + cooldown == before.until[dropped.symbol];
      KeptAreGiven(trades[..n], cooldown);
      var i :| 0 <= i < n && trades[i] == k;
      assert TimeSymbolLe(trades[i], trades[n]);
      assert Blocks(k, dropped, cooldown);
    }
  }

  // ----- purged splits -----

  datatype Splits = Splits(train: seq<Trade>, validation: seq<Trade>, holdout: seq<Trade>)
  datatype SplitError = InvalidResearchWindow

  function TrainBoundary(start: int, end: int): int { start + (end - start) / 2 }

  function ValidationBoundary(start: int, end: int): int { start + (end - start) * 5 / 6 }

  predicate Within(trade: Trade, low: int, high: int) { low <= trade.timestamp < high }

  function Between(trades: seq<Trade>, low: int, high: int): seq<Trade> {
    Filter(trades, (t: Trade) => Within(t, low, high))
  }

  predicate From(trade: Trade, low: int) { low <= trade.timestamp }

  function SplitsOf(trades: seq<Trade>, start: int, end: int, horizon: int): Splits
    requires start < end && horizon >= 0
  {
    var ordered := SortBy(trades, TimeLe);
    Splits(
      Visible(ordered, TrainBoundary(start, end) - horizon),
      Between(ordered, TrainBoundary(start, end), ValidationBoundary(start, end) - horizon),
      Filter(ordered, (t: Trade) => From(t, ValidationBoundary(start, end))))
  }

  function PurgedTimeSplits(trades: seq<Trade>, start: int, end: int, horizon: int): Result<Splits, SplitError> {
    if start >= end || horizon < 0 then Err(InvalidResearchWindow) else Ok(SplitsOf(trades, start, end, horizon))
  }

  function ExitOf(trade: Trade): int { trade.exitTs.GetOr(trade.timestamp) }

  /** Trades that settle within the horizon leave every split before the next one starts. */
  lemma PurgingSeparates(trades: seq<Trade>, start: int, end: int, horizon: int)
    requires start < end && horizon >= 0
    requires forall t :: t in trades ==> ExitOf(t) <= t.timestamp + horizon
    ensures var s := SplitsOf(trades, start, end, horizon);
            && (forall a, b :: a in s.train && b in s.validation ==> ExitOf(a) < b.timestamp)
            && (forall a, b :: a in s.validation && b in s.holdout ==> ExitOf(a) < b.timestamp)
            && (forall a, b :: a in s.train && b in s.holdout ==> ExitOf(a) < b.timestamp)
  {
    TimeSymbolOrder();
    SortBySpec(trades, TimeLe);
    var ordered := SortBy(trades, TimeLe);
    FilterMembers(ordered, (t: Trade) => Before(t, TrainBoundary(start, end) - horizon));
    FilterMembers(ordered, (t: Trade) => Within(t, TrainBoundary(start, end), ValidationBoundary(start, end) - horizon));
    FilterMembers(ordered, (t: Trade) => From(t, ValidationBoundary(start, end)));
  }

  /** Each trade lands in exactly one split or in one of the two purge gaps, so nothing is duplicated or lost. */
  lemma SplitsPartition(trades: seq<Trade>, start: int, end: int, horizon: int, t: Trade)
    requires start < end && horizon >= 0
    ensures var s := SplitsOf(trades, start, end, horizon);
            var tb, vb := TrainBoundary(start, end), ValidationBoundary(start, end);
            && (t in s.train <==> t in trades && t.timestamp < tb - horizon)
            && (t in s.validation <==> t in trades && tb <= t.timestamp < vb - horizon)
            && (t in s.holdout <==> t in trades && vb <= t.timestamp)
  {
    TimeSymbolOrder();
    SortBySpec(trades, TimeLe);
    var ordered := SortBy(trades, TimeLe);
    FilterMembers(ordered, (x: Trade) => Before(x, TrainBoundary(start, end) - horizon));
    FilterMembers(ordered, (x: Trade) => Within(x, TrainBoundary(start, end), ValidationBoundary(start, end) - horizon));
    FilterMembers(ordered, (x: Trade) => From(x, ValidationBoundary(start, end)));
  }

  /** The splits of a window, up to order: its first half, then up to five sixths, each short of a horizon, and the rest. */
  lemma SplitsExactly(trades: seq<Trade>, start: int, end: int, horizon: int)
    requires start < end && horizon >= 0
    ensures var s := SplitsOf(trades, start, end, horizon);
            var half, late := start + (end - start) / 2, start + (end - start) * 5 / 6;
            && multiset(s.train) == multiset(Filter(trades, (t: Trade) => t.timestamp < half - horizon))
            && multiset(s.validation) == multiset(Filter(trades, (t: Trade) => half <= t.timestamp < late - horizon))
            && multiset(s.holdout) == multiset(Filter(trades, (t: Trade) => t.timestamp >= late))
  {
    hide SortBy, Filter;
    var half, late := start + (end - start) / 2, start + (end - start) * 5 / 6;
    var ordered := SortBy(trades, TimeLe);
    FilterSame(ordered, (t: Trade) => Before(t, half - horizon), (t: Trade) => t.timestamp < half - horizon);
    FilterSame(ordered, (t: Trade) => Within(t, half, late - horizon), (t: Trade) => half <= t.timestamp < late - horizon);
    FilterSame(ordered, (t: Trade) => From(t, late), (t: Trade) => t.timestamp >= late);
    FilterSorted(trades, (t: Trade) => t.timestamp < half - horizon);
    FilterSorted(trades, (t: Trade) => half <= t.timestamp < late - horizon);
    FilterSorted(trades, (t: Trade) => t.timestamp >= late);
  }

  lemma FilterSorted(trades: seq<Trade>, p: Trade -> bool)
    ensures multiset(Filter(SortBy(trades, TimeLe), p)) == multiset(Filter(trades, p))
  {
    hide SortBy, Filter;
    TimeSymbolOrder();
    FilterSortBy(trades, TimeLe, p);
    SortBySpec(Filter(trades, p), TimeLe);
  }

  /** A range that ends by the cut is the same whether or not the rest is visible. */
  lemma RangeIsVisible(trades: seq<Trade>, low: int, high: int, cut: int)
    requires high <= cut
    ensures Between(Visible(trades, cut), low, high) == Between(trades, low, high)
  {
    var p, q := (t: Trade) => Before(t, cut), (t: Trade) => Within(t, low, high);
    FilterFilter(trades, p, q, q);
  }

  /** The train and validation splits read nothing at or after the cut. */
  lemma DevelopmentSplitsAreVisible(a: seq<Trade>, b: seq<Trade>, start: int, end: int, horizon: int, cut: int)
    requires Visible(a, cut) == Visible(b, cut)
    requires start < end && horizon >= 0 && ValidationBoundary(start, end) - horizon <= cut
    ensures SplitsOf(a, start, end, horizon).train == SplitsOf(b, start, end, horizon).train
    ensures SplitsOf(a, start, end, horizon).validation == SplitsOf(b, start, end, horizon).validation
  {
    hide SortBy;
    var x, y := SortBy(a, TimeLe), SortBy(b, TimeLe);
    SortKeepsVisible(a, cut);
    SortKeepsVisible(b, cut);
    var tb, vb := TrainBoundary(start, end), ValidationBoundary(start, end);
    RangeIsVisible(x, tb, vb - horizon, cut);
    RangeIsVisible(y, tb, vb - horizon, cut);
    EarlierIsVisible(x, tb - horizon, cut);
    EarlierIsVisible(y, tb - horizon, cut);
  }

  lemma SortKeepsVisible(trades: seq<Trade>, cut: int)
    ensures Visible(SortBy(trades, TimeLe), cut) == SortBy(Visible(trades, cut), TimeLe)
  {
    TimeSymbolOrder();
    FilterSortBy(trades, TimeLe, (t: Trade) => Before(t, cut));
  }

  lemma EarlierIsVisible(trades: seq<Trade>, high: int, cut: int)
    requires high <= cut
    ensures Visible(Visible(trades, cut), high) == Visible(trades, high)
  {
    var p, q := (t: Trade) => Before(t, cut), (t: Trade) => Before(t, high);
    FilterFilter(trades, p, q, q);
  }
}
