/** Walk-forward folds, the packet of a configuration and the ranking, in numbers (scripts/backtest_metrics.py, scripts/calibrate_waterfall.py). */
module WalkForwardExactness {
  import opened Common
  import opened Trades
  import opened Metrics
  import opened Replay
  import opened WalkForward
  import opened CalibrationExactness

  // ----- windows -----

  /** The first fold starts at the given share of the window, rounded down, and each takes an equal share of the rest, rounded down. */
  ghost predicate Divides(start: int, end: int, folds: int, fraction: real, first: int, width: int) {
    && (first - start) as real <= (end - start) as real * fraction < (first - start + 1) as real
    && folds * width <= end - first < folds * (width + 1)
  }

  ghost function WindowAt(start: int, end: int, horizon: int, folds: int, first: int, width: int, i: int): Window {
    var until := if i == folds - 1 then end else first + (i + 1) * width;
    Window(i + 1, start, first + i * width - horizon, first + i * width, until - horizon, until, horizon)
  }

  lemma DividesRoundsDown(start: int, end: int, folds: int, fraction: real)
    requires folds > 0
    ensures Divides(start, end, folds, fraction, FirstTest(start, end, fraction), FoldWidth(start, end, folds, fraction))
  {
    var rest := end - FirstTest(start, end, fraction);
    RoundsDown(rest, folds);
  }

  lemma RoundsDown(a: int, b: int)
    requires b > 0
    ensures b * (a / b) <= a < b * (a / b + 1)
  {
    assert a == b * (a / b) + a % b;
  }

  /** Windows are refused, in order, for their arguments, then for folds no longer than the horizon, and are otherwise the equal folds. */
  lemma WindowsMean(start: int, end: int, horizon: int, folds: int, fraction: real) returns (first: int, width: int)
    ensures folds > 0 ==> Divides(start, end, folds, fraction, first, width)
    ensures var windows := Windows(start, end, horizon, folds, fraction);
            if start >= end then windows == Err(InvalidWindow)
            else if horizon < 0 then windows == Err(InvalidHorizon)
            else if folds < 2 then windows == Err(TooFewFolds)
            else if fraction <= 0.0 || fraction >= 1.0 then windows == Err(InvalidFraction)
            else if width <= horizon then windows == Err(FoldsTooShort)
            else && windows.Ok? && |windows.value| == folds
                 && forall i :: 0 <= i < folds ==> windows.value[i] == WindowAt(start, end, horizon, folds, first, width, i)
  {
    first, width := start, 0;
    if folds > 0 {
      DividesRoundsDown(start, end, folds, fraction);
      hide FirstTest, FoldWidth, Divides;
      first, width := FirstTest(start, end, fraction), FoldWidth(start, end, folds, fraction);
    }
  }

  // ----- the packet of a configuration -----

  /** The signals of the folds with enough of them, one fold after another. */
  ghost function JoinedEnough(trades: seq<Trade>, windows: seq<Window>, minimum: int): seq<Trade> {
    if windows == [] then []
    else
      var n := |windows| - 1;
      JoinedEnough(trades, windows[..n], minimum) + (if Enough(FoldOf(trades, windows[n]), minimum) then FoldOf(trades, windows[n]) else [])
  }

  ghost function EnoughFolds(trades: seq<Trade>, windows: seq<Window>, minimum: int): nat {
    |Filter(windows, (w: Window) => Enough(FoldOf(trades, w), minimum))|
  }

  ghost function EarningFolds(trades: seq<Trade>, windows: seq<Window>, minimum: int): nat {
    |Filter(windows, (w: Window) => Enough(FoldOf(trades, w), minimum) && Earns(FoldOf(trades, w)))|
  }

  ghost predicate FoldShown(f: FoldPacket, w: Window, trades: seq<Trade>, minimum: int) {
    f.window == w && f.performance == NetOf(FoldOf(trades, w)) && (f.sufficient <==> Enough(FoldOf(trades, w), minimum))
  }

  /** What a packet says of a configuration's trades. */
  ghost predicate PacketShown(p: Packet, trades: seq<Trade>, windows: seq<Window>, minimum: int, complexity: int) {
    && p.oosFolds == |windows| && p.complexity == complexity
    && p.sufficientFolds == EnoughFolds(trades, windows, minimum) && p.positiveFolds == EarningFolds(trades, windows, minimum)
    && 2 * |windows| <= 3 * p.minimumPositive < 2 * |windows| + 3
    && p.performance == NetOf(JoinedEnough(trades, windows, minimum))
    && |p.folds| == |windows| && (forall i :: 0 <= i < |windows| ==> FoldShown(p.folds[i], windows[i], trades, minimum))
    && (p.valid <==>
          && EnoughFolds(trades, windows, minimum) == |windows| && 3 * EarningFolds(trades, windows, minimum) >= 2 * |windows|
          && p.performance.Available? && p.performance.profitFactor.Some?)
  }

  lemma {:induction false} FoldsMean(trades: seq<Trade>, windows: seq<Window>, minimum: int)
    ensures var packets := FoldPackets(trades, windows, minimum);
            && |packets| == |windows|
            && (forall i :: 0 <= i < |windows| ==> FoldShown(packets[i], windows[i], trades, minimum))
            && Count(packets, IsSufficient) == EnoughFolds(trades, windows, minimum)
            && Count(packets, Positive) == EarningFolds(trades, windows, minimum)
    ensures OutOfSample(trades, windows, minimum) == JoinedEnough(trades, windows, minimum)
  {
    hide WalkForward.PacketOf, Enough, FoldOf, PerformanceOf, Between;
    if windows != [] {
      var n := |windows| - 1;
      FoldsMean(trades, windows[..n], minimum);
      FoldMeans(trades, windows[n], minimum);
      PacketWindow(trades, windows[n], minimum);
      var packet := WalkForward.PacketOf(trades, windows[n], minimum);
      FilterSnoc(FoldPackets(trades, windows[..n], minimum), packet, IsSufficient);
      FilterSnoc(FoldPackets(trades, windows[..n], minimum), packet, Positive);
      EnoughSnoc(trades, windows, minimum);
      hide Filter;
    }
  }

  lemma PacketWindow(trades: seq<Trade>, w: Window, minimum: int)
    ensures WalkForward.PacketOf(trades, w, minimum).window == w
  {
    hide PerformanceOf;
  }

  lemma EnoughSnoc(trades: seq<Trade>, windows: seq<Window>, minimum: int)
    requires windows != []
    ensures var n := |windows| - 1;
            && EnoughFolds(trades, windows, minimum) ==
               EnoughFolds(trades, windows[..n], minimum) + (if Enough(FoldOf(trades, windows[n]), minimum) then 1 else 0)
            && EarningFolds(trades, windows, minimum) ==
               EarningFolds(trades, windows[..n], minimum)
               + (if Enough(FoldOf(trades, windows[n]), minimum) && Earns(FoldOf(trades, windows[n])) then 1 else 0)
  {
    hide Enough, Earns, FoldOf;
  }

  lemma AssessMeans(trades: seq<Trade>, windows: seq<Window>, minimum: int, complexity: int)
    ensures PacketShown(Assess(trades, windows, |windows|, minimum, complexity), trades, windows, minimum, complexity)
  {
    FoldsMean(trades, windows, minimum);
    hide FoldPackets, OutOfSample, Count, JoinedEnough, EnoughFolds, EarningFolds, FoldShown, PerformanceOf;
  }

  // ----- packets and ranking of all configurations -----

  /** Item k is the last one of its name. */
  ghost predicate LastItem(items: seq<Item>, k: nat, name: string) {
    k < |items| && items[k].name == name && forall j :: k < j < |items| ==> items[j].name != name
  }

  lemma {:induction false} PacketNames(
    byName: map<string, seq<Trade>>, items: seq<Item>, windows: seq<Window>, folds: int, minimum: int, name: string)
    ensures name in Packets(byName, items, windows, folds, minimum) <==> exists i :: i in items && i.name == name
  {
    hide Assess;
    if items != [] {
      var n := |items| - 1;
      PacketNames(byName, items[..n], windows, folds, minimum, name);
      assert forall i :: i in items <==> i in items[..n] || i == items[n];
    }
  }

  lemma {:induction false} PacketAt(byName: map<string, seq<Trade>>, items: seq<Item>, windows: seq<Window>, minimum: int, k: nat, name: string)
    requires LastItem(items, k, name)
    ensures name in Packets(byName, items, windows, |windows|, minimum)
    ensures PacketShown(Packets(byName, items, windows, |windows|, minimum)[name], TradesOf(byName, name), windows, minimum, items[k].complexity)
  {
    hide Assess, PacketShown;
    var n := |items| - 1;
    if k == n {
      AssessMeans(TradesOf(byName, name), windows, minimum, items[n].complexity);
    } else {
      PacketAt(byName, items[..n], windows, minimum, k, name);
    }
  }

  /** What ranks a configuration. */
  ghost function Standing(trades: seq<Trade>, windows: seq<Window>, minimum: int, complexity: int): Candidate {
    Candidate(|windows|, EarningFolds(trades, windows, minimum), NetOf(JoinedEnough(trades, windows, minimum)), complexity)
  }

  /** Enough trades in every fold, two thirds of the folds earning, and a profit factor over all of them. */
  ghost predicate Stable(trades: seq<Trade>, windows: seq<Window>, minimum: int) {
    && EnoughFolds(trades, windows, minimum) == |windows| && 3 * EarningFolds(trades, windows, minimum) >= 2 * |windows|
    && NetOf(JoinedEnough(trades, windows, minimum)).Available? && NetOf(JoinedEnough(trades, windows, minimum)).profitFactor.Some?
  }

  lemma StandingMeans(byName: map<string, seq<Trade>>, windows: seq<Window>, minimum: int, i: Item)
    ensures var trades := TradesOf(byName, i.name);
            && (Passes(byName, windows, |windows|, minimum, i) <==> Stable(trades, windows, minimum))
            && RankOf(byName, windows, |windows|, minimum, i) == Ranked(SelectionKey(Standing(trades, windows, minimum, i.complexity)), i.name)
  {
    AssessMeans(TradesOf(byName, i.name), windows, minimum, i.complexity);
    hide Assess, SelectionKey, EnoughFolds, EarningFolds, JoinedEnough, PerformanceOf;
  }

  lemma EarningIsAFold(trades: seq<Trade>, windows: seq<Window>, minimum: int)
    ensures 0 <= EarningFolds(trades, windows, minimum) <= |windows|
  {
  }

  /** Nobody beaten ranks first: a lower rank is never the better standing, and an equal key goes by name. */
  lemma LowerIsNotBetter(a: Candidate, b: Candidate, x: string, y: string)
    requires Usable(a) && Usable(b) && a.oosFolds == b.oosFolds && RankedLe(Ranked(SelectionKey(a), x), Ranked(SelectionKey(b), y))
    ensures !Better(b, a)
    ensures !Better(a, b) ==> StringLe(x, y)
  {
    KeyOrderMeansBetter(a, b);
    KeyOrderMeansBetter(b, a);
    KeysAreAntisymmetric(SelectionKey(a), SelectionKey(b));
    hide SelectionKey, KeyLe, Better, StringLe;
  }

  lemma KeysAreAntisymmetric(a: Key, b: Key)
    ensures KeyLe(a, b) && KeyLe(b, a) ==> a == b
  {
  }

  /** The selected configuration is stable and no stable one stands better; equals go by name. */
  ghost predicate BestStanding(byName: map<string, seq<Trade>>, items: seq<Item>, windows: seq<Window>, minimum: int, best: Item) {
    && best in items && Stable(TradesOf(byName, best.name), windows, minimum)
    && forall i :: i in items && Stable(TradesOf(byName, i.name), windows, minimum) ==>
         BeatsOrTies(Standing(TradesOf(byName, best.name), windows, minimum, best.complexity), best.name,
                     Standing(TradesOf(byName, i.name), windows, minimum, i.complexity), i.name)
  }

  ghost predicate BeatsOrTies(a: Candidate, x: string, b: Candidate, y: string) {
    && Usable(a) && Usable(b)
    && (Better(a, b) || (!Better(b, a) && StringLe(x, y)))
  }

  lemma RankBeats(byName: map<string, seq<Trade>>, windows: seq<Window>, minimum: int, a: Item, b: Item)
    requires windows != [] && Stable(TradesOf(byName, a.name), windows, minimum) && Stable(TradesOf(byName, b.name), windows, minimum)
    requires RankedLe(RankOf(byName, windows, |windows|, minimum, a), RankOf(byName, windows, |windows|, minimum, b))
    ensures BeatsOrTies(Standing(TradesOf(byName, a.name), windows, minimum, a.complexity), a.name,
                        Standing(TradesOf(byName, b.name), windows, minimum, b.complexity), b.name)
  {
    hide RankOf, RankedLe, Better, SelectionKey, EnoughFolds, EarningFolds, JoinedEnough, PerformanceOf, StringLe;
    StandingMeans(byName, windows, minimum, a);
    StandingMeans(byName, windows, minimum, b);
    EarningIsAFold(TradesOf(byName, a.name), windows, minimum);
    EarningIsAFold(TradesOf(byName, b.name), windows, minimum);
    LowerIsNotBetter(Standing(TradesOf(byName, a.name), windows, minimum, a.complexity),
                     Standing(TradesOf(byName, b.name), windows, minimum, b.complexity), a.name, b.name);
  }

  /** A name is selected exactly when some configuration is stable, and then it is a best one's. */
  lemma SelectedMeans(byName: map<string, seq<Trade>>, items: seq<Item>, start: int, end: int, horizon: int, folds: int, minimum: int)
    requires WalkForwardOf(byName, items, start, end, horizon, folds, minimum).Ok?
    ensures Windows(start, end, horizon, folds, 0.5).Ok?
    ensures var windows := Windows(start, end, horizon, folds, 0.5).value;
            match WalkForwardOf(byName, items, start, end, horizon, folds, minimum).value.selectedName
            case None => forall i :: i in items ==> !Stable(TradesOf(byName, i.name), windows, minimum)
            case Some(name) => exists best: Item :: best.name == name && BestStanding(byName, items, windows, minimum, best)
  {
    WalkForwardWindows(byName, items, start, end, horizon, folds, minimum);
    var windows := Windows(start, end, horizon, folds, 0.5).value;
    SelectedIsBest(byName, items, start, end, horizon, folds, minimum);
    hide Windows, WalkForwardOf, Passes, RankOf, RankedLe, Stable, BeatsOrTies;
    forall i: Item ensures Passes(byName, windows, folds, minimum, i) <==> Stable(TradesOf(byName, i.name), windows, minimum) {
      StandingMeans(byName, windows, minimum, i);
    }
    var selected := WalkForwardOf(byName, items, start, end, horizon, folds, minimum).value.selectedName;
    if selected.Some? {
      var best: Item :| best.name == selected.value && Best(byName, items, windows, folds, minimum, best);
      forall i | i in items && Stable(TradesOf(byName, i.name), windows, minimum)
        ensures BeatsOrTies(Standing(TradesOf(byName, best.name), windows, minimum, best.complexity), best.name,
                            Standing(TradesOf(byName, i.name), windows, minimum, i.complexity), i.name)
      {
        RankBeats(byName, windows, minimum, best, i);
      }
      assert BestStanding(byName, items, windows, minimum, best);
    }
  }

  lemma WalkForwardWindows(byName: map<string, seq<Trade>>, items: seq<Item>, start: int, end: int, horizon: int, folds: int, minimum: int)
    ensures WalkForwardOf(byName, items, start, end, horizon, folds, minimum).Ok? <==> Windows(start, end, horizon, folds, 0.5).Ok?
    ensures Windows(start, end, horizon, folds, 0.5).Err? ==>
              WalkForwardOf(byName, items, start, end, horizon, folds, minimum) == Err(Windows(start, end, horizon, folds, 0.5).error)
    ensures Windows(start, end, horizon, folds, 0.5).Ok? ==>
              var windows := Windows(start, end, horizon, folds, 0.5).value;
              && |windows| == folds >= 2
              && WalkForwardOf(byName, items, start, end, horizon, folds, minimum).value.packets == Packets(byName, items, windows, folds, minimum)
  {
    hide Eligible, Packets, FirstRanked;
  }

  /** Every configuration has the packet of its trades over those windows. */
  lemma WalkForwardMeans(
    byName: map<string, seq<Trade>>, items: seq<Item>, start: int, end: int, horizon: int, folds: int, minimum: int, name: string)
    requires WalkForwardOf(byName, items, start, end, horizon, folds, minimum).Ok?
    ensures Windows(start, end, horizon, folds, 0.5).Ok?
    ensures var packets, windows := WalkForwardOf(byName, items, start, end, horizon, folds, minimum).value.packets,
                                    Windows(start, end, horizon, folds, 0.5).value;
            && (name in packets <==> exists i :: i in items && i.name == name)
            && forall k: nat :: LastItem(items, k, name) ==>
                 name in packets && PacketShown(packets[name], TradesOf(byName, name), windows, minimum, items[k].complexity)
  {
    WalkForwardWindows(byName, items, start, end, horizon, folds, minimum);
    hide Windows, WalkForwardOf, Packets, PacketShown;
    var windows := Windows(start, end, horizon, folds, 0.5).value;
    PacketNames(byName, items, windows, folds, minimum, name);
    forall k: nat | LastItem(items, k, name)
      ensures name in Packets(byName, items, windows, folds, minimum)
      ensures PacketShown(Packets(byName, items, windows, folds, minimum)[name], TradesOf(byName, name), windows, minimum, items[k].complexity)
    {
      PacketAt(byName, items, windows, minimum, k, name);
    }
  }
}
