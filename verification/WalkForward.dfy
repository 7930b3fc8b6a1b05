/**
 Walk-forward assessment and ranking, shared by scripts/calibrate_waterfall.py (development_walk_forward)
 and scripts/calibrate_score_v2.py (walk_forward_assessment).
 */
module WalkForward {
  import opened Common
  import opened Trades
  import opened Metrics
  import opened Replay

  const INITIAL_TRAIN_FRACTION: real := 0.5

  /** What ranking needs to know about a configuration. */
  datatype Item = Item(name: string, complexity: int)

  datatype FoldPacket = FoldPacket(window: Window, sufficient: bool, performance: Performance)

  datatype Packet = Packet(
    oosFolds: int,
    sufficientFolds: int,
    positiveFolds: int,
    minimumPositive: int,
    performance: Performance,
    folds: seq<FoldPacket>,
    complexity: int,
    valid: bool)

  datatype Assessment = Assessment(selectedName: Option<string>, packets: map<string, Packet>)

  function NetPerformance(trades: seq<Trade>): Performance { PerformanceOf(trades, NetR, RISK_FRACTION) }

  function TradesOf(byName: map<string, seq<Trade>>, name: string): seq<Trade> {
    if name in byName then byName[name] else []
  }

  /** ceil(folds * 2 / 3) */
  function RequiredPositive(folds: int): int { (2 * folds + 2) / 3 }

  function PacketOf(trades: seq<Trade>, w: Window, minimum: int): FoldPacket {
    var performance := NetPerformance(Between(trades, w.testStart, w.testSignalEnd));
    FoldPacket(w, performance.Available? && performance.sampleSize >= minimum, performance)
  }

  predicate IsSufficient(packet: FoldPacket) { packet.sufficient }

  predicate Positive(packet: FoldPacket) {
    packet.sufficient && packet.performance.Available? && packet.performance.expectancyR > 0.0
  }

  function FoldPackets(trades: seq<Trade>, windows: seq<Window>, minimum: int): seq<FoldPacket> {
    if windows == [] then []
    else
      var n := |windows| - 1;
      FoldPackets(trades, windows[..n], minimum) + [PacketOf(trades, windows[n], minimum)]
  }

  /** The out-of-sample trades: those of every fold with enough of them. */
  function OutOfSample(trades: seq<Trade>, windows: seq<Window>, minimum: int): seq<Trade> {
    if windows == [] then []
    else
      var n := |windows| - 1;
      var w := windows[n];
      OutOfSample(trades, windows[..n], minimum)
      + (if PacketOf(trades, w, minimum).sufficient then Between(trades, w.testStart, w.testSignalEnd) else [])
  }

  function Count(packets: seq<FoldPacket>, p: FoldPacket -> bool): int { |Filter(packets, p)| }

  function Assess(trades: seq<Trade>, windows: seq<Window>, folds: int, minimum: int, complexity: int): Packet {
    var packets := FoldPackets(trades, windows, minimum);
    var aggregate := NetPerformance(OutOfSample(trades, windows, minimum));
    var sufficient, positive := Count(packets, IsSufficient), Count(packets, Positive);
    Packet(folds, sufficient, positive, RequiredPositive(folds), aggregate, packets, complexity,
           sufficient == folds && positive >= RequiredPositive(folds)
           && aggregate.Available? && aggregate.profitFactor.Some?)
  }

  method AssessConfiguration(trades: seq<Trade>, windows: seq<Window>, folds: int, minimum: int, complexity: int)
    returns (packet: Packet)
    ensures packet == Assess(trades, windows, folds, minimum, complexity)
  {
    var packets: seq<FoldPacket>, oos: seq<Trade> := [], [];
    for k := 0 to |windows|
      invariant packets == FoldPackets(trades, windows[..k], minimum)
      invariant oos == OutOfSample(trades, windows[..k], minimum)
    {
      assert windows[..k + 1][..k] == windows[..k];
      var selected := Between(trades, windows[k].testStart, windows[k].testSignalEnd);
      var metrics := PerformanceMetrics(selected, NetR, RISK_FRACTION);
      var performance := metrics.value;
      var sufficient := performance.Available? && performance.sampleSize >= minimum;
      packets := packets + [FoldPacket(windows[k], sufficient, performance)];
      if sufficient {
        oos := oos + selected;
      }
    }
    assert windows[..|windows|] == windows;
    var aggregate := PerformanceMetrics(oos, NetR, RISK_FRACTION);
    var sufficient, positive := Count(packets, IsSufficient), Count(packets, Positive);
    var required := RequiredPositive(folds);
    var valid := sufficient == folds && positive >= required
                 && aggregate.value.Available? && aggregate.value.profitFactor.Some?;
    packet := Packet(folds, sufficient, positive, required, aggregate.value, packets, complexity, valid);
  }

  function CandidateOf(packet: Packet): Candidate {
    Candidate(packet.oosFolds, packet.positiveFolds, packet.performance, packet.complexity)
  }

  function Eligible(byName: map<string, seq<Trade>>, items: seq<Item>, windows: seq<Window>, folds: int, minimum: int): seq<Ranked> {
    if items == [] then []
    else
      var n := |items| - 1;
      var packet := Assess(TradesOf(byName, items[n].name), windows, folds, minimum, items[n].complexity);
      Eligible(byName, items[..n], windows, folds, minimum)
      + (if packet.valid then [Ranked(SelectionKey(CandidateOf(packet)), items[n].name)] else [])
  }

  function Packets(byName: map<string, seq<Trade>>, items: seq<Item>, windows: seq<Window>, folds: int, minimum: int): map<string, Packet> {
    if items == [] then map[]
    else
      var n := |items| - 1;
      Packets(byName, items[..n], windows, folds, minimum)
      [items[n].name := Assess(TradesOf(byName, items[n].name), windows, folds, minimum, items[n].complexity)]
  }

  /** sorted(eligible)[0] */
  /** Entries compared by their rank alone are totally ordered. */
  lemma OrderByRank<T(!new)>(le: (T, T) -> bool, rank: T -> Ranked)
    requires forall a, b :: le(a, b) == RankedLe(rank(a), rank(b))
    ensures TotalPreorder(le)
  {
    hide RankedLe;
    RankedOrder();
  }

  function FirstRanked(ranked: seq<Ranked>): Option<string> {
    if ranked == [] then None
    else
      RankedOrder();
      SortBySpec(ranked, RankedLe);
      Some(SortBy(ranked, RankedLe)[0].name)
  }

  function WalkForwardOf(
    byName: map<string, seq<Trade>>, items: seq<Item>, start: int, end: int, horizon: int, folds: int, minimum: int)
    : Result<Assessment, WindowError>
  {
    match Windows(start, end, horizon, folds, INITIAL_TRAIN_FRACTION)
    case Err(e) => Err(e)
    case Ok(windows) =>
      Ok(Assessment(FirstRanked(Eligible(byName, items, windows, folds, minimum)),
                    Packets(byName, items, windows, folds, minimum)))
  }

  method AssessWalkForward(
    byName: map<string, seq<Trade>>, items: seq<Item>, start: int, end: int, horizon: int, folds: int, minimum: int)
    returns (result: Result<Assessment, WindowError>)
    ensures result == WalkForwardOf(byName, items, start, end, horizon, folds, minimum)
  {
    hide Assess, SelectionKey, FirstRanked, Windows, CandidateOf;
    var windowed := ExpandingWalkForwardWindows(start, end, horizon, folds, INITIAL_TRAIN_FRACTION);
    if windowed.Err? {
      return Err(windowed.error);
    }
    var windows := windowed.value;
    var packets: map<string, Packet>, eligible: seq<Ranked> := map[], [];
    for k := 0 to |items|
      invariant eligible == Eligible(byName, items[..k], windows, folds, minimum)
      invariant packets == Packets(byName, items[..k], windows, folds, minimum)
    {
      assert items[..k + 1][..k] == items[..k];
      var packet := AssessConfiguration(TradesOf(byName, items[k].name), windows, folds, minimum, items[k].complexity);
      packets := packets[items[k].name := packet];
      if packet.valid {
        eligible := eligible + [Ranked(SelectionKey(CandidateOf(packet)), items[k].name)];
      }
    }
    assert items[..|items|] == items;
    return Ok(Assessment(FirstRanked(eligible), packets));
  }

  // ----- what selection means -----

  ghost predicate Passes(byName: map<string, seq<Trade>>, windows: seq<Window>, folds: int, minimum: int, i: Item) {
    Assess(TradesOf(byName, i.name), windows, folds, minimum, i.complexity).valid
  }

  ghost function RankOf(byName: map<string, seq<Trade>>, windows: seq<Window>, folds: int, minimum: int, i: Item): Ranked {
    Ranked(SelectionKey(CandidateOf(Assess(TradesOf(byName, i.name), windows, folds, minimum, i.complexity))), i.name)
  }

  lemma {:induction false} EligibleAreValid(
    byName: map<string, seq<Trade>>, items: seq<Item>, windows: seq<Window>, folds: int, minimum: int, r: Ranked)
    ensures r in Eligible(byName, items, windows, folds, minimum) <==>
            exists i :: i in items && Passes(byName, windows, folds, minimum, i) && r == RankOf(byName, windows, folds, minimum, i)
  {
    hide Assess, SelectionKey;
    if items != [] {
      var n := |items| - 1;
      EligibleAreValid(byName, items[..n], windows, folds, minimum, r);
      assert forall i :: i in items <==> i in items[..n] || i == items[n];
      var last := items[n];
      assert r in Eligible(byName, items, windows, folds, minimum) <==>
             r in Eligible(byName, items[..n], windows, folds, minimum)
             || (Passes(byName, windows, folds, minimum, last) && r == RankOf(byName, windows, folds, minimum, last));
    }
  }

  /** sorted(...)[0] is a member that no member beats. */
  lemma FirstRankedIsLeast(ranked: seq<Ranked>)
    requires ranked != []
    ensures exists best :: best in ranked && FirstRanked(ranked) == Some(best.name)
              && forall r :: r in ranked ==> RankedLe(best, r)
  {
    hide RankedLe;
    RankedOrder();
    SortBySpec(ranked, RankedLe);
    var sorted := SortBy(ranked, RankedLe);
    var best := sorted[0];
    assert best in ranked;
    forall r | r in ranked ensures RankedLe(best, r) {
      var i :| 0 <= i < |sorted| && sorted[i] == r;
      if i == 0 { assert RankedLe(r, r); }
    }
  }

  ghost predicate Best(byName: map<string, seq<Trade>>, items: seq<Item>, windows: seq<Window>, folds: int, minimum: int, best: Item) {
    && best in items && Passes(byName, windows, folds, minimum, best)
    && forall i :: i in items && Passes(byName, windows, folds, minimum, i) ==>
         RankedLe(RankOf(byName, windows, folds, minimum, best), RankOf(byName, windows, folds, minimum, i))
  }

  /** A configuration is selected exactly when one passes the stability gate, and then no passing one ranks before it. */
  lemma SelectedIsBest(
    byName: map<string, seq<Trade>>, items: seq<Item>, start: int, end: int, horizon: int, folds: int, minimum: int)
    requires WalkForwardOf(byName, items, start, end, horizon, folds, minimum).Ok?
    ensures var windows := Windows(start, end, horizon, folds, INITIAL_TRAIN_FRACTION).value;
            match WalkForwardOf(byName, items, start, end, horizon, folds, minimum).value.selectedName
            case None => forall i :: i in items ==> !Passes(byName, windows, folds, minimum, i)
            case Some(name) => exists best: Item :: best.name == name && Best(byName, items, windows, folds, minimum, best)
  {
    hide Passes, RankOf, RankedLe;
    var windows := Windows(start, end, horizon, folds, INITIAL_TRAIN_FRACTION).value;
    var ranked := Eligible(byName, items, windows, folds, minimum);
    forall i | i in items && Passes(byName, windows, folds, minimum, i)
      ensures RankOf(byName, windows, folds, minimum, i) in ranked
    {
      EligibleAreValid(byName, items, windows, folds, minimum, RankOf(byName, windows, folds, minimum, i));
    }
    if ranked != [] {
      FirstRankedIsLeast(ranked);
      var top :| top in ranked && FirstRanked(ranked) == Some(top.name) && forall r :: r in ranked ==> RankedLe(top, r);
      EligibleAreValid(byName, items, windows, folds, minimum, top);
      var best :| best in items && Passes(byName, windows, folds, minimum, best) && top == RankOf(byName, windows, folds, minimum, best);
      RankName(byName, windows, folds, minimum, best);
      assert Best(byName, items, windows, folds, minimum, best);
    }
  }

  lemma RankName(byName: map<string, seq<Trade>>, windows: seq<Window>, folds: int, minimum: int, i: Item)
    ensures RankOf(byName, windows, folds, minimum, i).name == i.name
  {
  }

  // ----- nothing beyond the last signal end is read -----

  ghost predicate AgreeBefore(a: map<string, seq<Trade>>, b: map<string, seq<Trade>>, cut: int) {
    a.Keys == b.Keys && forall name :: name in a ==> Visible(a[name], cut) == Visible(b[name], cut)
  }

  lemma {:induction false} FoldsAreVisible(a: seq<Trade>, b: seq<Trade>, windows: seq<Window>, minimum: int, cut: int)
    requires Visible(a, cut) == Visible(b, cut)
    requires forall w :: w in windows ==> w.testSignalEnd <= cut
    ensures FoldPackets(a, windows, minimum) == FoldPackets(b, windows, minimum)
    ensures OutOfSample(a, windows, minimum) == OutOfSample(b, windows, minimum)
  {
    if windows != [] {
      var n := |windows| - 1;
      FoldsAreVisible(a, b, windows[..n], minimum, cut);
      assert windows[n] in windows;
      RangeIsVisible(a, windows[n].testStart, windows[n].testSignalEnd, cut);
      RangeIsVisible(b, windows[n].testStart, windows[n].testSignalEnd, cut);
    }
  }

  lemma {:induction false} RankingIsVisible(
    a: map<string, seq<Trade>>, b: map<string, seq<Trade>>, items: seq<Item>, windows: seq<Window>, folds: int, minimum: int, cut: int)
    requires AgreeBefore(a, b, cut)
    requires forall w :: w in windows ==> w.testSignalEnd <= cut
    ensures Eligible(a, items, windows, folds, minimum) == Eligible(b, items, windows, folds, minimum)
    ensures Packets(a, items, windows, folds, minimum) == Packets(b, items, windows, folds, minimum)
  {
    hide SelectionKey, Visible;
    if items != [] {
      var n := |items| - 1;
      RankingIsVisible(a, b, items[..n], windows, folds, minimum, cut);
      var x, y := TradesOf(a, items[n].name), TradesOf(b, items[n].name);
      FoldsAreVisible(x, y, windows, minimum, cut);
    }
  }

  /** Two pools that agree before the end minus the horizon get the same walk-forward assessment. */
  lemma WalkForwardIsVisible(
    a: map<string, seq<Trade>>, b: map<string, seq<Trade>>, items: seq<Item>,
    start: int, end: int, horizon: int, folds: int, minimum: int)
    requires AgreeBefore(a, b, end - horizon)
    ensures WalkForwardOf(a, items, start, end, horizon, folds, minimum) == WalkForwardOf(b, items, start, end, horizon, folds, minimum)
  {
    var windowed := Windows(start, end, horizon, folds, INITIAL_TRAIN_FRACTION);
    if windowed.Ok? {
      FoldsTileTheTail(start, end, horizon, folds, INITIAL_TRAIN_FRACTION);
      var w := windowed.value;
      forall x | x in w ensures x.testSignalEnd <= end - horizon {
        var i :| 0 <= i < |w| && w[i] == x;
        assert i < |w| - 1 ==> w[i].testEnd <= w[|w| - 1].testStart;
      }
      RankingIsVisible(a, b, items, w, folds, minimum, end - horizon);
    }
  }
}
