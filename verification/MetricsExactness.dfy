/** What each reported figure is, in terms of the trades alone (scripts/backtest_metrics.py, performance_metrics). */
module MetricsExactness {
  import opened Common
  import opened Permutations
  import opened Trades
  import opened Metrics

  const HALF_UNIT: real := 0.0000005

  /** The returns of trades that all have one. */
  ghost function Outcomes(trades: seq<Trade>, field: ReturnField): seq<real> {
    Mapped(trades, (t: Trade) => ReturnOf(t, field).GetOr(0.0))
  }

  ghost function Profit(values: seq<real>): real { Sum(Filter(values, (x: real) => x > 0.0)) }

  ghost function Loss(values: seq<real>): real { -Sum(Filter(values, (x: real) => x < 0.0)) }

  // ----- every trade of an available performance is accepted -----

  /** Complete, sourced costs whose fee and slippage are no credits and that explain the net return to a billionth. */
  ghost predicate Explained(t: Trade) {
    && t.costs.Some? && t.costs.value.complete && t.realizedR.Some? && t.netR.Some?
    && var c := t.costs.value;
    && c.feeR.Some? && c.feeR.value >= 0.0 && c.slippageR.Some? && c.slippageR.value >= 0.0 && c.fundingR.Some?
    && c.provenance.Keys == {"fee", "funding", "slippage"} && (forall name :: name in c.provenance ==> Sourced(c.provenance[name]))
    && var gap := t.netR.value - (t.realizedR.value - c.feeR.value - c.slippageR.value + c.fundingR.value);
    -0.000000001 <= gap <= 0.000000001
  }

  /** At least one source, each an HTTPS URL of some host. */
  ghost predicate Sourced(urls: seq<Url>) { |urls| > 0 && forall u :: u in urls ==> u.scheme == "https" && u.netloc != "" }

  lemma ExplainedMeans(t: Trade)
    ensures CostsReconcile(t) <==> Explained(t)
  {
    hide HttpsSource, Sourced;
    forall urls ensures HttpsSource(urls) <==> Sourced(urls) { SourcedMeans(urls); }
  }

  lemma SourcedMeans(urls: seq<Url>)
    ensures HttpsSource(urls) <==> Sourced(urls)
  {
  }

  /** The trade has the return, its costs reconcile where they matter, and it does not exit before it enters. */
  ghost predicate Counted(t: Trade, field: ReturnField) {
    && ReturnOf(t, field).Some? && t.exitTs.GetOr(t.timestamp) >= t.timestamp
    && (field == NetR ==> Explained(t) && t.costs.value.basis in {None, Some("realized"), Some("modeled")})
  }

  /** Packets without the field count as realized. */
  ghost function BasisName(t: Trade): string {
    if t.costs.Some? then t.costs.value.basis.GetOr("realized") else "realized"
  }

  ghost predicate OneBasis(trades: seq<Trade>) {
    forall t, u :: t in trades && u in trades ==> BasisName(t) == BasisName(u)
  }

  /** The row of a counted trade. */
  ghost function RowOf(t: Trade, field: ReturnField): Row {
    Row(t.exitTs.GetOr(t.timestamp), t.timestamp, t.symbol, ReturnOf(t, field).GetOr(0.0))
  }

  ghost function RowsOf(trades: seq<Trade>, field: ReturnField): seq<Row> { Mapped(trades, (t: Trade) => RowOf(t, field)) }

  lemma VetMeans(t: Trade, field: ReturnField)
    ensures Vet(t, field).Ok? <==> Counted(t, field)
    ensures Vet(t, field).Ok? ==> Vet(t, field).value == RowOf(t, field)
    ensures Counted(t, field) ==> BasisOf(t, field) == if field == NetR then Some(BasisName(t)) else None
  {
    ExplainedMeans(t);
    CostsPresent(t);
    hide CostsReconcile, Explained;
  }

  lemma CostsPresent(t: Trade)
    ensures Explained(t) ==> t.costs.Some? && t.netR.Some?
  {
  }

  lemma {:induction false} RowsAreOf(trades: seq<Trade>, field: ReturnField)
    requires forall t :: t in trades ==> Counted(t, field)
    ensures Rows(trades, field) == RowsOf(trades, field)
  {
    hide Vet, Counted, RowOf;
    if trades != [] {
      var n := |trades| - 1;
      assert forall t :: t in trades[..n] ==> t in trades;
      RowsAreOf(trades[..n], field);
      assert trades[n] in trades;
      VetMeans(trades[n], field);
    }
  }

  lemma BasesMean(trades: seq<Trade>, field: ReturnField)
    requires forall t :: t in trades ==> Counted(t, field)
    ensures |Bases(trades, field)| <= 1 <==> (field == NetR ==> OneBasis(trades))
    ensures field != NetR ==> Bases(trades, field) == {}
    ensures field == NetR && OneBasis(trades) && trades != [] ==> Bases(trades, field) == {BasisName(trades[0])}
  {
    hide Counted, BasisOf, BasisName;
    forall t | t in trades ensures BasisOf(t, field) == if field == NetR then Some(BasisName(t)) else None {
      VetMeans(t, field);
    }
    if field == NetR {
      if OneBasis(trades) && trades != [] {
        assert trades[0] in trades;
        assert Bases(trades, field) == {BasisName(trades[0])};
      } else if !OneBasis(trades) {
        var t, u :| t in trades && u in trades && BasisName(t) != BasisName(u);
        TwoMembers(Bases(trades, field), BasisName(t), BasisName(u));
      }
    }
  }

  lemma TwoMembers(s: set<string>, a: string, b: string)
    requires a in s && b in s && a != b
    ensures |s| > 1
  {
    assert |{a, b}| == 2;
    assert |s| == |s - {a, b}| + 2;
  }

  lemma NoReasons(trades: seq<Trade>, field: ReturnField)
    requires forall t :: t in trades ==> Vet(t, field).Ok?
    ensures Reasons(trades, field) == {}
  {
  }

  lemma AvailableFrom(count: nat, vetted: set<Reason>, rows: seq<Row>, bases: set<string>, risk: real)
    ensures PerformanceFrom(count, vetted, rows, bases, risk).Available? <==> vetted == {} && |bases| <= 1 && |rows| == count && rows != []
  {
    hide SortedValues, Gains, Losses, Sum, DrawdownR, DrawdownFraction, Equity, Round, OnlyBasis;
    if |bases| > 1 { assert MixedCostBases in vetted + {MixedCostBases}; } else { assert vetted + {} == vetted; }
  }

  lemma SomeReason(trades: seq<Trade>, field: ReturnField, t: Trade)
    requires t in trades && !Counted(t, field)
    ensures Reasons(trades, field) != {}
  {
    hide Vet, Counted;
    VetMeans(t, field);
    assert Vet(t, field).error in Reasons(trades, field);
  }

  lemma AllVetted(trades: seq<Trade>, field: ReturnField)
    requires forall t :: t in trades ==> Counted(t, field)
    ensures Reasons(trades, field) == {}
  {
    hide Vet, Counted;
    forall t | t in trades ensures Vet(t, field).Ok? { VetMeans(t, field); }
    NoReasons(trades, field);
  }

  /** A performance is available exactly for at least one trade, all of them counted, with costs of one basis. */
  lemma AvailableExactly(trades: seq<Trade>, field: ReturnField, risk: real)
    ensures PerformanceOf(trades, field, risk).Available? <==>
            trades != [] && (forall t :: t in trades ==> Counted(t, field)) && (field == NetR ==> OneBasis(trades))
  {
    hide PerformanceFrom, Counted, Rows, Reasons, Bases, OneBasis, RowOf;
    AvailableFrom(|trades|, Reasons(trades, field), Rows(trades, field), Bases(trades, field), risk);
    if forall t :: t in trades ==> Counted(t, field) {
      RowsAreOf(trades, field);
      BasesMean(trades, field);
      AllVetted(trades, field);
    } else {
      var t :| t in trades && !Counted(t, field);
      SomeReason(trades, field, t);
    }
  }

  // ----- sums and counts -----

  lemma {:induction false} GainsMean(values: seq<real>)
    ensures Gains(values) == Profit(values) && Losses(values) == Loss(values)
  {
    if values != [] {
      GainsMean(values[..|values| - 1]);
    }
  }

  // ----- the figures -----

  /** The rows of the trades as their positions closed. */
  ghost predicate InClosingOrder(rows: seq<Row>, trades: seq<Trade>, field: ReturnField) {
    && multiset(rows) == multiset(RowsOf(trades, field))
    && forall i, j :: 0 <= i < j < |rows| ==>
         || rows[i].exitTs < rows[j].exitTs
         || (rows[i].exitTs == rows[j].exitTs && rows[i].timestamp <= rows[j].timestamp)
  }

  ghost predicate Near(x: real, y: real) { Abs(x - y) <= HALF_UNIT }

  lemma RoundNear(x: real)
    ensures Near(Round(x, 1000000.0), x)
  {
    RoundError(x, 1000000.0);
  }

  lemma OrderedValues(trades: seq<Trade>, field: ReturnField) returns (rows: seq<Row>)
    requires forall t :: t in trades ==> Counted(t, field)
    ensures rows == SortBy(Rows(trades, field), RowLe) && InClosingOrder(rows, trades, field)
    ensures multiset(Values(rows)) == multiset(Outcomes(trades, field)) && |rows| == |trades|
  {
    RowsAreOf(trades, field);
    rows := SortBy(Rows(trades, field), RowLe);
    RowOrder();
    SortBySpec(Rows(trades, field), RowLe);
    assert forall i, j :: 0 <= i < j < |rows| ==> RowLe(rows[i], rows[j]);
    var value := (r: Row) => r.value;
    MappedPermuted(rows, RowsOf(trades, field), value);
    assert Values(rows) == Mapped(rows, value);
    assert Mapped(RowsOf(trades, field), value) == Outcomes(trades, field);
  }

  /**
   The counts and sums of an available performance: every trade counts once, the expectancy is the mean return, gross
   profit and loss are the sums of the positive and of the negated negative returns, and the factor their quotient.
   */
  lemma PerformanceMeans(trades: seq<Trade>, field: ReturnField, risk: real)
    requires PerformanceOf(trades, field, risk).Available?
    ensures var p, values := PerformanceOf(trades, field, risk), Outcomes(trades, field);
            && p.sampleSize == |trades| > 0
            && Near(p.expectancyR, Sum(values) / |trades| as real)
            && Near(p.grossProfitR, Profit(values)) && Near(p.grossLossR, Loss(values))
            && (p.profitFactor.Some? <==> Loss(values) > 0.0)
            && (p.profitFactor.Some? ==> Near(p.profitFactor.value, Profit(values) / Loss(values)))
            && p.costBasis == if field == NetR then Some(BasisName(trades[0])) else None
  {
    hide Outcomes, InClosingOrder, Profit, Loss, Gains, Losses, Sum, Near, Round, BasisName, OneBasis, Counted, Bases, Reasons, Rows,
      SortBy, OnlyBasis;
    AvailableExactly(trades, field, risk);
    var rows := OrderedValues(trades, field);
    SameSums(Values(rows), Outcomes(trades, field));
    BasesMean(trades, field);
    assert trades[0] in trades;
    OnlyBasisMeans(trades[0], field);
    SummaryMeans(Values(rows), risk, Bases(trades, field));
    hide Summarise;
  }

  lemma OnlyBasisMeans(t: Trade, field: ReturnField)
    ensures Counted(t, field) && field == NetR ==> OnlyBasis({BasisName(t)}) == Some(BasisName(t))
    ensures OnlyBasis({}) == None
  {
    CostsPresent(t);
    hide Explained;
  }


  /** Sums, profits and losses do not depend on the order. */
  lemma SameSums(p: seq<real>, q: seq<real>)
    requires multiset(p) == multiset(q)
    ensures Sum(p) == Sum(q) && Profit(p) == Profit(q) && Loss(p) == Loss(q)
  {
    var gain, loss := (x: real) => x > 0.0, (x: real) => x < 0.0;
    SumPermuted(p, q);
    FilterPermuted(p, q, gain);
    FilterPermuted(p, q, loss);
    SumPermuted(Filter(p, gain), Filter(q, gain));
    SumPermuted(Filter(p, loss), Filter(q, loss));
    hide Filter, Sum;
    FilterSame(p, gain, (x: real) => x > 0.0);
    FilterSame(q, gain, (x: real) => x > 0.0);
    FilterSame(p, loss, (x: real) => x < 0.0);
    FilterSame(q, loss, (x: real) => x < 0.0);
  }

  lemma SummaryMeans(values: seq<real>, risk: real, bases: set<string>)
    requires values != []
    ensures var p := Summarise(values, risk, bases);
            && p.Available? && p.sampleSize == |values| && p.costBasis == OnlyBasis(bases)
            && Near(p.expectancyR, Sum(values) / |values| as real)
            && Near(p.grossProfitR, Profit(values)) && Near(p.grossLossR, Loss(values))
            && (p.profitFactor.Some? <==> Loss(values) > 0.0)
            && (p.profitFactor.Some? ==> Near(p.profitFactor.value, Profit(values) / Loss(values)))
  {
    hide Gains, Losses, Profit, Loss, Sum, Near, Round;
    GainsMean(values);
    RoundNear(Sum(values) / |values| as real);
    RoundNear(Profit(values));
    RoundNear(Loss(values));
    if Loss(values) > 0.0 { RoundNear(Profit(values) / Loss(values)); }
  }

  // ----- drawdowns and equity -----

  /** One trade multiplies the equity by one plus its return times the risk, and by nothing less than zero. */
  lemma OneTradeEquity(value: real, risk: real)
    ensures Equity([value], risk) == if value * risk <= -1.0 then 0.0 else 1.0 + value * risk
  {
    assert [value][..0] == [];
  }

  /** Equity compounds over any split of the trades. */
  lemma {:induction false} EquityCompounds(a: seq<real>, b: seq<real>, risk: real)
    ensures Equity(a + b, risk) == Equity(a, risk) * Equity(b, risk)
  {
    hide Compound;
    if b == [] {
      assert a + b == a;
    } else {
      var n := |b| - 1;
      EquityCompounds(a, b[..n], risk);
      assert (a + b)[..|a + b| - 1] == a + b[..n];
      assert Equity(b, risk) == Compound(Equity(b[..n], risk), b[n], risk);
      assert Equity(a + b, risk) == Compound(Equity(a + b[..n], risk), b[n], risk);
      CompoundScales(Equity(a, risk), Equity(b[..n], risk), Equity(a + b[..n], risk), Equity(b, risk), b[n], risk);
    }
  }

  lemma CompoundScales(x: real, y: real, xy: real, z: real, value: real, risk: real)
    requires xy == x * y && z == Compound(y, value, risk)
    ensures Compound(xy, value, risk) == x * z
  {
    var m := Max(0.0, 1.0 + value * risk);
    assert (x * y) * m == x * (y * m);
  }

  /** The reported R drawdown is the largest earlier-minus-later gap of cumulative R. */
  ghost predicate GapsOf(p: Performance, values: seq<real>)
    requires p.Available?
  {
    && (forall a, b :: 0 <= a <= b <= |values| ==> Sum(values[..a]) - Sum(values[..b]) <= p.maxDrawdownR + HALF_UNIT)
    && (exists a, b :: 0 <= a <= b <= |values| && Near(p.maxDrawdownR, Sum(values[..a]) - Sum(values[..b])))
  }

  /** The percentage covers a fall between two equities, as a share of the first, and it is that share. */
  ghost predicate Covers(shown: real, from: real, to: real) { 100.0 * (from - to) <= (shown + HALF_UNIT) * from }

  ghost predicate IsShare(shown: real, from: real, to: real) { from > 0.0 && Near(shown, 100.0 * (from - to) / from) }

  /** The reported percentage is the largest fall from an earlier equity, as a share of it. */
  ghost predicate FallsOf(p: Performance, values: seq<real>, risk: real)
    requires p.Available?
  {
    && (forall a, b :: 0 <= a <= b <= |values| ==> Covers(p.maxDrawdownPct, Equity(values[..a], risk), Equity(values[..b], risk)))
    && (exists a, b :: 0 <= a <= b <= |values| && IsShare(p.maxDrawdownPct, Equity(values[..a], risk), Equity(values[..b], risk)))
  }

  ghost predicate DrawdownsOf(p: Performance, values: seq<real>, risk: real)
    requires p.Available?
  {
    GapsOf(p, values) && FallsOf(p, values, risk) && Abs(p.endingEquity - Equity(values, risk)) <= 0.000000005
  }

  lemma GapsMean(p: Performance, values: seq<real>)
    requires p.Available? && Near(p.maxDrawdownR, DrawdownR(values))
    ensures GapsOf(p, values)
  {
    hide Sum, DrawdownR;
    forall a, b | 0 <= a <= b <= |values| ensures Sum(values[..a]) - Sum(values[..b]) <= p.maxDrawdownR + HALF_UNIT {
      DrawdownBoundsGaps(values, a, b);
    }
    var i, j := DrawdownIsAttained(values);
    assert Near(p.maxDrawdownR, Sum(values[..i]) - Sum(values[..j]));
  }

  lemma FallIsCovered(from: real, to: real, bound: real, shown: real)
    requires from > 0.0 && Fall(from, to) <= bound && Near(shown, 100.0 * bound)
    ensures Covers(shown, from, to)
  {
    var f := Fall(from, to);
    assert f * from == from - to;
    assert 100.0 * f <= shown + HALF_UNIT;
    Scaled(100.0 * f, shown + HALF_UNIT, from);
  }

  lemma FallIsShare(from: real, to: real, shown: real)
    requires from > 0.0 && Near(shown, 100.0 * Fall(from, to))
    ensures IsShare(shown, from, to)
  {
    var f := Fall(from, to);
    assert f * from == from - to;
    Quotient(f, from, from - to);
  }

  lemma Quotient(f: real, x: real, y: real)
    requires x > 0.0 && f * x == y
    ensures 100.0 * f == 100.0 * y / x
  {
    assert (100.0 * f) * x == 100.0 * y;
  }

  lemma NothingFalls(shown: real)
    ensures Covers(shown, 0.0, 0.0)
  {
  }

  lemma Scaled(x: real, y: real, scale: real)
    requires x <= y && scale > 0.0
    ensures x * scale <= y * scale
  {
  }

  lemma FallsMean(p: Performance, values: seq<real>, risk: real)
    requires p.Available? && Near(p.maxDrawdownPct, 100.0 * DrawdownFraction(values, risk))
    ensures FallsOf(p, values, risk)
  {
    hide Equity, DrawdownFraction, Fall, Near, Covers, IsShare;
    forall a, b | 0 <= a <= b <= |values| ensures Covers(p.maxDrawdownPct, Equity(values[..a], risk), Equity(values[..b], risk)) {
      FallCovered(values, risk, a, b, p.maxDrawdownPct);
    }
    var i, j := DrawdownFractionIsAttained(values, risk);
    FallIsShare(Equity(values[..i], risk), Equity(values[..j], risk), p.maxDrawdownPct);
  }

  lemma FallCovered(values: seq<real>, risk: real, a: nat, b: nat, shown: real)
    requires a <= b <= |values| && Near(shown, 100.0 * DrawdownFraction(values, risk))
    ensures Covers(shown, Equity(values[..a], risk), Equity(values[..b], risk))
  {
    hide Equity, DrawdownFraction, Fall, Near, Covers;
    EquityStaysRuined(values[..a], values[a..b], risk);
    assert values[..a] + values[a..b] == values[..b];
    if Equity(values[..a], risk) > 0.0 {
      DrawdownFractionBoundsFalls(values, risk, a, b);
      FallIsCovered(Equity(values[..a], risk), Equity(values[..b], risk), DrawdownFraction(values, risk), shown);
    } else {
      NothingFalls(shown);
    }
  }

  /** The drawdowns and the ending equity of an available performance, over the returns in the order positions closed. */
  lemma DrawdownsMean(trades: seq<Trade>, field: ReturnField, risk: real) returns (rows: seq<Row>)
    requires PerformanceOf(trades, field, risk).Available?
    ensures InClosingOrder(rows, trades, field)
    ensures DrawdownsOf(PerformanceOf(trades, field, risk), Mapped(rows, (r: Row) => r.value), risk)
  {
    hide Summarise, DrawdownsOf, Outcomes, InClosingOrder, Counted, Bases, Reasons, Rows, SortBy, OneBasis, Mapped;
    AvailableExactly(trades, field, risk);
    rows := OrderedValues(trades, field);
    assert Values(rows) == Mapped(rows, (r: Row) => r.value);
    SummaryDrawdowns(Values(rows), risk, Bases(trades, field));
  }

  lemma SummaryDrawdowns(values: seq<real>, risk: real, bases: set<string>)
    requires values != []
    ensures Summarise(values, risk, bases).Available? && DrawdownsOf(Summarise(values, risk, bases), values, risk)
  {
    hide Sum, Near, Round, DrawdownR, DrawdownFraction, Equity, Summarise, GapsOf, FallsOf;
    SummaryFields(values, risk, bases);
    var p := Summarise(values, risk, bases);
    RoundNear(DrawdownR(values));
    RoundNear(DrawdownFraction(values, risk) * 100.0);
    EquityNear(Equity(values, risk));
    GapsMean(p, values);
    FallsMean(p, values, risk);
  }

  lemma SummaryFields(values: seq<real>, risk: real, bases: set<string>)
    requires values != []
    ensures var p := Summarise(values, risk, bases);
            && p.Available? && p.maxDrawdownR == Round(DrawdownR(values), 1000000.0)
            && p.maxDrawdownPct == Round(DrawdownFraction(values, risk) * 100.0, 1000000.0)
            && p.endingEquity == Round(Equity(values, risk), 100000000.0)
  {
    hide Sum, Round, DrawdownR, DrawdownFraction, Equity;
  }

  lemma EquityNear(equity: real)
    ensures Abs(Round(equity, 100000000.0) - equity) <= 0.000000005
  {
    hide Round;
    RoundError(equity, 100000000.0);
  }
}
