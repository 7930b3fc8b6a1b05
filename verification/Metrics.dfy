/** Performance metrics, selection order and walk-forward windows (scripts/backtest_metrics.py). */
module Metrics {
  import opened Common
  import opened Permutations
  import opened Trades

  /** The risk taken per trade unless a caller names another. */
  const RISK_FRACTION: real := 0.01

  datatype ReturnField = NetR | GrossR | SlippageAdjustedR

  datatype Reason =
    MissingReturn | UnreconciledCosts | MissingCostBasis | InvalidTimestamps | MixedCostBases | NoTrades

  datatype Performance =
    | Unavailable(rejected: int, reasons: set<Reason>)
    | Available(
        sampleSize: int,
        expectancyR: real,
        grossProfitR: real,
        grossLossR: real,
        profitFactor: Option<real>,
        maxDrawdownR: real,
        maxDrawdownPct: real,
        endingEquity: real,
        costBasis: Option<string>)

  /** One accepted trade: the sort key of the metrics loop, the return itself last. */
  datatype Row = Row(exitTs: int, timestamp: int, symbol: string, value: real)

  function ReturnOf(trade: Trade, field: ReturnField): Option<real> {
    match field
    case NetR => trade.netR
    case GrossR => trade.realizedR
    case SlippageAdjustedR => trade.slippageAdjustedR
  }

  /** The cost basis a trade contributes; packets without the field count as realized. */
  function BasisOf(trade: Trade, field: ReturnField): Option<string> {
    if field.NetR? && trade.netR.Some? && CostsReconcile(trade) then
      var basis := trade.costs.value.basis.GetOr("realized");
      if basis in {"realized", "modeled"} then Some(basis) else None
    else None
  }

  function Vet(trade: Trade, field: ReturnField): Result<Row, Reason> {
    var value := ReturnOf(trade, field);
    if value.None? then Err(MissingReturn)
    else if field.NetR? && !CostsReconcile(trade) then Err(UnreconciledCosts)
    else if field.NetR? && BasisOf(trade, field).None? then Err(MissingCostBasis)
    else
      var exitTs := trade.exitTs.GetOr(trade.timestamp);
      if exitTs < trade.timestamp then Err(InvalidTimestamps)
      else Ok(Row(exitTs, trade.timestamp, trade.symbol, value.value))
  }

  predicate RowLe(a: Row, b: Row) {
    if a.exitTs != b.exitTs then a.exitTs < b.exitTs
    else if a.timestamp != b.timestamp then a.timestamp < b.timestamp
    else if a.symbol != b.symbol then StringLe(a.symbol, b.symbol)
    else a.value <= b.value
  }

  lemma RowOrder()
    ensures TotalPreorder(RowLe) && Antisymmetric(RowLe)
  {
    StringOrder();
  }

  function Rows(trades: seq<Trade>, field: ReturnField): seq<Row> {
    if trades == [] then []
    else
      var n := |trades| - 1;
      match Vet(trades[n], field)
      case Ok(row) => Rows(trades[..n], field) + [row]
      case Err(_) => Rows(trades[..n], field)
  }

  function Reasons(trades: seq<Trade>, field: ReturnField): set<Reason> {
    set t | t in trades && Vet(t, field).Err? :: Vet(t, field).error
  }

  function Bases(trades: seq<Trade>, field: ReturnField): set<string> {
    set t | t in trades && BasisOf(t, field).Some? :: BasisOf(t, field).value
  }

  function Values(rows: seq<Row>): (r: seq<real>)
    ensures |r| == |rows|
  {
    seq(|rows|, i requires 0 <= i < |rows| => rows[i].value)
  }

  /** The returns in the order their positions closed. */
  function SortedValues(rows: seq<Row>): (r: seq<real>)
    ensures |r| == |rows|
  {
    RowOrder();
    SortBySpec(rows, RowLe);
    Values(SortBy(rows, RowLe))
  }

  function Gains(values: seq<real>): real {
    if values == [] then 0.0 else Gains(values[..|values| - 1]) + Max(0.0, values[|values| - 1])
  }

  function Losses(values: seq<real>): real {
    if values == [] then 0.0 else Losses(values[..|values| - 1]) + Max(0.0, -values[|values| - 1])
  }

  // ----- one-pass drawdowns -----

  function PeakR(values: seq<real>): real {
    if values == [] then 0.0 else Max(PeakR(values[..|values| - 1]), Sum(values))
  }

  function DrawdownR(values: seq<real>): real {
    if values == [] then 0.0 else Max(DrawdownR(values[..|values| - 1]), PeakR(values) - Sum(values))
  }

  /** Equity after one trade that risks a fixed fraction of it; a loss cannot take more than everything. */
  function Compound(equity: real, value: real, risk: real): real {
    equity * Max(0.0, 1.0 + value * risk)
  }

  /** A fall from an earlier equity, as a fraction of it. */
  function Fall(from: real, to: real): real
    requires from > 0.0
  {
    (from - to) / from
  }

  function Equity(values: seq<real>, risk: real): real {
    if values == [] then 1.0
    else Compound(Equity(values[..|values| - 1], risk), values[|values| - 1], risk)
  }

  function PeakEquity(values: seq<real>, risk: real): real {
    if values == [] then 1.0 else Max(PeakEquity(values[..|values| - 1], risk), Equity(values, risk))
  }

  function DrawdownFraction(values: seq<real>, risk: real): real {
    if values == [] then 0.0
    else
      var before := DrawdownFraction(values[..|values| - 1], risk);
      var peak := PeakEquity(values, risk);
      if peak > 0.0 then Max(before, Fall(peak, Equity(values, risk))) else before
  }

  /** The report's cost basis; PerformanceOf never summarises more than one. */
  function OnlyBasis(bases: set<string>): Option<string> {
    if "realized" in bases then Some("realized") else if "modeled" in bases then Some("modeled") else None
  }

  function Summarise(values: seq<real>, risk: real, bases: set<string>): Performance
    requires values != []
  {
    var gains, losses := Gains(values), Losses(values);
    Available(
      |values|,
      Round(Sum(values) / |values| as real, 1000000.0),
      Round(gains, 1000000.0),
      Round(losses, 1000000.0),
      if losses > 0.0 then Some(Round(gains / losses, 1000000.0)) else None,
      Round(DrawdownR(values), 1000000.0),
      Round(DrawdownFraction(values, risk) * 100.0, 1000000.0),
      Round(Equity(values, risk), 100000000.0),
      OnlyBasis(bases))
  }

  /** The metrics of a trade list: refused as a whole unless every trade is accepted. */
  function PerformanceOf(trades: seq<Trade>, field: ReturnField, risk: real): Performance {
    PerformanceFrom(|trades|, Reasons(trades, field), Rows(trades, field), Bases(trades, field), risk)
  }

  function PerformanceFrom(count: nat, vetted: set<Reason>, rows: seq<Row>, bases: set<string>, risk: real): Performance {
    var reasons := vetted + (if |bases| > 1 then {MixedCostBases} else {});
    if reasons != {} || |rows| != count || rows == [] then
      Unavailable(count - |rows|, reasons + (if count == 0 then {NoTrades} else {}))
    else Summarise(SortedValues(rows), risk, bases)
  }

  // ----- the loop -----

  datatype MetricsError = InvalidRiskFraction

  method PerformanceMetrics(trades: seq<Trade>, field: ReturnField, risk: real) returns (result: Result<Performance, MetricsError>)
    ensures result == if 0.0 < risk <= 1.0 then Ok(PerformanceOf(trades, field, risk)) else Err(InvalidRiskFraction)
  {
    if !(0.0 < risk <= 1.0) {
      return Err(InvalidRiskFraction);
    }
    hide Summarise, Rows, Reasons, Bases, SortedValues;
    var reasons, ordered, bases := VetAll(trades, field);
    assert PerformanceOf(trades, field, risk) == PerformanceFrom(|trades|, reasons, ordered, bases, risk);
    hide PerformanceOf;
    ghost var vetted := reasons;
    if |bases| > 1 {
      reasons := reasons + {MixedCostBases};
    }
    assert reasons == vetted + (if |bases| > 1 then {MixedCostBases} else {});
    if reasons != {} || |ordered| != |trades| || ordered == [] {
      if trades == [] {
        reasons := reasons + {NoTrades};
      }
      assert reasons + {} == reasons;
      return Ok(Unavailable(|trades| - |ordered|, reasons));
    }
    var summary := Scan(SortedValues(ordered), risk, bases);
    return Ok(summary);
  }

  /** The vetting loop: rejection reasons, accepted rows, and the cost bases met. */
  method VetAll(trades: seq<Trade>, field: ReturnField) returns (reasons: set<Reason>, ordered: seq<Row>, bases: set<string>)
    ensures reasons == Reasons(trades, field) && ordered == Rows(trades, field) && bases == Bases(trades, field)
  {
    hide Vet, BasisOf, Rows, Reasons, Bases;
    reasons, ordered, bases := {}, [], {};
    NothingSeen(trades, field);
    for k := 0 to |trades|
      invariant reasons == Reasons(trades[..k], field)
      invariant ordered == Rows(trades[..k], field)
      invariant bases == Bases(trades[..k], field)
    {
      var trade := trades[k];
      PrefixSnoc(trades, k, field);
      var basis := BasisOf(trade, field);
      if basis.Some? {
        bases := bases + {basis.value};
      }
      match Vet(trade, field)
      case Ok(row) => ordered := ordered + [row];
      case Err(reason) => reasons := reasons + {reason};
    }
    assert trades[..|trades|] == trades;
  }

  /** One pass over the sorted returns, keeping running peaks. */
  method Scan(values: seq<real>, risk: real, bases: set<string>) returns (summary: Performance)
    requires values != []
    ensures summary == Summarise(values, risk, bases)
  {
    hide Compound, Fall, Round;
    var gains, losses := 0.0, 0.0;
    var equity, peakEquity, drawdownFraction := 1.0, 1.0, 0.0;
    var cumulative, peak, drawdown := 0.0, 0.0, 0.0;
    for k := 0 to |values|
      invariant gains == Gains(values[..k]) && losses == Losses(values[..k])
      invariant equity == Equity(values[..k], risk) && peakEquity == PeakEquity(values[..k], risk)
      invariant drawdownFraction == DrawdownFraction(values[..k], risk)
      invariant cumulative == Sum(values[..k]) && peak == PeakR(values[..k]) && drawdown == DrawdownR(values[..k])
    {
      hide Gains, Losses, Equity, PeakEquity, DrawdownFraction, Sum, PeakR, DrawdownR;
      var value := values[k];
      ScanStep(values, k, risk);
      if value > 0.0 { gains := gains + value; }
      if value < 0.0 { losses := losses - value; }
      equity := Compound(equity, value, risk);
      peakEquity := Max(peakEquity, equity);
      if peakEquity > 0.0 {
        drawdownFraction := Max(drawdownFraction, Fall(peakEquity, equity));
      }
      cumulative := cumulative + value;
      peak := Max(peak, cumulative);
      drawdown := Max(drawdown, peak - cumulative);
    }
    assert values[..|values|] == values;
    summary := Available(
      |values|, Round(cumulative / |values| as real, 1000000.0), Round(gains, 1000000.0), Round(losses, 1000000.0),
      if losses > 0.0 then Some(Round(gains / losses, 1000000.0)) else None,
      Round(drawdown, 1000000.0), Round(drawdownFraction * 100.0, 1000000.0), Round(equity, 100000000.0), OnlyBasis(bases));
  }

  /** Each running figure extends by the next return. */
  lemma ScanStep(values: seq<real>, k: nat, risk: real)
    requires k < |values|
    ensures var seen, next, value := values[..k], values[..k + 1], values[k];
            && Gains(next) == Gains(seen) + Max(0.0, value)
            && Losses(next) == Losses(seen) + Max(0.0, -value)
            && Sum(next) == Sum(seen) + value
            && PeakR(next) == Max(PeakR(seen), Sum(next))
            && DrawdownR(next) == Max(DrawdownR(seen), PeakR(next) - Sum(next))
            && Equity(next, risk) == Compound(Equity(seen, risk), value, risk)
            && PeakEquity(next, risk) == Max(PeakEquity(seen, risk), Equity(next, risk))
            && DrawdownFraction(next, risk) ==
                 (var peak := PeakEquity(next, risk);
                  if peak > 0.0 then Max(DrawdownFraction(seen, risk), Fall(peak, Equity(next, risk)))
                  else DrawdownFraction(seen, risk))
  {
    hide Compound, Fall, Max;
    assert values[..k + 1][..k] == values[..k];
  }

  lemma NothingSeen(trades: seq<Trade>, field: ReturnField)
    ensures Rows(trades[..0], field) == [] && Reasons(trades[..0], field) == {} && Bases(trades[..0], field) == {}
  {
  }

  lemma PrefixSnoc(trades: seq<Trade>, k: nat, field: ReturnField)
    requires k < |trades|
    ensures var seen, next := trades[..k], trades[..k + 1];
            var vet, basis := Vet(trades[k], field), BasisOf(trades[k], field);
            && Rows(next, field) == Rows(seen, field) + (if vet.Ok? then [vet.value] else [])
            && Reasons(next, field) == Reasons(seen, field) + (if vet.Err? then {vet.error} else {})
            && Bases(next, field) == Bases(seen, field) + (if basis.Some? then {basis.value} else {})
  {
    hide Vet, BasisOf;
    var seen, next := trades[..k], trades[..k + 1];
    assert next[..k] == seen;
    assert forall t :: t in next <==> t in seen || t == trades[k];
  }

  // ----- what the loop computes -----

  /** The one-pass R drawdown bounds every earlier-minus-later gap of cumulative R, the empty prefix included. */
  lemma {:induction false} DrawdownBoundsGaps(values: seq<real>, a: nat, b: nat)
    requires a <= b <= |values|
    ensures Sum(values[..a]) - Sum(values[..b]) <= DrawdownR(values)
    ensures DrawdownR(values) >= 0.0
  {
    if values != [] {
      var n := |values| - 1;
      if b <= n {
        DrawdownBoundsGaps(values[..n], a, b);
        assert values[..n][..a] == values[..a] && values[..n][..b] == values[..b];
      } else {
        DrawdownBoundsGaps(values[..n], n, n);
        assert values[..b] == values;
        var _ := PeakIsLargestSum(values);
      }
    }
  }

  /** And one of those gaps attains it, so the drawdown is their maximum. */
  lemma {:induction false} DrawdownIsAttained(values: seq<real>) returns (i: nat, j: nat)
    ensures i <= j <= |values| && DrawdownR(values) == Sum(values[..i]) - Sum(values[..j])
  {
    if values == [] {
      i, j := 0, 0;
    } else {
      var n := |values| - 1;
      i, j := DrawdownIsAttained(values[..n]);
      assert values[..n][..i] == values[..i] && values[..n][..j] == values[..j];
      if PeakR(values) - Sum(values) > DrawdownR(values[..n]) {
        i := PeakIsLargestSum(values);
        j := n + 1;
        assert values[..n + 1] == values;
      }
    }
  }

  lemma {:induction false} PeakIsLargestSum(values: seq<real>) returns (top: nat)
    ensures forall a :: 0 <= a <= |values| ==> Sum(values[..a]) <= PeakR(values)
    ensures top <= |values| && PeakR(values) == Sum(values[..top])
  {
    if values == [] {
      top := 0;
    } else {
      var n := |values| - 1;
      top := PeakIsLargestSum(values[..n]);
      assert forall a :: 0 <= a <= n ==> values[..n][..a] == values[..a];
      assert values[..n + 1] == values;
      if Sum(values) > PeakR(values[..n]) { top := n + 1; }
    }
  }

  /** Equity never goes negative, and a ruined account stays ruined. */
  lemma {:induction false} EquityStaysRuined(values: seq<real>, more: seq<real>, risk: real)
    ensures Equity(values, risk) >= 0.0
    ensures Equity(values, risk) == 0.0 ==> Equity(values + more, risk) == 0.0
  {
    if values != [] { EquityStaysRuined(values[..|values| - 1], [], risk); }
    if more == [] {
      assert values + more == values;
    } else {
      EquityStaysRuined(values, more[..|more| - 1], risk);
      assert (values + more)[..|values + more| - 1] == values + more[..|more| - 1];
    }
  }

  lemma {:induction false} PeakEquityIsLargest(values: seq<real>, risk: real) returns (top: nat)
    ensures forall a :: 0 <= a <= |values| ==> Equity(values[..a], risk) <= PeakEquity(values, risk)
    ensures top <= |values| && PeakEquity(values, risk) == Equity(values[..top], risk)
    ensures PeakEquity(values, risk) >= 1.0
  {
    if values == [] {
      top := 0;
    } else {
      var n := |values| - 1;
      top := PeakEquityIsLargest(values[..n], risk);
      assert forall a :: 0 <= a <= n ==> values[..n][..a] == values[..a];
      assert values[..n + 1] == values;
      if Equity(values, risk) > PeakEquity(values[..n], risk) { top := n + 1; }
    }
  }

  lemma FallMonotone(low: real, high: real, to: real)
    requires 0.0 < low <= high && 0.0 <= to
    ensures Fall(low, to) <= Fall(high, to)
    ensures to <= low ==> 0.0 <= Fall(low, to)
    ensures Fall(low, to) <= 1.0
  {
    assert Fall(low, to) * low == low - to && Fall(high, to) * high == high - to;
    assert (1.0 - Fall(low, to)) * low == to && (1.0 - Fall(high, to)) * high == to;
    QuotientOrder(1.0 - Fall(high, to), high, 1.0 - Fall(low, to), low);
    if to <= low { NonNegativeFactor(Fall(low, to), low); }
    NonNegativeFactor(1.0 - Fall(low, to), low);
  }

  lemma NonNegativeFactor(x: real, y: real)
    requires y > 0.0 && x * y >= 0.0
    ensures x >= 0.0
  {
  }

  lemma QuotientOrder(x: real, high: real, y: real, low: real)
    requires 0.0 < low <= high && x * high == y * low && x * high >= 0.0
    ensures x <= y
  {
    NonNegativeFactor(x, high);
    assert x * low <= x * high;
    assert (y - x) * low >= 0.0;
    NonNegativeFactor(y - x, low);
  }

  lemma LastFall(values: seq<real>, risk: real)
    ensures PeakEquity(values, risk) > 0.0
    ensures 0.0 <= Fall(PeakEquity(values, risk), Equity(values, risk)) <= 1.0
    ensures values != [] ==>
      var before := DrawdownFraction(values[..|values| - 1], risk);
      DrawdownFraction(values, risk) == Max(before, Fall(PeakEquity(values, risk), Equity(values, risk)))
  {
    hide Fall, Equity;
    var _ := PeakEquityIsLargest(values, risk);
    EquityStaysRuined(values, [], risk);
    assert values[..|values|] == values;
    FallMonotone(PeakEquity(values, risk), PeakEquity(values, risk), Equity(values, risk));
  }

  /** The equity drawdown stays in [0, 1] and bounds every fall from an earlier equity, as a fraction of it. */
  lemma {:induction false} DrawdownFractionBoundsFalls(values: seq<real>, risk: real, a: nat, b: nat)
    requires a <= b <= |values| && Equity(values[..a], risk) > 0.0
    ensures 0.0 <= DrawdownFraction(values, risk) <= 1.0
    ensures Fall(Equity(values[..a], risk), Equity(values[..b], risk)) <= DrawdownFraction(values, risk)
  {
    if values == [] {
      assert values[..a] == [] && values[..b] == [];
    } else {
      hide Fall, Equity, PeakEquity, DrawdownFraction;
      var n := |values| - 1;
      LastFall(values, risk);
      if b <= n {
        DrawdownFractionBoundsFalls(values[..n], risk, a, b) by {
          assert values[..n][..a] == values[..a];
        }
        assert values[..n][..a] == values[..a] && values[..n][..b] == values[..b];
      } else {
        FractionInRange(values[..n], risk);
        assert values[..b] == values;
        var _ := PeakEquityIsLargest(values, risk);
        EquityStaysRuined(values, [], risk);
        FallMonotone(Equity(values[..a], risk), PeakEquity(values, risk), Equity(values, risk));
      }
    }
  }

  lemma {:induction false} FractionInRange(values: seq<real>, risk: real)
    ensures 0.0 <= DrawdownFraction(values, risk) <= 1.0
  {
    if values != [] {
      FractionInRange(values[..|values| - 1], risk);
      LastFall(values, risk);
    }
  }

  /** And one of those falls attains it. */
  lemma {:induction false} DrawdownFractionIsAttained(values: seq<real>, risk: real) returns (i: nat, j: nat)
    ensures i <= j <= |values| && Equity(values[..i], risk) > 0.0
    ensures DrawdownFraction(values, risk) == Fall(Equity(values[..i], risk), Equity(values[..j], risk))
  {
    if values == [] {
      i, j := 0, 0;
    } else {
      hide Fall, Equity, PeakEquity, DrawdownFraction;
      var n := |values| - 1;
      i, j := DrawdownFractionIsAttained(values[..n], risk);
      assert values[..n][..i] == values[..i] && values[..n][..j] == values[..j];
      LastFall(values, risk);
      if Fall(PeakEquity(values, risk), Equity(values, risk)) > DrawdownFraction(values[..n], risk) {
        i := PeakEquityIsLargest(values, risk);
        j := n + 1;
        assert values[..n + 1] == values;
      }
    }
  }

  /** Before rounding, gross profit minus gross loss is the sum of the returns. */
  lemma {:induction false} ProfitMinusLoss(values: seq<real>)
    ensures Gains(values) - Losses(values) == Sum(values)
    ensures Gains(values) >= 0.0 && Losses(values) >= 0.0
  {
    if values != [] {
      ProfitMinusLoss(values[..|values| - 1]);
    }
  }

  // ----- the order in which trades arrive does not matter -----

  lemma {:induction false} RowsAppend(a: seq<Trade>, b: seq<Trade>, field: ReturnField)
    ensures Rows(a + b, field) == Rows(a, field) + Rows(b, field)
  {
    hide Vet;
    if b == [] {
      assert a + b == a;
    } else {
      RowsAppend(a, b[..|b| - 1], field);
      assert (a + b)[..|a + b| - 1] == a + b[..|b| - 1];
    }
  }

  lemma RowsAround(a: seq<Trade>, x: Trade, b: seq<Trade>, field: ReturnField)
    ensures multiset(Rows(a + [x] + b, field)) == multiset(Rows(a + b, field)) + multiset(Rows([x], field))
  {
    hide Vet, Rows;
    RowsAppend(a, b, field);
    RowsAppend(a, [x], field);
    RowsAppend(a + [x], b, field);
  }

  lemma {:induction false} RowsPermuted(p: seq<Trade>, q: seq<Trade>, field: ReturnField)
    requires multiset(p) == multiset(q)
    ensures multiset(Rows(p, field)) == multiset(Rows(q, field))
  {
    hide Rows;
    if p == [] {
      NothingLeft(q);
    } else {
      var n := |p| - 1;
      var left, right := WhereLast(p, q);
      RowsPermuted(p[..n], left + right, field);
      RowsAround(p[..n], p[n], [], field);
      RowsAround(left, p[n], right, field);
      assert p[..n] + [p[n]] + [] == p && p[..n] + [] == p[..n];
    }
  }

  lemma SortedRowsPermuted(p: seq<Trade>, q: seq<Trade>, field: ReturnField)
    requires multiset(p) == multiset(q)
    ensures SortBy(Rows(p, field), RowLe) == SortBy(Rows(q, field), RowLe)
    ensures |Rows(p, field)| == |Rows(q, field)|
  {
    hide Rows, RowLe;
    RowsPermuted(p, q, field);
    var a, b := Rows(p, field), Rows(q, field);
    SameMembers(a, b);
    RowOrder();
    SortBySpec(a, RowLe);
    SortBySpec(b, RowLe);
    SortedUnique(SortBy(a, RowLe), SortBy(b, RowLe), RowLe);
  }

  lemma SetsPermuted(p: seq<Trade>, q: seq<Trade>, field: ReturnField)
    requires multiset(p) == multiset(q)
    ensures Reasons(p, field) == Reasons(q, field) && Bases(p, field) == Bases(q, field)
  {
    hide Vet, BasisOf;
    SameMembers(p, q);
  }

  /** Reordering the trades changes no figure of the metrics. */
  lemma PerformancePermuted(p: seq<Trade>, q: seq<Trade>, field: ReturnField, risk: real)
    requires multiset(p) == multiset(q)
    ensures PerformanceOf(p, field, risk) == PerformanceOf(q, field, risk)
  {
    hide Rows, Reasons, Bases, SortBy, Summarise;
    assert |multiset(p)| == |p| && |multiset(q)| == |q|;
    SortedRowsPermuted(p, q, field);
    SetsPermuted(p, q, field);
  }

  // ----- selection order -----

  /** A real, or infinity. */
  type Extended = Option<real>

  /** selection_key: compared field by field, smaller is better. */
  datatype Key = Key(
    unavailable: int,
    negPositive: int,
    negPositiveRatio: real,
    drawdownPct: Extended,
    negProfitFactor: real,
    negExpectancy: real,
    negSample: int,
    complexity: Extended)

  datatype Candidate = Candidate(oosFolds: int, positiveFolds: int, performance: Performance, complexity: int)

  const WORST: Key := Key(1, 0, 0.0, None, 0.0, 0.0, 0, None)

  function SelectionKey(candidate: Candidate): Key {
    if candidate.performance.Unavailable? || candidate.oosFolds <= 0
       || !(0 <= candidate.positiveFolds <= candidate.oosFolds) then WORST
    else
      var p := candidate.performance;
      Key(0, -candidate.positiveFolds, -(candidate.positiveFolds as real / candidate.oosFolds as real),
          Some(p.maxDrawdownPct), if p.profitFactor.Some? then -p.profitFactor.value else 0.0,
          -p.expectancyR, -p.sampleSize, Some(candidate.complexity as real))
  }

  predicate ExtendedLe(a: Extended, b: Extended) { b.None? || (a.Some? && a.value <= b.value) }

  predicate KeyLe(a: Key, b: Key) {
    if a.unavailable != b.unavailable then a.unavailable < b.unavailable
    else if a.negPositive != b.negPositive then a.negPositive < b.negPositive
    else if a.negPositiveRatio != b.negPositiveRatio then a.negPositiveRatio < b.negPositiveRatio
    else if a.drawdownPct != b.drawdownPct then ExtendedLe(a.drawdownPct, b.drawdownPct)
    else if a.negProfitFactor != b.negProfitFactor then a.negProfitFactor < b.negProfitFactor
    else if a.negExpectancy != b.negExpectancy then a.negExpectancy < b.negExpectancy
    else if a.negSample != b.negSample then a.negSample < b.negSample
    else ExtendedLe(a.complexity, b.complexity)
  }

  /** A ranked configuration: its key, then its name. */
  datatype Ranked = Ranked(key: Key, name: string)

  predicate RankedLe(a: Ranked, b: Ranked) {
    if a.key != b.key then KeyLe(a.key, b.key) else StringLe(a.name, b.name)
  }

  lemma RankedOrder()
    ensures TotalPreorder(RankedLe) && Antisymmetric(RankedLe)
  {
    hide StringLe;
    StringOrder();
  }

  ghost predicate Usable(c: Candidate) {
    c.performance.Available? && c.oosFolds > 0 && 0 <= c.positiveFolds <= c.oosFolds
  }

  /** A strictly better candidate in the documented order: folds, drawdown, profit factor, expectancy, sample, simplicity. */
  ghost predicate Better(a: Candidate, b: Candidate)
    requires Usable(a) && Usable(b)
  {
    var p, q := a.performance, b.performance;
    var pf, qf := p.profitFactor.GetOr(0.0), q.profitFactor.GetOr(0.0);
    || a.positiveFolds > b.positiveFolds
    || (a.positiveFolds == b.positiveFolds && (
      || p.maxDrawdownPct < q.maxDrawdownPct
      || (p.maxDrawdownPct == q.maxDrawdownPct && (
        || pf > qf
        || (pf == qf && (
          || p.expectancyR > q.expectancyR
          || (p.expectancyR == q.expectancyR && (
            || p.sampleSize > q.sampleSize
            || (p.sampleSize == q.sampleSize && a.complexity < b.complexity)))))))))
  }

  /** Between usable candidates with equally many folds the key order is the documented one; unusable ones come last. */
  lemma KeyOrderMeansBetter(a: Candidate, b: Candidate)
    ensures Usable(a) && Usable(b) && a.oosFolds == b.oosFolds ==>
      (Better(a, b) <==> KeyLe(SelectionKey(a), SelectionKey(b)) && SelectionKey(a) != SelectionKey(b))
    ensures Usable(a) && !Usable(b) ==> KeyLe(SelectionKey(a), SelectionKey(b)) && SelectionKey(a) != SelectionKey(b)
    ensures !Usable(a) ==> SelectionKey(a) == WORST
  {
  }

  // ----- walk-forward windows -----

  datatype Window = Window(
    fold: int, trainStart: int, selectionEnd: int, testStart: int, testSignalEnd: int, testEnd: int, purge: int)

  datatype WindowError = InvalidWindow | InvalidHorizon | TooFewFolds | InvalidFraction | FoldsTooShort

  function FoldWindow(start: int, end: int, horizon: int, folds: int, firstTest: int, width: int, index: int): Window {
    var testStart := firstTest + index * width;
    var testEnd := if index == folds - 1 then end else firstTest + (index + 1) * width;
    Window(index + 1, start, testStart - horizon, testStart, testEnd - horizon, testEnd, horizon)
  }

  function FirstTest(start: int, end: int, fraction: real): int { start + ((end - start) as real * fraction).Floor }

  function FoldWidth(start: int, end: int, folds: int, fraction: real): int
    requires folds > 0
  {
    (end - FirstTest(start, end, fraction)) / folds
  }

  function Windows(start: int, end: int, horizon: int, folds: int, fraction: real): Result<seq<Window>, WindowError> {
    if start >= end then Err(InvalidWindow)
    else if horizon < 0 then Err(InvalidHorizon)
    else if folds < 2 then Err(TooFewFolds)
    else if !(0.0 < fraction < 1.0) then Err(InvalidFraction)
    else
      var firstTest, width := FirstTest(start, end, fraction), FoldWidth(start, end, folds, fraction);
      if width <= horizon then Err(FoldsTooShort)
      else Ok(seq(folds, i => FoldWindow(start, end, horizon, folds, firstTest, width, i)))
  }

  method ExpandingWalkForwardWindows(start: int, end: int, horizon: int, folds: int, fraction: real)
    returns (result: Result<seq<Window>, WindowError>)
    ensures result == Windows(start, end, horizon, folds, fraction)
  {
    if start >= end { return Err(InvalidWindow); }
    if horizon < 0 { return Err(InvalidHorizon); }
    if folds < 2 { return Err(TooFewFolds); }
    if !(0.0 < fraction < 1.0) { return Err(InvalidFraction); }
    var firstTest := start + ((end - start) as real * fraction).Floor;
    var width := (end - firstTest) / folds;
    if width <= horizon { return Err(FoldsTooShort); }
    var windows: seq<Window> := [];
    for index := 0 to folds
      invariant windows == seq(index, i => FoldWindow(start, end, horizon, folds, firstTest, width, i))
    {
      var testStart := firstTest + index * width;
      var testEnd := if index == folds - 1 then end else firstTest + (index + 1) * width;
      windows := windows + [Window(index + 1, start, testStart - horizon, testStart, testEnd - horizon, testEnd, horizon)];
    }
    return Ok(windows);
  }

  /**
   Test folds tile the tail of the window: the first starts inside it, each starts where the previous one ends,
   the last ends with it. Every signal window is non-empty and closes a full horizon before the next fold.
   */
  lemma FoldsTileTheTail(start: int, end: int, horizon: int, folds: int, fraction: real)
    requires Windows(start, end, horizon, folds, fraction).Ok?
    ensures var w := Windows(start, end, horizon, folds, fraction).value;
            && |w| == folds >= 2
            && start <= w[0].testStart == FirstTest(start, end, fraction) < end
            && w[|w| - 1].testEnd == end
            && (forall i :: 0 <= i < |w| ==> w[i].testStart < w[i].testSignalEnd == w[i].testEnd - horizon)
            && (forall i, j :: 0 <= i < j < |w| ==> w[i].testEnd <= w[j].testStart && (j == i + 1 ==> w[i].testEnd == w[j].testStart))
            && (forall i :: 0 <= i < |w| ==> w[i].selectionEnd == w[i].testStart - horizon && w[i].trainStart == start)
  {
    var firstTest, width := FirstTest(start, end, fraction), FoldWidth(start, end, folds, fraction);
    var w := Windows(start, end, horizon, folds, fraction).value;
    FractionInside((end - start) as real, fraction);
    assert folds * width <= end - firstTest;
    WidthsAdd(folds - 1, folds, width);
    forall i, j | 0 <= i < j < folds ensures w[i].testEnd <= w[j].testStart && (j == i + 1 ==> w[i].testEnd == w[j].testStart) {
      WidthsAdd(i + 1, j, width);
    }
    forall i | 0 <= i < folds ensures w[i].testStart < w[i].testSignalEnd == w[i].testEnd - horizon {
      WidthsAdd(i, i + 1, width);
    }
  }

  lemma FractionInside(span: real, fraction: real)
    requires span >= 1.0 && 0.0 < fraction < 1.0
    ensures 0.0 <= span * fraction < span
  {
  }

  lemma WidthsAdd(i: int, j: int, width: int)
    requires i <= j && width >= 0
    ensures i * width <= j * width
    ensures (i + 1) * width == i * width + width
  {
  }

  /** A trade that signals inside a fold and exits within the horizon is settled before the next fold begins. */
  lemma FoldTradesSettleFirst(start: int, end: int, horizon: int, folds: int, fraction: real, i: int, j: int, signal: int, exit: int)
    requires Windows(start, end, horizon, folds, fraction).Ok? && 0 <= i < j < folds
    requires var w := Windows(start, end, horizon, folds, fraction).value[i]; w.testStart <= signal < w.testSignalEnd
    requires exit <= signal + horizon
    ensures exit < Windows(start, end, horizon, folds, fraction).value[j].testStart
  {
    FoldsTileTheTail(start, end, horizon, folds, fraction);
  }
}
