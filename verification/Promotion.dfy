/** Summaries of trades and the verdict on promoting a configuration (scripts/historical_backtest.py). */
module Promotion {
  import opened Common
  import opened Trades
  import opened Metrics
  import Settlement

  datatype Summary = Summary(
    signals: int, settled: int, wins: int, winRate: Option<real>, timeouts: int,
    settledExpectancy: Option<real>, realizedExpectancy: Option<real>,
    gross: Performance, net: Performance, slippageAdjusted: Performance)

  predicate IsWin(t: Trade) { t.verdict == Some(Settlement.Win) }

  predicate IsSettled(t: Trade) { t.verdict == Some(Settlement.Win) || t.verdict == Some(Settlement.Loss) }

  predicate IsTimeout(t: Trade) { t.verdict == Some(Settlement.Timeout) }

  predicate HasReturn(t: Trade) { t.realizedR.Some? }

  function RealizedReturns(trades: seq<Trade>): seq<real> {
    Mapped(Filter(trades, HasReturn), (t: Trade) => t.realizedR.GetOr(0.0))
  }

  /** A mean to four digits, absent when there is nothing to divide by. */
  function Ratio(total: real, count: nat): Option<real> {
    if count == 0 then None else Some(Round(total / count as real, 10000.0))
  }

  function SettledTotal(wins: int, losses: int, rewardR: real): real { wins as real * rewardR - losses as real }

  function Summarize(trades: seq<Trade>, rewardR: real): Summary {
    var settled, wins := |Filter(trades, IsSettled)|, |Filter(trades, IsWin)|;
    var realized := RealizedReturns(trades);
    Summary(
      |trades|, settled, wins, Ratio(wins as real, settled), |Filter(trades, IsTimeout)|,
      Ratio(SettledTotal(wins, settled - wins, rewardR), settled), Ratio(Sum(realized), |realized|),
      PerformanceOf(trades, GrossR, RISK_FRACTION),
      PerformanceOf(trades, NetR, RISK_FRACTION),
      PerformanceOf(trades, SlippageAdjustedR, RISK_FRACTION))
  }

  // ----- the promotion verdict -----

  const MINIMUM_HOLDOUT: int := 30
  const MINIMUM_VALIDATION: int := 50

  datatype Refusal =
    | NotEquivalent | RewardBelowOne
    | FewValidation | ValidationNotPositive
    | FewHoldout | LowWinRate | HoldoutNotPositive
    | ValidationCostsIncomplete | ValidationCostsModeled | ValidationNetNotPositive
    | HoldoutCostsIncomplete | HoldoutCostsModeled | HoldoutNetNotPositive | DeepDrawdown | LowProfitFactor
    | SparseSignals

  function When(holds: bool, refusal: Refusal): seq<Refusal> { if holds then [refusal] else [] }

  predicate NotPositive(x: Option<real>) { x.None? || x.value <= 0.0 }

  /** The sample and return gates; a missing summary has no trades and no figures. */
  function SampleRefusals(holdout: Option<Summary>, validation: Option<Summary>): seq<Refusal> {
    When(validation.None? || validation.value.settled < MINIMUM_VALIDATION, FewValidation)
    + When(validation.None? || NotPositive(validation.value.realizedExpectancy), ValidationNotPositive)
    + When(holdout.None? || holdout.value.settled < MINIMUM_HOLDOUT, FewHoldout)
    + When(holdout.None? || holdout.value.winRate.None? || holdout.value.winRate.value < 0.70, LowWinRate)
    + When(holdout.None? || NotPositive(holdout.value.realizedExpectancy), HoldoutNotPositive)
  }

  function ValidationCostRefusals(validation: Option<Summary>): seq<Refusal> {
    if validation.None? || validation.value.net.Unavailable? then [ValidationCostsIncomplete]
    else if validation.value.net.costBasis != Some("realized") then [ValidationCostsModeled]
    else When(validation.value.net.expectancyR <= 0.0, ValidationNetNotPositive)
  }

  function HoldoutCostRefusals(holdout: Option<Summary>): seq<Refusal> {
    if holdout.None? || holdout.value.net.Unavailable? then [HoldoutCostsIncomplete]
    else if holdout.value.net.costBasis != Some("realized") then [HoldoutCostsModeled]
    else
      var net := holdout.value.net;
      When(net.expectancyR <= 0.0, HoldoutNetNotPositive)
      + When(net.maxDrawdownPct > 20.0, DeepDrawdown)
      + When(net.profitFactor.None? || net.profitFactor.value < 1.5, LowProfitFactor)
  }

  /** Why a configuration may not be promoted; nothing when it may. */
  function Refusals(
    holdout: Option<Summary>, validation: Option<Summary>, signalsPerDay: real, rewardR: real, equivalent: bool): seq<Refusal>
  {
    When(!equivalent, NotEquivalent) + When(rewardR < 1.0, RewardBelowOne)
    + SampleRefusals(holdout, validation)
    + ValidationCostRefusals(validation) + HoldoutCostRefusals(holdout)
    + When(signalsPerDay < 2.0, SparseSignals)
  }

  /** Enough settled, profitable trades whose net figures rest on costs that were really paid. */
  ghost predicate Proven(s: Summary, minimum: int) {
    && s.settled >= minimum
    && s.realizedExpectancy.Some? && s.realizedExpectancy.value > 0.0
    && s.net.Available? && s.net.costBasis == Some("realized") && s.net.expectancyR > 0.0
  }

  /** A configuration may be promoted exactly when both samples are proven and every limit is met. */
  lemma EligibleExactly(holdout: Option<Summary>, validation: Option<Summary>, signalsPerDay: real, rewardR: real, equivalent: bool)
    ensures Refusals(holdout, validation, signalsPerDay, rewardR, equivalent) == [] <==>
            && equivalent && rewardR >= 1.0 && signalsPerDay >= 2.0
            && validation.Some? && Proven(validation.value, MINIMUM_VALIDATION)
            && holdout.Some? && Proven(holdout.value, MINIMUM_HOLDOUT)
            && holdout.value.winRate.Some? && holdout.value.winRate.value >= 0.70
            && holdout.value.net.maxDrawdownPct <= 20.0
            && holdout.value.net.profitFactor.Some? && holdout.value.net.profitFactor.value >= 1.5
  {
    SamplesExactly(holdout, validation);
    hide SampleRefusals;
  }

  lemma SamplesExactly(holdout: Option<Summary>, validation: Option<Summary>)
    ensures SampleRefusals(holdout, validation) == [] <==>
            && validation.Some? && validation.value.settled >= MINIMUM_VALIDATION && !NotPositive(validation.value.realizedExpectancy)
            && holdout.Some? && holdout.value.settled >= MINIMUM_HOLDOUT && !NotPositive(holdout.value.realizedExpectancy)
            && holdout.value.winRate.Some? && holdout.value.winRate.value >= 0.70
  {
  }

  /** Trades whose complete costs say they were modelled. */
  ghost predicate Modelled(t: Trade) {
    t.costs.Some? ==> t.costs.value.basis.Some? && t.costs.value.basis.value != "realized"
  }

  /** No summary of modelled trades rests on realized costs, so it is refused as the holdout of a promotion. */
  lemma ModelledIsRefused(trades: seq<Trade>, rewardR: real)
    requires forall t :: t in trades ==> Modelled(t)
    ensures var refused := HoldoutCostRefusals(Some(Summarize(trades, rewardR)));
            HoldoutCostsIncomplete in refused || HoldoutCostsModeled in refused
  {
    hide PerformanceOf;
    assert "realized" !in Bases(trades, NetR);
    if PerformanceOf(trades, NetR, RISK_FRACTION).Available? {
      NeverRealized(trades);
    }
  }

  lemma NeverRealized(trades: seq<Trade>)
    requires "realized" !in Bases(trades, NetR) && PerformanceOf(trades, NetR, RISK_FRACTION).Available?
    ensures PerformanceOf(trades, NetR, RISK_FRACTION).costBasis != Some("realized")
  {
    hide Rows, Reasons, Bases, SortedValues, Round;
    assert "modeled" != "realized";
  }
}
