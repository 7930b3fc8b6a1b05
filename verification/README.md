# WFH-ORG verification

A Dafny model of the parts of WFH-ORG whose correctness spans several functions or a whole run, and proofs about them.
`dafny verify dfyconfig.toml` checks everything.

Five areas are modelled.

**Leak-free research.** `Candles` aggregates five-minute candles, `Signals` decides at one candle,
`Derivatives` looks up what it knows of open interest and funding, `Backtest` runs the
memoised loop and builds trades with their costs (`Fees`, `Slippage`, `Funding`), `Settlement` decides a trade by first
touch. `Replay` filters, cools down and splits, `Metrics` measures, `WalkForward`, `CalibrateWaterfall` and
`CalibrateScoreV2` select, and `Promotion` judges what was selected. `Causality` proves that nothing is decided with later
data and `PoolReplay` that the threshold replay of a candidate pool is the direct run. `CandleExactness`, `EntryExactness`,
`TradeExactness`, `DerivativesExactness`, `FundingExactness`, `SlippageExactness`, `MetricsExactness`, `WalkForwardExactness`,
`CalibrationExactness`, `TriggerExactness` and `ThresholdExactness` say what each of these computes in prices, flags, times and
returns alone, so that no result rests on a definition of the model. The code's flag "holdout not used
for selection" is proved as non-interference, and `Pipeline` carries it back to the data: what is selected depends on
nothing observed after the end of development.

**Mission continuity.** `MissionState`, `MissionStore`, `CrashSafety`, `Resume`, `ResumeSafety` and `ResumeExample` model the
checkpoint, latest-checkpoint and journal files with a crash allowed between any two atomic writes and arbitrary
outside edits, and the resume decision over them. `TaskGraph` models the depth-first cycle check. `StateExactness`,
`ResumeExactness` and `TaskGraphExactness` write out what is accepted, created, resumed and reported, in field and state names.

**Publication.** `Publication` and `PublicationSafety` model draft, upload, publish and cleanup against a remote that
may lose any answer before or after the effect, and that others change between any two calls; `PublicationExactness` says which
draft a run takes for its own.

**Operations.** `Recovery` is the bounded recovery controller; `Manifest`, `ManifestRules` and `ManifestExactness` the manifest
verifier.

**Stream delivery.** `Stream` is one client's latest-wins queue, snapshot merge and de-duplication.

Conventions. Prices and R values are exact reals; rounding is an explicit half-even function wherever the code rounds.
SHA-256 is an injective constructor. An exception or error return is an `Err` value or an error constructor. Code that
updates variables is a method or a class proved against a specification function; the theorems are about that function.
Assumptions about other parties are stated as predicates: `Honest` for the funding endpoint; `Truthful` for release
listings, which never show this run's notes on a release it did not create; `Owns` for the releases themselves: no other party
writes this run's notes on a release of its own (editing or deleting this run's releases, notes included, is allowed); `ClockRuns` for the recovery clock; `InOrder` for broadcasts where a result needs it, and unique publish ids.

Claims that are false of the code are stated as such, with the exact condition:

- checkpoint files are overwritten once `CP-1000000` is reached (`CrashSafety.OverwriteOnlyPastLastId`);
- a valid new checkpoint can be resumed, by some observation and some capabilities, exactly when no recorded step is open, the worktree is recorded clean with its branch and path, and the recorded values themselves meet the preconditions (`ResumeSafety.FreshCheckpointCanBeResumedExactly`; `ResumeExample.NullPreconditionsAreCheckpointed` and `ResumeExample.DirtyWorktreeIsNeverResumed` are valid and never resumed);
- a ready checkpoint records the live state file exactly when what was read and what was hashed of it parse alike (`Resume.RecordedStateIsLiveExactly`; `ResumeExample.TornCheckpointIsReady` is ready with another state);
- whether a bar emits also depends on candles after it: an entry of a full history survives a cut of that history exactly when its whole holding horizon does (`Causality.EntryNeedsItsHorizon`);
- the recorded R understates some path consistent with the candles exactly when the first candle to touch a level spans both levels and opens below the stop (`Settlement.UnderstatesExactly`);
- strict manifest agreement guarantees a tree record's mode and blob exactly when its path is text, or when it states neither; a numeric path is listed but never compared (`ManifestExactness.ContentGuaranteedExactly`);
- a target record with a null path passes the strict manifest check without being in the tree (`ManifestExactness.RecordInTreeIff`);
- the manifest verifier's answer depends on source order exactly when two entries of one source disagree and some order agrees (`ManifestExactness.AnswerDependsOnSourceOrderExactly`);
- a recovery command that fails is not budgeted: an attempt goes uncounted exactly when the history allows it and the command fails (`Recovery.UncountedExactly`, `Recovery.FailingComposeIsUnbounded`);
- with ascending broadcasts a drained stream client ends on the last broadcast exactly when its first events were not newer (`Stream.DrainedClientIsUpToDate`), and in any order, with no further broadcast, a started client delivers one exactly when it is newer than everything still ahead of it (`Stream.BroadcastIsDeliveredExactly`).

## Model

| member | source | states |
|---|---|---|
| Candles.Resample | scripts/historical_backtest.py:838-848 | the dictionary loop returns, in key order, one bar per bucket that holds all its candles |
| Candles.ResampledIsStreamed | scripts/historical_backtest.py:838-848 | on contiguous candles the bucket form equals emitting a bar whenever a bucket's last candle arrives |
| Candles.StreamedPrefix | scripts/historical_backtest.py:838-848 | the bars of a prefix are exactly the bars closing by its last candle; all others close with later candles |
| Candles.VisibleBars | scripts/historical_backtest.py:1090-1100 | cutting the full resampling at the bisected close time gives the resampling of the closed candles alone |
| Candles.StepsAreContiguous | scripts/historical_backtest.py:233-249 | neighbouring five-minute steps make the whole history contiguous |
| CandleExactness.ValidCandlesMean | scripts/historical_backtest.py:233-249 | a download is accepted, as its candles inside the window, exactly when at least a hundred sound candles follow each other by five minutes |
| CandleExactness.ResampledMeans | scripts/historical_backtest.py:838-848 | resampling contiguous candles gives, in time order, one bar for every whole block that starts on a multiple of its length, with the block's open, extremes, close and summed volume, and no other bar |
| Signals.EvidenceIsVisible | scripts/historical_backtest.py:1094-1100 | evidence at a close time is the same for any two histories that agree on the candles closed by then |
| Signals.MacroIsVisible | scripts/historical_backtest.py:876-880 | the market regime at a close time reads no later macro candle |
| Signals.DayIsVisible | scripts/historical_backtest.py:766-787 | quote volume and the VWAP side of an entry depend only on candles before the entry |
| Signals.NoLookahead | scripts/historical_backtest.py:1102-1161 | the decision at a candle is the same whatever either data set holds after that candle's close |
| EntryExactness.EvidenceMeans | scripts/historical_backtest.py:1094-1100 | the evidence found at a close is that of the last hundred bars of the candles up to it, and there is none below twenty bars |
| EntryExactness.StagesMean | scripts/historical_backtest.py:927-962 | a strategy's gate holds exactly when its flags do, named one by one for each of the four strategies |
| EntryExactness.MarketsMean | scripts/historical_backtest.py:876-880 | the macro gate holds exactly when every market is bearish on its four-hour bars complete by the close |
| EntryExactness.LiquidityMeans | scripts/historical_backtest.py:779-787 | the volume gate holds exactly when all of the last 288 candles are quoted and their quotes sum to at least the minimum |
| EntryExactness.SideMeans | scripts/historical_backtest.py:766-776 | the close is below VWAP exactly when close times volume of the last 288 candles is less than their turnover; unknown for less than a day or no volume |
| EntryExactness.FilterMeans | scripts/historical_backtest.py:1134-1156 | the derivatives gate holds exactly when its filter's own inequalities do |
| EntryExactness.DecidesExactly | scripts/historical_backtest.py:1102-1161 | a bar decides an entry exactly when all four timeframes have evidence, the strategy's flags hold, every market falls, the day is liquid and the filter holds |
| Derivatives.LookupReadsUpTo | scripts/historical_backtest.py:554-575 | a metrics lookup over two sorted day archives returns the last row not after the time, if fresh, and reads no later row |
| Derivatives.DerivativesAreVisible | scripts/historical_backtest.py:566-697 | the score context, hourly taker change, observation times and source check included, and the metrics of an entry are the same for archives and funding histories that agree up to it |
| Derivatives.ChargesAreVisible | scripts/historical_backtest.py:525-537 | the charges of a window that ends by x are the same for funding histories that agree up to x |
| Derivatives.NoLookaheadWithDerivatives | scripts/historical_backtest.py:1102-1161 | the decision at a candle is the same for data agreeing on candles closed, metrics archived and funding observed by its close |
| DerivativesExactness.FundingLookupExactly | scripts/historical_backtest.py:511-523 | the funding lookup gives the latest observation not after the time, if at most eight hours old, with the history of the last ninety intervals |
| DerivativesExactness.MetricsLookupExactly | scripts/historical_backtest.py:554-575 | the metrics lookup gives the latest archived row not after the time, if at most ten minutes old |
| DerivativesExactness.ScoreMeans | scripts/historical_backtest.py:577-697 | a score context exists exactly when funding and both metrics rows are found and usable, and shows their rate, percentile, changes and ratios as rounded |
| Backtest.ValidCandlesCanRun | scripts/historical_backtest.py:233-249 | a validated download is contiguous and well formed, as the runs require |
| Backtest.Latest | scripts/historical_backtest.py:1092-1100 | the endpoint-keyed memo answers what recomputation answers and stays correct |
| Backtest.DecideAt | scripts/historical_backtest.py:1110-1161 | the loop body with its shared memo decides as the memo-free definition does, whose entries `EntryExactness.DecidesExactly` writes out |
| Backtest.EvaluateFrom | scripts/historical_backtest.py:1102-1230 | the loop with in-place cooldown and memo emits the specified trades or fails with the specified error |
| Backtest.Evaluate | scripts/historical_backtest.py:1071-1230 | argument errors and emitted trades are exactly those of the recursive specification, which `EntryExactness.EmitsExactly` and `RefusesExactly` write out |
| Backtest.CostsAreSound | scripts/historical_backtest.py:1181-1226 | a net figure exists exactly for complete costs, whose fee and slippage are never credits and whose sources are HTTPS |
| Backtest.NetReconciles | scripts/historical_backtest.py:1194-1202 | rounding moves the net figure by at most 5e-11, below the checker's 1e-9 |
| Backtest.EmittedTradesAreSound | scripts/historical_backtest.py:1071-1230 | every emitted trade exits within its horizon, has R between -1 and target/stop rounded to six digits (up to half a unit above target/stop), and passes the cost reconciliation |
| Backtest.EmittedTradesSplitCleanly | scripts/historical_backtest.py:80-92 | no emitted train trade is open when a validation trade starts, and none of validation when the holdout starts |
| Backtest.EmittedTradesSettleBeforeNextFold | scripts/backtest_metrics.py:150-179 | an emitted trade signalled inside a walk-forward fold is out of the market before any later fold begins |
| EntryExactness.EmitsExactly | scripts/historical_backtest.py:1071-1230 | every emitted trade is the packet of a qualifying bar on the loop's grid, and a qualifying bar is emitted exactly when every earlier trade is out of its cooldown, or always in a pool run; the packet shows the bar's evidence, stages, setup, score, volume, derivatives, outcome and costs |
| EntryExactness.RefusesExactly | scripts/historical_backtest.py:1085-1092 | interval, cooldown, hold and threshold are refused in that order, and otherwise a run fails only over the costs of a qualifying bar |
| TradeExactness.CostsMean | scripts/historical_backtest.py:1181-1226 | the slippage-adjusted figure is the gross less the profile's cost, and the net figure the gross less fee and slippage plus the funding of exactly the charges while the position was open |
| TradeExactness.CostsShown | scripts/historical_backtest.py:1181-1226 | a net figure exists exactly with a slippage profile, derivatives, a fee profile and a funding history; complete costs show all three sources and incomplete ones the slippage alone |
| TradeExactness.CostsRefusedExactly | scripts/historical_backtest.py:1181-1226 | costs are refused exactly over an unacceptable slippage profile, a window ending before it starts, or an unacceptable fee or charge |
| Causality.EntriesAreCausal | scripts/historical_backtest.py:1102-1230 | from any loop position and cooldown, two data sets that agree up to a time, with a full holding horizon of candles behind every bar closed by it, give the same entries up to it |
| Causality.EvaluationIsCausal | scripts/historical_backtest.py:1071-1230 | two whole evaluations over candles, market candles, archives and funding agreeing up to such a bar's close emit the same entries up to it: time, symbol, strategy, stages, setup, evidence, score, derivatives packet, score breakdown, quote volume and flags |
| Causality.TradesAreCausal | scripts/historical_backtest.py:1102-1230 | from any loop position, runs that share candles, their decisions on them and the charges until the last of them emit the same trades, outcomes and costs included, before any cut by which no later candle matters |
| Causality.SettledTradesAreCausal | scripts/historical_backtest.py:1071-1230 | over data agreeing up to x, the trades signalled more than a holding horizon before x are the same, outcomes and costs included |
| Causality.CutHistoryEmitsPrefix | scripts/historical_backtest.py:1102-1230 | a history cut short emits exactly the longer one's trades, outcomes and costs included, up to its last bar with a full horizon behind it, and nothing without such a bar |
| Causality.EntryNeedsItsHorizon | scripts/historical_backtest.py:1104 | an entry survives a cut exactly when its whole horizon does; with fewer candles behind it the bar emits nothing |
| Pipeline.ReportsAgree | scripts/historical_backtest.py:1343-1364 | pool reports over data of the same symbols agreeing up to x hold the same trades before x minus the longest hold |
| Pipeline.DevelopmentDataDecideTrigger | scripts/calibrate_waterfall.py:141-213 | data agreeing up to the end of development, candles, archives and funding alike, lead the trigger calibration to the same selection, inner validation and walk-forward assessment, or to the same refusal |
| Pipeline.DevelopmentDataDecideThreshold | scripts/calibrate_score_v2.py:239-321 | the same for the Score V2 calibration |
| Pipeline.ResearchNeverPromotes | scripts/historical_backtest.py:118-175 | whatever the data, the calibration of a pool backtest is refused promotion for lack of equivalence and again because its holdout costs are incomplete or modelled |
| PoolReplay.PoolStep | scripts/historical_backtest.py:1108-1230 | the pool run emits every decision in the window regardless of cooldown |
| PoolReplay.DirectStep | scripts/historical_backtest.py:1108-1230 | the direct run emits the pool's packet exactly when it reaches the threshold and no cooldown is pending |
| PoolReplay.ReplayIsGreedy | scripts/calibrate_score_v2.py:143-167 | for one symbol the map-based replay is the forward scan with one pending cooldown |
| PoolReplay.DirectIsReplayFrom | scripts/historical_backtest.py:1102-1230 | from any candle and pending cooldown the direct loop emits the replay of the pool's remainder |
| PoolReplay.PoolReplayIsDirect | scripts/calibrate_score_v2.py:143-167 | filtering and replaying one symbol's pool gives the direct run's trades up to the pool flag |
| PoolReplay.ReportReplayIsDirect | scripts/calibrate_score_v2.py:143-167 | the same inside a report of many symbols |
| PoolReplay.EmittedInOrder | scripts/historical_backtest.py:1102-1230 | a run emits its symbol's trades in strictly increasing time |
| Settlement.OutcomeDetails | scripts/historical_backtest.py:974-1011 | the scan returns the first touching candle's outcome, the horizon mark, or the error of an entry without candles |
| TradeExactness.OutcomeMeans | scripts/historical_backtest.py:974-1011 | the first held candle that reaches a level settles the position: a high of entry times one plus the stop loses one R at the stop, else a low of entry less the target wins at the target, else the last close is marked |
| Settlement.FirstTouchDecides | scripts/historical_backtest.py:974-1011 | names the deciding candle: nothing before it touched, and without a touch it is the last one |
| Settlement.ExitsWithinHorizon | scripts/historical_backtest.py:974-1011 | exit lies after entry and within the horizon, and the funding cutoff between entry and exit |
| Settlement.ConservativeSettlement | scripts/historical_backtest.py:974-1011 | for every tick path consistent with the candles the recorded R is at most the true first-touch R, equal unless one candle spans both levels |
| Settlement.UnderstatesExactly | scripts/historical_backtest.py:974-1011 | some consistent family of paths earns another R than recorded exactly when the first touching candle spans both levels and opens below the stop; the low-first family then wins the full target against a recorded full loss |
| Settlement.RecordedRange | scripts/historical_backtest.py:974-1011 | recorded R stays between -1 and target/stop, and the rounded R between -1 and target/stop rounded alike |
| Funding.HistoricalFunding.Rows | scripts/historical_backtest.py:384-509 | the first request of a symbol fetches, caches and parses; later ones answer from memory; other symbols' files are untouched and a written file claims complete coverage |
| Funding.FetchPages | scripts/historical_backtest.py:420-472 | the paging loop terminates and returns the specified pages, or nothing on a failure |
| Funding.ParseRows | scripts/historical_backtest.py:474-509 | parsing sorts, drops repeated rows and refuses contradicting ones |
| Funding.PagesComplete | scripts/historical_backtest.py:420-472 | from any complete prefix, against an endpoint returning the first thousand events, the loop fetches exactly the rest |
| Funding.HistoryIsComplete | scripts/historical_backtest.py:384-509 | the history is exactly the window's events, strictly increasing, whatever complete prefix was cached |
| FundingExactness.ParsedExactly | scripts/historical_backtest.py:474-509 | rows parse exactly when there are some, each is usable, and rows of one time agree; then to what they stand for, each time once, in increasing order |
| FundingExactness.PagedOnlyReceives | scripts/historical_backtest.py:420-472 | paging succeeds only with the rows of full pages, each from just after the latest time before, and a last shorter or empty page or the end; any failure, malformed or stuck page fails it |
| FundingExactness.ReceivedIsPaged | scripts/historical_backtest.py:420-472 | and it does succeed with every such walk |
| FundingExactness.HistoryMeans | scripts/historical_backtest.py:384-420 | the history is asked for ninety eight-hour intervals before the range; cached rows are trusted exactly when requested from that start and covering the end, and otherwise completed from just after the latest of them |
| Funding.ChargesAreThoseBetween | scripts/historical_backtest.py:525-537 | a charge is returned exactly when it lies after the start and not after the end |
| Funding.ChargesJoin | scripts/historical_backtest.py:525-537 | adjacent windows concatenate to the joined window, missing history included |
| Funding.FundingIsCausal | scripts/historical_backtest.py:511-523 | observations after a timestamp change neither the current rate nor its history |
| Funding.HistoricalShortFundingR | scripts/historical_backtest.py:1049-1068 | the loop returns the rounded sum of short funding in R, or the first defect of the events |
| Funding.ContributionAdds | scripts/historical_backtest.py:1049-1068 | unrounded funding is additive over adjacent windows |
| TradeExactness.FundingMeans | scripts/historical_backtest.py:1049-1068 | a short receives rate times mark price at each charge: the figure is the sum over entry price and stop, rounded |
| Fees.FeeIsACost | scripts/historical_backtest.py:1022-1046 | an accepted fee is never negative and has an HTTPS source |
| TradeExactness.FeeMeans | scripts/historical_backtest.py:1022-1046 | an accepted fee is the rate on entry and exit price over entry price and stop, rounded; accepted exactly for the declared model of the venue with valid numbers |
| Common.RoundError | scripts/backtest_metrics.py:108-126 | rounding moves a value by at most half a unit of the last digit |
| Common.RoundMonotone | scripts/backtest_metrics.py:108-126 | rounding keeps order |
| Common.RoundsToNearest | scripts/backtest_metrics.py:108-126 | rounding goes to the nearest integer, and from halfway to the even one |
| Metrics.PerformanceMetrics | scripts/backtest_metrics.py:46-126 | vetting, sorting and the one-pass loop give the specified metrics, each of whose figures `MetricsExactness.PerformanceMeans` and `DrawdownsMean` tie to the trades, or the risk-fraction error |
| Metrics.VetAll | scripts/backtest_metrics.py:51-80 | every trade is either accepted with its basis or contributes its rejection reason |
| Metrics.Scan | scripts/backtest_metrics.py:81-126 | running peaks and drawdowns in one pass equal their definitions on the whole list |
| Metrics.DrawdownBoundsGaps | scripts/backtest_metrics.py:81-126 | the R drawdown is at least zero and at least every earlier-minus-later gap of cumulative R |
| Metrics.DrawdownIsAttained | scripts/backtest_metrics.py:81-126 | and one such gap attains it |
| Metrics.EquityStaysRuined | scripts/backtest_metrics.py:81-126 | equity is never negative and stays zero once zero |
| Metrics.DrawdownFractionBoundsFalls | scripts/backtest_metrics.py:81-126 | the equity drawdown bounds every fall from an earlier positive equity |
| Metrics.FractionInRange | scripts/backtest_metrics.py:81-126 | the equity drawdown lies in [0, 1] |
| Metrics.DrawdownFractionIsAttained | scripts/backtest_metrics.py:81-126 | and one fall attains it |
| Metrics.ProfitMinusLoss | scripts/backtest_metrics.py:81-126 | gross profit minus gross loss is the sum of returns before rounding |
| Metrics.PerformancePermuted | scripts/backtest_metrics.py:46-126 | reordering the trades changes no figure |
| MetricsExactness.AvailableExactly | scripts/backtest_metrics.py:25-80 | a performance is available exactly for at least one trade, each with the return, no exit before entry and, for net returns, explained and sourced costs of one basis |
| MetricsExactness.PerformanceMeans | scripts/backtest_metrics.py:81-126 | sample size, expectancy, gross profit, gross loss and profit factor are the count, mean, sums and quotient of the trades' returns, to half a unit of the last digit |
| MetricsExactness.DrawdownsMean | scripts/backtest_metrics.py:81-126 | both drawdowns and the ending equity are, each in its own field, the largest gap, the largest fall and the compounded equity of the returns in closing order |
| MetricsExactness.EquityCompounds | scripts/backtest_metrics.py:98-107 | equity compounds over any split of the returns |
| MetricsExactness.OneTradeEquity | scripts/backtest_metrics.py:98-107 | one return multiplies equity by one plus return times risk, never below zero |
| Metrics.RankedOrder | scripts/backtest_metrics.py:129-147 | key and name order candidates totally without ties between different ones |
| Metrics.KeyOrderMeansBetter | scripts/backtest_metrics.py:129-147 | between usable candidates with equally many folds a smaller key means the better candidate; unusable ones rank last |
| Metrics.ExpandingWalkForwardWindows | scripts/backtest_metrics.py:150-179 | the loop returns the specified windows or the specified argument error |
| Metrics.FoldsTileTheTail | scripts/backtest_metrics.py:150-179 | test folds are contiguous, disjoint, cover the tail, and have non-empty signal windows closing a horizon early |
| Metrics.FoldTradesSettleFirst | scripts/backtest_metrics.py:150-179 | a signal time inside a fold plus at most the purge horizon lies before any later fold |
| WalkForwardExactness.WindowsMean | scripts/backtest_metrics.py:150-179 | windows are refused for their arguments in order, then for folds no longer than the horizon, and are otherwise equal shares, rounded down, of what follows the first share |
| Slippage.SlippageIsNonNegative | scripts/backtest_metrics.py:182-275 | a two-sided book has non-negative entry and exit slippage |
| Slippage.CalculateSlippageProfile | scripts/backtest_metrics.py:182-275 | the writer's loop produces the specified samples, means and count of one-sided rejections |
| Slippage.AdmissibleAreAccounted | scripts/backtest_metrics.py:192-225 | every admissible candidate is either sampled or counted as one-sided |
| Slippage.EmpiricalSlippageCostR | scripts/backtest_metrics.py:278-373 | the checker's loop accepts with the specified cost or rejects with the first defect |
| Slippage.WrittenProfilesAreAccepted | scripts/backtest_metrics.py:182-373 | every written profile with a named venue and an HTTPS source is accepted for the demand it was written for |
| Slippage.AcceptedCostIsNearRawMean | scripts/backtest_metrics.py:278-373 | an accepted cost is within an explicit bound of the raw-price mean over the stop |
| Slippage.AcceptedCostIsACost | scripts/backtest_metrics.py:278-373 | an accepted cost is never a credit and carries HTTPS provenance |
| SlippageExactness.WriteMeans | scripts/backtest_metrics.py:182-275 | a profile samples every usable two-sided book and counts every usable other one, in symbol order, with the mean losses against the touch; limits and shortage are refused |
| SlippageExactness.AcceptedExactly | scripts/backtest_metrics.py:278-373 | a profile is accepted exactly when it is of the method, source, venue, volume and notional, its samples are enough, under the digest, fresh, liquid, executable, two-sided and true to their prices, and its means are theirs |
| SlippageExactness.CostMeans | scripts/backtest_metrics.py:278-373 | an accepted cost is the mean loss of the quoted prices in units of the stop |
| Replay.ReplayCooldown | scripts/calibrate_waterfall.py:37-54 | the replay loop over sorted trades keeps the specified ones |
| Replay.SymbolsAreIndependent | scripts/calibrate_waterfall.py:37-54 | replaying one symbol alone gives its share of the joint replay |
| Replay.PoolReplayIsCausal | scripts/calibrate_waterfall.py:37-54 | later trades cannot change what is kept earlier |
| Replay.KeptAreSpaced | scripts/calibrate_waterfall.py:37-54 | kept trades of one symbol are at least a cooldown apart |
| Replay.DroppedAreBlocked | scripts/calibrate_waterfall.py:37-54 | a trade is dropped only behind a kept trade still cooling down, or for a negative time |
| Replay.PurgingSeparates | scripts/historical_backtest.py:80-92 | trades settling within the horizon leave each split before the next begins |
| Replay.SplitsPartition | scripts/historical_backtest.py:80-92 | each trade lands in exactly the split its time names or in a purge gap |
| Replay.SplitsExactly | scripts/historical_backtest.py:80-92 | training, validation and holdout hold exactly the trades before half of the window less the horizon, from half to five sixths less the horizon, and from five sixths on |
| Replay.DevelopmentSplitsAreVisible | scripts/historical_backtest.py:80-92 | train and validation read nothing beyond the validation boundary minus the horizon |
| WalkForward.AssessConfiguration | scripts/calibrate_waterfall.py:97-131 | the fold loop computes the specified packet |
| WalkForward.AssessWalkForward | scripts/calibrate_waterfall.py:88-138 | the ranking loop computes the specified packets and selection |
| WalkForward.EligibleAreValid | scripts/calibrate_waterfall.py:112-134 | ranked are exactly the configurations that pass the stability gate |
| WalkForward.SelectedIsBest | scripts/calibrate_waterfall.py:134-138 | a name is selected exactly when one passes, and then no passing one ranks before it |
| WalkForwardExactness.AssessMeans | scripts/calibrate_waterfall.py:97-131 | a packet counts the folds with enough trades and those of them that earn, holds each fold's figures and those of all of them together, and is valid exactly under the stability gate |
| WalkForwardExactness.WalkForwardMeans | scripts/calibrate_waterfall.py:88-138 | every configuration has the packet of its trades over the windows |
| WalkForwardExactness.SelectedMeans | scripts/calibrate_waterfall.py:134-138 | a name is selected exactly when some configuration is stable, and no stable one stands better in folds, drawdown, profit factor, expectancy, sample and simplicity; equals go by name |
| CalibrationExactness.GateMeans | scripts/calibrate_waterfall.py:112-124 | a configuration is stable exactly when every fold has enough trades, two thirds of the folds earn and all together have a profit factor |
| WalkForward.WalkForwardIsVisible | scripts/calibrate_waterfall.py:88-138 | the assessment reads no trade at or after the end minus the horizon |
| CalibrateWaterfall.TradesByConfiguration | scripts/calibrate_waterfall.py:37-54 | filtering and replaying per configuration gives the specified pools |
| CalibrationExactness.KeptMeans | scripts/calibrate_waterfall.py:27-54 | of a pool only trades whose required flags are all recorded true are kept |
| TriggerExactness.KeptExactly | scripts/calibrate_waterfall.py:27-54 | kept of a name are such pool trades, a cooldown apart by symbol, and such a trade is dropped only for a negative time or within the cooldown of a kept one |
| CalibrateWaterfall.SelectDevelopmentValidation | scripts/calibrate_waterfall.py:61-85 | the inner validation loop gives the specified rejections and ranking |
| CalibrationExactness.InnerMeans | scripts/calibrate_waterfall.py:61-85 | inner validation names a configuration exactly when some validation performance has enough trades, a positive expectancy and a profit factor |
| TriggerExactness.InnerExactly | scripts/calibrate_waterfall.py:61-85 | it names the best such configuration, and every other name is rejected with its reason |
| CalibrateWaterfall.ReportAll | scripts/calibrate_waterfall.py:172-182 | every configuration is reported with its sample size, development performance and walk-forward packet |
| CalibrateWaterfall.Calibrate | scripts/calibrate_waterfall.py:141-213 | the whole calibration returns the specified packet, the report of every configuration and the holdout of `CalibrationExactness.HoldoutMeans` included, or the specified error |
| CalibrationExactness.HoldoutMeans | scripts/calibrate_waterfall.py:168-171 | the holdout is the net performance of the selected configuration's kept trades from five sixths of the window on: it counts each of them, and without one is unavailable for want of trades |
| CalibrationExactness.HoldoutReadsOnlyLateTrades | scripts/calibrate_waterfall.py:168-171 | two reports whose kept trades of the selected name agree from then on have the same holdout, whatever came before |
| CalibrationExactness.FiguresMean | scripts/calibrate_waterfall.py:172-182 | every configuration is reported with the number of its kept trades and their performance before the holdout |
| TriggerExactness.RefusesExactly | scripts/calibrate_waterfall.py:141-166 | the calibration refuses exactly, in order, an incomplete pool, a missing guardrail, a missing hold, and a development too short to split or fold |
| TriggerExactness.SelectsExactly | scripts/calibrate_waterfall.py:141-213 | a name is selected exactly when it is the best of inner validation and the walk-forward choice, and agreement is reported exactly then |
| TriggerExactness.WalkForwardExactly | scripts/calibrate_waterfall.py:141-213 | the walk-forward choice is made over three folds of the second half of development, and every name is reported with its packet, requirements and complexity |
| CalibrateWaterfall.HoldoutCannotInfluenceSelection | scripts/calibrate_waterfall.py:141-213 | reports differing only at or after the development end minus the horizon get the same inner validation, walk-forward and selection, and the same configuration reports but for full sample size and development performance |
| CalibrateWaterfall.HoldoutReachesOnlyItsOwnFigures | scripts/calibrate_waterfall.py:141-213 | reports differing only in holdout trades agree on everything but the holdout performance and the full sample sizes |
| CalibrateWaterfall.SelectionIsEarned | scripts/calibrate_waterfall.py:141-213 | a selected name won both the inner validation, with enough profitable trades, and the walk-forward ranking |
| CalibrateWaterfall.FrozenSelectionIsUnique | scripts/calibrate_waterfall.py:17-24 | calibrating the frozen configurations selects exactly one of the six, or none |
| CalibrateScoreV2.TradesByConfiguration | scripts/calibrate_score_v2.py:143-167 | filtering by threshold and replaying gives the specified pools |
| CalibrationExactness.KeptAtMeans | scripts/calibrate_score_v2.py:143-167 | of a pool only trades whose available score reaches the threshold are kept |
| ThresholdExactness.KeptAtExactly | scripts/calibrate_score_v2.py:143-167 | kept of a name are such pool trades, a cooldown apart by symbol, and none is dropped without that reason |
| CalibrateScoreV2.SelectWeights | scripts/calibrate_score_v2.py:68-122 | the selection loop returns the specified packet |
| ThresholdExactness.ApprovedMeans | scripts/calibrate_score_v2.py:39-58 | a candidate is valid exactly with the six approved weights and no threshold or one from 0 to 75 |
| ThresholdExactness.WeightsExactly | scripts/calibrate_score_v2.py:68-122 | the selection names the best approved candidate with enough profitable validation trades, with its threshold and both summaries |
| CalibrateScoreV2.Calibrate | scripts/calibrate_score_v2.py:239-321 | the calibration returns the specified selection, walk-forward, holdout, summaries of every configuration and promotion refusals, or the specified error |
| CalibrationExactness.SummarizeMeans | scripts/historical_backtest.py:93-115 | a summary counts signals, wins, settled and timed-out trades, and shows win rate and expectancies of exactly the given trades, in any order |
| CalibrationExactness.SummariesMean | scripts/calibrate_score_v2.py:239-321 | every configuration's three summaries are of its kept trades in the three parts of the window, and the holdout of the selection counts its trades from five sixths on |
| CalibrationExactness.HoldoutSummaryReadsOnlyLateTrades | scripts/calibrate_score_v2.py:239-321 | two reports whose kept trades of the selected name agree from then on have the same holdout summary |
| ThresholdExactness.ThresholdRefusesExactly | scripts/calibrate_score_v2.py:239-285 | the calibration refuses exactly, in order, an empty window, an incomplete pool, a missing horizon, a negative one, windows it cannot fold, and a name without a usable threshold |
| ThresholdExactness.SelectsWeightsExactly | scripts/calibrate_score_v2.py:239-321 | a name is selected exactly when it is the best candidate and the walk-forward choice, with its entry, its shortfall of validation against training and its packet |
| ThresholdExactness.RejectsExactly | scripts/calibrate_score_v2.py:68-122 | every configuration that is not admitted is reported with its first reason |
| ThresholdExactness.DisagreementMeans | scripts/calibrate_score_v2.py:239-321 | the selectors are reported to disagree exactly when they do |
| ThresholdExactness.WalkForwardAtExactly | scripts/calibrate_score_v2.py:239-321 | the walk-forward choice is made over the asked folds of the second half of development, and every name is reported with its weights and threshold |
| CalibrateScoreV2.CalibrationNeverPromotes | scripts/calibrate_score_v2.py:297-321 | every calibration is refused promotion as not equivalent, and over modelled costs by the holdout's cost gate as well |
| Promotion.EligibleExactly | scripts/historical_backtest.py:118-175 | nothing is refused exactly when equivalence, reward, density, both samples with realized costs, win rate, drawdown and profit factor meet their limits |
| ThresholdExactness.RefusedExactly | scripts/historical_backtest.py:118-175 | each of the sixteen refusals is given exactly when it is due |
| ThresholdExactness.PromotionExactly | scripts/calibrate_score_v2.py:297-321 | a calibration's refusals are exactly those due of its holdout, its selected validation, its rate of signals a day and its reward |
| Promotion.ModelledIsRefused | scripts/historical_backtest.py:118-175 | a holdout of trades with modelled costs is refused for incomplete or modelled costs |
| CalibrateScoreV2.SplitsAreVisible | scripts/calibrate_score_v2.py:239-321 | train and validation splits agree for pools that agree before the validation boundary minus the horizon |
| CalibrateScoreV2.HoldoutCannotInfluenceSelection | scripts/calibrate_score_v2.py:239-321 | reports differing only beyond the visible end get the same selected packet, walk-forward assessment, and train and validation summaries of every configuration |
| CalibrateScoreV2.SelectedWeightsAreEarned | scripts/calibrate_score_v2.py:68-122 | a name chosen on train and validation passed the weight, cost, sample, expectancy and profit gates, and no passing candidate ranks before it |
| CalibrateScoreV2.SelectionIsEarned | scripts/calibrate_score_v2.py:239-321 | a selected name won both selectors with those gates met; nothing is selected exactly when they name nothing or disagree |
| TaskGraph.Search.Visit | scripts/wfh_mission.py:253-264 | the recursive descent ends because each call shrinks the unvisited ids, and finds a cycle or finishes a topological order |
| TaskGraph.FindsCycle | scripts/wfh_mission.py:250-270 | a cycle is found exactly when the parent relation has one; otherwise a topological order of all ids exists |
| TaskGraph.TopologicalIsAcyclic | scripts/wfh_mission.py:250-270 | a repetition-free topological order of all valid ids rules out every cycle |
| TaskGraph.ScanEntries | scripts/wfh_mission.py:215-241 | the first loop collects ids, parents and progress counts, silently exactly when every entry is well formed |
| TaskGraph.UnknownParents | scripts/wfh_mission.py:245-249 | reports exactly the parents that are not valid ids |
| TaskGraph.ValidateTaskGraph | scripts/wfh_mission.py:210-270 | the cycle error appears exactly for cyclic graphs, no error exactly for well-formed ones |
| TaskGraphExactness.ReportedExactly | scripts/wfh_mission.py:210-270 | every error is reported exactly when it is one of the list's: of an entry, a repeated id, a parent that is no id, a walk along parents that returns, or more than three tasks in progress |
| TaskGraphExactness.AcceptedExactly | scripts/wfh_mission.py:210-270 | a list is accepted exactly when every entry is sound, ids differ, every parent is an id, no walk returns and at most three are in progress |
| MissionState.HoldoutFlagsAreMonotone | scripts/wfh_mission.py:478-493 | over any updates an opened holdout stays opened and a retired one retired |
| MissionState.UpdateTakesEffect | scripts/wfh_mission.py:478-493 | every other field takes the updated value |
| StateExactness.UpdatedExactly | scripts/wfh_mission.py:478-493 | an update is refused exactly when it takes back an opened or a retired holdout; otherwise every field is the updated one, but a flag once true stays true |
| StateExactness.ValidExactly | scripts/wfh_mission.py:92-207 | a mission state is valid exactly with its contract, project, repository and four 40-digit revisions, its descriptions, distinct capabilities with one of three minimums each, known conditions and no secrets |
| MissionStore.HighestCheckpointNumber | scripts/wfh_mission.py:537-545 | the directory scan finds the highest six-digit number |
| MissionStore.MissionDirectory.ReadFiles | scripts/wfh_mission.py:620-682 | a pass reads each file at its own moment; on files that hold still it sees exactly them |
| MissionStore.MissionDirectory.ReadNamed | scripts/wfh_mission.py:816-894 | reading some of the files, with edits allowed between any two, sees them as they are when they hold still |
| MissionStore.MissionDirectory.BuildCheckpoint | scripts/wfh_mission.py:665-688 | the document holds the state, the journal steps and the hashes each pass saw, or the first pass that saw something unacceptable refuses |
| MissionStore.CalmIsCreatable | scripts/wfh_mission.py:665-688 | on files that hold still, what the passes accept and build is what one look at the directory accepts and builds |
| StateExactness.CreatedExactly | scripts/wfh_mission.py:665-688 | a checkpoint is created exactly when its reads show a valid state, a valid bundle and journal, readable steps and all seven files, and it holds that state, those steps and one hash a file |
| MissionStore.MissionDirectory.CreateCheckpoint | scripts/wfh_mission.py:665-705 | with edits allowed between any two reads and writes: refused reads write nothing; a crash after n writes leaves exactly the first n of the document the reads saw; success leaves all three and returns its pointer |
| StateExactness.WrittenExactly | scripts/wfh_mission.py:684-705 | the three writes add the checkpoint file, a pointer with its id and hash, and the resume note, and change nothing else |
| MissionStore.MissionDirectory.LoadLatestCheckpoint | scripts/wfh_mission.py:708-747 | every refusal reason in order, and readiness only with matching hash, mission, id and no newer file |
| ResumeExactness.LoadedExactly | scripts/wfh_mission.py:708-747 | the newest checkpoint loads exactly when pointer, file, hash, mission and number agree and no file is newer |
| MissionStore.MissionDirectory.JournalStepStart | scripts/wfh_mission.py:765-798 | appends one in-progress record, or refuses a repeated id or unreadable journal without writing |
| MissionStore.MissionDirectory.JournalStepComplete | scripts/wfh_mission.py:801-813 | completes the first record of the id and changes no other record |
| StateExactness.StepsAreWritten | scripts/wfh_mission.py:750-813 | a rewritten journal reads back as its new steps, with its other fields and every other file as they were |
| CrashSafety.StepIsSafe | scripts/wfh_mission.py:665-705 | every write, edit, journal write or crash keeps the pointer on a fully written checkpoint with its hash |
| CrashSafety.RunsAreSafe | scripts/wfh_mission.py:665-705 | over any run within the id range existing checkpoints keep their content and new numbers exceed all older ones |
| CrashSafety.OverwriteOnlyPastLastId | scripts/wfh_mission.py:537-549 | a new checkpoint meets an existing file exactly when CP-999999 is highest and CP-1000000 exists |
| CrashSafety.SecondPastLastIdOverwrites | scripts/wfh_mission.py:537-549 | a concrete run in which a checkpoint file is overwritten |
| CrashSafety.FirstWriteLeavesPointerBehind | scripts/wfh_mission.py:691-702 | after the checkpoint write the pointer is behind the newest file |
| CrashSafety.CrashBeforePointerBlocksResume | scripts/wfh_mission.py:691-747 | a crash before the pointer write blocks every load until some pointer write |
| CrashSafety.PointerWriteUnblocks | scripts/wfh_mission.py:694-747 | the pointer write makes the newest checkpoint loadable |
| CrashSafety.CreateIsARun | scripts/wfh_mission.py:665-705 | checkpoint creation that survives n writes is exactly such a run of n steps |
| Resume.LiveStateFileChanges | scripts/wfh_mission.py:816-837 | returns exactly the recorded files that changed and those that are missing |
| Resume.CheckStateFiles | scripts/wfh_mission.py:865-894 | contract, missing and changed files answer in that order |
| Resume.CheckCapabilities | scripts/wfh_mission.py:949-979 | passes exactly when every required capability is observed at its minimum, by the names of `ResumeExactness.CapabilitiesExactly`; lookups that raise are errors |
| ResumeExactness.LadderMeans | scripts/wfh_mission.py:25-26 | a capability suffices for AVAILABLE in any of the three states, for AUTHORIZED_READ in that or AUTHORIZED_WRITE, for AUTHORIZED_WRITE in that alone |
| ResumeExactness.CapabilitiesExactly | scripts/wfh_mission.py:949-979 | the capability gate passes exactly when every required capability is observed in a state that suffices, by name |
| Resume.CheckPreconditions | scripts/wfh_mission.py:1039-1075 | the first invalid item decides, otherwise any unmet one blocks |
| ResumeExactness.SameMeans | scripts/wfh_mission.py:1013-1036 | two values compare equal exactly element by element and field by field, a truth value equalling its number |
| ResumeExactness.PreconditionsExactly | scripts/wfh_mission.py:1013-1075 | the precondition gate passes exactly when every condition's field or observation has its expected value |
| Resume.ResumeGuard | scripts/wfh_mission.py:1078-1133 | the guard's answer for every store, observation and capability set, with the journal and every durable file read at their own moments; on files that hold still it is the answer of one look, which `ResumeExactness.ReadyMeans` writes out |
| Resume.ReadyExactly | scripts/wfh_mission.py:1078-1133 | ready exactly when the latest checkpoint loads, no step is open, all files are identical, revisions match, the worktree is clean, capabilities suffice and preconditions are met |
| ResumeExactness.ReadyMeans | scripts/wfh_mission.py:1078-1133 | the same with every gate written out in field, scope, file and state names |
| ResumeExactness.ReadyMeansAuthorized | scripts/wfh_mission.py:949-979 | when the guard is ready a required AUTHORIZED_WRITE is observed as such, AUTHORIZED_READ as such or AUTHORIZED_WRITE, AVAILABLE as any of the three |
| ResumeExactness.AnswerMeans | scripts/wfh_mission.py:1078-1133 | unless the guard raises, its answer is the refusal of the first gate that does not hold, and readiness otherwise |
| ResumeExactness.FailsExactly | scripts/wfh_mission.py:849-1133 | the guard raises, after loading, exactly over steps that are no list of objects, over a required capability or minimum that is a list or object, or over an observation scope that is one |
| Resume.ReadyFromReadsExactly | scripts/wfh_mission.py:1078-1133 | the same of the journal and the files as the two gates saw them, at whatever moments |
| Resume.LoadedIsNewest | scripts/wfh_mission.py:729-747 | a loaded checkpoint is never behind, and newest exactly when a file carries its number |
| Resume.ReadyMeansNewest | scripts/wfh_mission.py:1078-1133 | in every safely reachable store readiness is about the highest-numbered checkpoint file |
| Resume.ReadyMeansUnchanged | scripts/wfh_mission.py:816-894 | ready means all seven durable files, as the gate saw them, held exactly the contents that were hashed, even when hashed or seen at different moments |
| Resume.RecordedStateIsLiveExactly | scripts/wfh_mission.py:665-894 | when ready, the live state file parses to the recorded state exactly when what was read and what was hashed of it parse alike |
| ResumeSafety.FreshCheckpointIsReadyExactly | scripts/wfh_mission.py:665-1133 | right after a checkpoint with nothing changed, ready exactly when no step is open, the worktree is clean, observations and capabilities agree and preconditions hold |
| ResumeSafety.NewCheckpointIsReadyExactly | scripts/wfh_mission.py:665-1133 | after a checkpoint built from any reads, ready exactly when no step is open, the files are what was hashed, and observation and capabilities fit the record |
| ResumeSafety.RecordDeterminesObservation | scripts/wfh_mission.py:897-1002 | an observation passes the revision and worktree gates exactly when it is the one read off a clean record with text branch and path |
| ResumeSafety.ResumableExactly | scripts/wfh_mission.py:849-1075 | some observation and capabilities pass a valid document's gates exactly when its own record meets them |
| ResumeSafety.FreshCheckpointCanBeResumedExactly | scripts/wfh_mission.py:665-1133 | right after a valid checkpoint some observation and capabilities resume it exactly under that condition |
| ResumeSafety.NullPreconditionsNeverResume | scripts/wfh_mission.py:114-122 | one such cause at any later time: an explicit null precondition list passes validation and is never resumed |
| ResumeSafety.StartedStepBlocks | scripts/wfh_mission.py:765-862 | starting a step blocks every resume |
| ResumeSafety.OpenStepBlocks | scripts/wfh_mission.py:849-862 | any step in progress in the live journal blocks every resume |
| ResumeSafety.CompletionClosesTheStartedStep | scripts/wfh_mission.py:765-813 | starting and completing a step leaves it closed and every other record as it was |
| ResumeSafety.CrashBeforePointerKeepsGuardBlocked | scripts/wfh_mission.py:691-1133 | a crash before the pointer write keeps the guard blocked until some pointer write |
| ResumeExample.FirstCheckpointCanBeResumed | scripts/wfh_mission.py:665-1133 | a concrete directory whose first checkpoint, completely written and observed as recorded, is ready to resume |
| ResumeExample.NullPreconditionsAreCheckpointed | scripts/wfh_mission.py:114-122 | a concrete directory with a null precondition list is checkpointed and loads, and no observation makes it resumable |
| ResumeExample.DirtyWorktreeIsNeverResumed | scripts/wfh_mission.py:897-946 | a concrete directory with a dirty worktree recorded is checkpointed and loads, and no observation or capability resumes it |
| ResumeExample.TornCheckpointIsReady | scripts/wfh_mission.py:665-894 | a concrete edit between reading and hashing the state leaves a ready checkpoint whose state is not the live one |
| Publication.NotesIdentifyTheRun | scripts/certify_remote_sqlite_backup.py:220-225 | release notes of different markers differ, so runs never recognise each other's drafts |
| Publication.Remote.TagExists | scripts/certify_remote_sqlite_backup.py:228-245 | a given answer is true of the remote; the call may fail instead |
| Publication.Remote.CreateDraft | scripts/certify_remote_sqlite_backup.py:346-362 | an acknowledged creation left exactly one new draft with this run's notes; an unacknowledged one may have |
| Publication.OwnedDraftReleaseId | scripts/certify_remote_sqlite_backup.py:248-306 | the lookup by tag, then up to eight listings, accepts an id only from exactly one match |
| PublicationExactness.MatchExactly | scripts/certify_remote_sqlite_backup.py:248-266 | identity is accepted exactly from a listing with one draft of the run's tag and notes |
| PublicationExactness.LookupExactly | scripts/certify_remote_sqlite_backup.py:269-306 | the answer by tag decides when there is one; otherwise at most eight pages are asked for, up to the first that fails or lists such a draft |
| Publication.DeleteOwnedDraftReleaseBestEffort | scripts/certify_remote_sqlite_backup.py:309-334 | deletes only an identified draft, and the tag only after an acknowledged deletion when asked to |
| Publication.PublishReleaseAssets | scripts/certify_remote_sqlite_backup.py:337-396 | everything one publication issues follows the stated order, whatever fails, and the outcome matches it |
| PublicationSafety.LookupFindsOwn | scripts/certify_remote_sqlite_backup.py:248-306 | a lookup only reads and finds only releases this run created |
| PublicationSafety.DeletesOnlyOwnReleases | scripts/certify_remote_sqlite_backup.py:309-396 | no run deletes a release it did not create |
| PublicationSafety.NothingAfterPublishEdit | scripts/certify_remote_sqlite_backup.py:337-396 | after the publish edit nothing is issued, and a run that issues it deletes nothing |
| PublicationSafety.TagDeletedOnlyIfEarned | scripts/certify_remote_sqlite_backup.py:309-396 | the tag is deleted only if reported absent at start and after the own draft's acknowledged deletion |
| PublicationSafety.OutcomeTellsWhetherEdited | scripts/certify_remote_sqlite_backup.py:337-396 | failed, uncertain and published mean edit not issued, issued unanswered, and acknowledged |
| PublicationSafety.UndisturbedRunPublishes | scripts/certify_remote_sqlite_backup.py:337-396 | with every call acknowledged and the draft listed, the run publishes that draft |
| PublicationSafety.LostCreateAnswerIsCleanedUp | scripts/certify_remote_sqlite_backup.py:345-362 | when only the answer to the creation is lost, the listed draft is removed, and the tag with it only if it was absent |
| PublicationSafety.Certify | scripts/certify_remote_sqlite_backup.py:596-704 | "not preserved" is reported exactly when the publish edit was never issued, and the log keeps all guarantees |
| Recovery.StateFile.MaybeRecover | scripts/verify_production_cutover.py:371-410 | each check's verdict and the new state file content, every branch included |
| Recovery.VerdictMeans | scripts/verify_production_cutover.py:371-410 | every verdict in terms of the run: healthy, waiting for the third failure, cooling down for 600 seconds, out of the budget of three an hour, blocked by a deployment, failed, recovered or still unhealthy |
| Recovery.StreakMeans | scripts/verify_production_cutover.py:371-383 | the streak is the number of unhealthy checks since the last healthy one or recovery |
| Recovery.FileIsHistory | scripts/verify_production_cutover.py:333-383 | the pruned state file answers every later check as the full history of the run would |
| Recovery.RecoversExactly | scripts/verify_production_cutover.py:371-410 | the command runs exactly when streak, cooldown, hourly budget and deploy guard of the run's history allow it |
| Recovery.RecoveriesAreSpaced | scripts/verify_production_cutover.py:19-21 | two recoveries are at least 600 seconds apart |
| Recovery.RecoveriesAreEarned | scripts/verify_production_cutover.py:19-21 | each recovery ends at least three unhealthy checks without a recovery between them |
| Recovery.BudgetHolds | scripts/verify_production_cutover.py:19-21 | no half-open hour of any run contains more than three recoveries |
| Recovery.UncountedExactly | scripts/verify_production_cutover.py:391-402 | an attempt goes uncounted exactly when the history allows it and the command fails |
| Recovery.FailingComposeIsUnbounded | scripts/verify_production_cutover.py:395-399 | in any failing spell of any run the command runs at every check from the third on, once the last recovery has cooled down and fewer than three are less than an hour old |
| Recovery.EveryFailingCheckRunsTheCommand | scripts/verify_production_cutover.py:395-399 | a run of nothing but failing checks runs the command at every check from the third on |
| Recovery.AttemptsAreBoundedByFailures | scripts/verify_production_cutover.py:371-410 | an hour holds at most three attempts besides the failed ones, so at most three when every attempt succeeds |
| Manifest.CheckFiles | scripts/verify_migration_manifest.py:37-45 | silent exactly when every record has all fields and a known disposition |
| Manifest.CheckReview | scripts/verify_migration_manifest.py:47-62 | silent exactly when nothing is unreviewed and imported records name destination and verification |
| Manifest.CheckSources | scripts/verify_migration_manifest.py:64-80 | silent exactly when every record's source is declared and every declared count is the number of its records |
| Manifest.CheckDuplicates | scripts/verify_migration_manifest.py:82-99 | silent exactly when no source and no destination occurs twice |
| Manifest.CheckTargets | scripts/verify_migration_manifest.py:101-127 | silent exactly when target paths are present and distinct and every record is complete with known references |
| Manifest.CheckIndex | scripts/verify_migration_manifest.py:129-161 | silent exactly when the path sets agree and compared modes and blobs are equal |
| Manifest.Verify | scripts/verify_migration_manifest.py:28-161 | no error is reported exactly when manifest, sources and tree agree |
| ManifestRules.AgreesExactly | scripts/verify_migration_manifest.py:28-161 | agreement holds exactly when every rule does: nine fields and a known disposition, reviewed imports, declared counts, no repeated source or destination, sound targets, and a tree that lists and states the same |
| ManifestExactness.StrictAgreementIsExact | scripts/verify_migration_manifest.py:28-161 | with schema 2 and an index, no error means the same paths each named once, equal blobs and recorded modes of every record with a text path, and declared counts adding up to the file records |
| ManifestExactness.RecordInTreeIff | scripts/verify_migration_manifest.py:101-143 | under agreement a record is in the tree exactly when its path is not null or another false value |
| ManifestExactness.NullPathPassesUnseen | scripts/verify_migration_manifest.py:108-143 | a concrete record with a null path is accepted against an empty tree |
| ManifestExactness.NonTextPathIsUncompared | scripts/verify_migration_manifest.py:129-160 | a record with a numeric or truth-value path is in the tree by name, and agreement survives any change of what is tracked there |
| ManifestExactness.ContentGuaranteedExactly | scripts/verify_migration_manifest.py:129-160 | agreement guarantees a tree record's mode and blob exactly when its path is text, or when it states neither, which only the manifest's own entry may |
| ManifestExactness.NumericPathPassesUncompared | scripts/verify_migration_manifest.py:141-160 | a concrete record with a numeric path is accepted with both mode and blob different |
| ManifestExactness.RecordOrderIsIrrelevant | scripts/verify_migration_manifest.py:28-161 | whether anything is reported does not depend on the order of file or target records |
| ManifestExactness.SourceOrderMattersExactly | scripts/verify_migration_manifest.py:64-67 | the dictionary of declared counts depends on source order exactly when two entries of one source disagree |
| ManifestExactness.AnswerDependsOnSourceOrderExactly | scripts/verify_migration_manifest.py:64-80 | the verifier's answer depends on source order exactly when two entries of one source disagree and some order agrees |
| ManifestExactness.ConflictingSourcesFlipTheAnswer | scripts/verify_migration_manifest.py:64-80 | two concrete orders of the same sources, one accepted and one reported |
| Stream.StreamClient.Put | backend/src/waterfallhunter/main.py:2947-2959 | a broadcast enters the queue, displacing the oldest event when two are waiting |
| Stream.BroadcastDashboardEvent | backend/src/waterfallhunter/main.py:2947-2959 | every registered client's queue gets the event and nothing else of any client changes |
| Stream.StreamClient.Begin | backend/src/waterfallhunter/main.py:5229-5252 | the snapshot branch drains the queue into the merged replay; the other branches leave it alone |
| Stream.StreamClient.DeliverNext | backend/src/waterfallhunter/main.py:5253-5262 | pending events first, every one of them by `Stream.PendingIsSent`, then queued ones whose id is above the last delivered |
| Stream.MergeSpec | backend/src/waterfallhunter/main.py:5240-5252 | the merged replay ascends strictly, holds only queued events and the snapshot, and misses none of their ids |
| Stream.MergeKeepsLatest | backend/src/waterfallhunter/main.py:5240-5252 | of several events of one id the merged replay keeps the last queued one, and the snapshot over it |
| Stream.DeliveryAscends | backend/src/waterfallhunter/main.py:5215-5262 | over any interleaving delivered ids ascend strictly and the queue holds at most two events with the newest broadcast last |
| Stream.PendingIsSent | backend/src/waterfallhunter/main.py:5253-5255 | a started client that takes as many turns as it has pending events, with any broadcasts between them, has sent exactly what it had sent and then those events in order |
| Stream.FirstAnswerIsSent | backend/src/waterfallhunter/main.py:5215-5255 | over any run from a start every event of the first answer, so every queued id and the snapshot's, is in what was sent or is pending, in order |
| Stream.QueueKeepsLastTwo | backend/src/waterfallhunter/main.py:2947-2959 | a client that takes no step keeps exactly the last two broadcasts waiting, whatever was broadcast |
| Stream.DrainedClientIsUpToDate | backend/src/waterfallhunter/main.py:5215-5262 | with ascending broadcasts a drained client's last id is the higher of last broadcast and first events, so the last broadcast exactly when the snapshot was not newer |
| Stream.BroadcastIsDeliveredExactly | backend/src/waterfallhunter/main.py:5253-5262 | with no further broadcast, a started client delivers e, and ends on it, exactly when e is newer than its pending and delivered events and than the one queued event it retains |
| Stream.SnapshotCanBeNewer | backend/src/waterfallhunter/main.py:5229-5262 | a concrete in-order run whose drained client ends on its snapshot and not on the last broadcast |
| Stream.OvertakenBroadcastIsSkipped | backend/src/waterfallhunter/main.py:5257-5262 | a concrete out-of-order run in which the last broadcast is never delivered |

## Left out

- Indicator formulas (RSI, EMA, weights, flags) are one pure function of at most a hundred bars; their values are not modelled.
- Floating-point bit behaviour: reals are exact, and only the explicit rounding of the code is modelled.
- Network, subprocess, Docker, GitHub and git calls, command lines, JSON syntax, printing, metrics export, symbolic links and file permissions.
- Report fields that only repeat inputs or are constant (execution features, equivalence flag, funding observations, source texts), archive downloads (a day whose archive does not parse is empty) and the signal-outcome paging of the backend.
- A funding row is sourced from the endpoint, which is HTTPS, so only the metrics source is checked; a cached metrics row without its taker ratio an hour earlier, which raises in the original, leaves the hourly change empty.
- Which symbols are evaluated: a symbol whose download does not validate is rejected, so later candles can remove it from a report; the pipeline results compare reports of the same symbols.
- Stops are positive and targets at least minus the stop in the settlement and soundness lemmas, as every caller passes them; candles are well formed with non-zero opens.
- Sorting ties between configurations of one name, where the original would compare dictionaries and raise.
- CalibrateScoreV2.Calibrate: the relabelling of an invalid walk-forward packet as unavailable, which no selection reads; the packet carries its validity flag instead.
- PoolReplay.ReportReplayIsDirect: assumes distinct symbols in a report, because the calibrator shares one cooldown per symbol while each direct run has its own.
- The validators of the evidence ledger, branch registry, scientific state and decision log are one given predicate; secret scanning is another.
- State file names outside the seven durable files are looked up in the durable map; path confinement errors are not part of this model.
- CrashSafety.RunsAreSafe: assumes fewer than a million checkpoints; past that the overwriting run is given instead.
- A file that vanishes between the check that it exists and its reading, which raises in the original.
- The Python recursion limit of the depth-first search.
- Values that are lists or objects where the manifest expects text, which raise in the original; equality of numbers with truth values inside the manifest.
- Manifest.CheckSources: the order of mismatch messages; all manifest methods state when they are silent, not the wording of messages.
- The recovery state file is read back as written; a lost or corrupt file resets the history, and a crash between the compose command and the save forgets that recovery.
- Recovery.BudgetHolds: counts recoveries whose command succeeded; failing commands are unbounded, as stated.
- Publication.Remote.PublishEdit: the remote picks which release of the tag it publishes, so that the published one is the run's own is not claimed.
- Exceptions outside the handled error classes (interrupts, decoding errors) during publication, and local staging cleanup.
- Delivery of every snapshot: heartbeats can overtake a snapshot finished in a worker thread, which is then skipped.
- Ids of replayed events are assumed ascending; the event buffer itself is not part of this model.
