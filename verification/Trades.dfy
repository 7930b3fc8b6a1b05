/** Trade packets as they appear in a research report (scripts/historical_backtest.py, scripts/backtest_metrics.py). */
module Trades {
  import opened Common
  import opened Signals
  import Settlement

  datatype Url = Url(scheme: string, netloc: string)

  /** Provenance is one URL or a list of them; a list must not be empty. */
  predicate HttpsSource(urls: seq<Url>) {
    urls != [] && forall u :: u in urls ==> u.scheme == "https" && u.netloc != ""
  }

  datatype Costs = Costs(
    complete: bool,
    basis: Option<string>,
    feeR: Option<real>,
    fundingR: Option<real>,
    slippageR: Option<real>,
    provenance: map<string, seq<Url>>)

  /** Everything a trade packet says about its entry that no selection reads. */
  datatype EntryFacts = EntryFacts(
    strategy: Strategy,
    stages: map<string, bool>,
    setupType: Option<string>,
    score: real,
    derivatives: DerivativesPacket,
    breakdown: Option<Breakdown>,
    quoteVolume: real,
    macroConfirmed: bool)

  datatype Trade = Trade(
    symbol: string,
    timestamp: int,
    evidence: Option<map<string, map<string, bool>>>,
    availableScore: Option<real>,
    poolEvent: bool,
    facts: EntryFacts,
    exitTs: Option<int>,
    exitPrice: Option<real>,
    exitReason: Option<Settlement.ExitReason>,
    verdict: Option<Settlement.Verdict>,
    realizedR: Option<real>,
    slippageAdjustedR: Option<real>,
    netR: Option<real>,
    costs: Option<Costs>)

  const COST_FIELDS: set<string> := {"fee", "funding", "slippage"}

  /** _costs_reconcile: complete, sourced, sign-correct costs whose sum explains the net figure. */
  predicate CostsReconcile(trade: Trade) {
    && trade.costs.Some?
    && var costs := trade.costs.value;
    && costs.complete
    && costs.feeR.Some? && costs.fundingR.Some? && costs.slippageR.Some?
    && costs.feeR.value >= 0.0 && costs.slippageR.value >= 0.0
    && costs.provenance.Keys == COST_FIELDS
    && (forall k :: k in costs.provenance ==> HttpsSource(costs.provenance[k]))
    && trade.realizedR.Some? && trade.netR.Some?
    && Abs(trade.netR.value - (trade.realizedR.value - costs.feeR.value - costs.slippageR.value + costs.fundingR.value))
       <= 0.000000001
  }

  /** Order of a report: by entry time, then by symbol. */
  predicate TimeSymbolLe(a: Trade, b: Trade) {
    a.timestamp < b.timestamp || (a.timestamp == b.timestamp && StringLe(a.symbol, b.symbol))
  }

  predicate TimeLe(a: Trade, b: Trade) { a.timestamp <= b.timestamp }

  lemma SourceMeans(url: Url)
    ensures HttpsSource([url]) <==> url.scheme == "https" && url.netloc != ""
  {
    assert url in [url];
  }

  lemma TimeSymbolOrder()
    ensures TotalPreorder(TimeSymbolLe)
    ensures TotalPreorder(TimeLe)
  {
    StringOrder();
  }
}
