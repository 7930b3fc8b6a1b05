/** What the slippage profile samples, averages and charges, in prices (scripts/backtest_metrics.py). */
module SlippageExactness {
  import opened Common
  import opened Permutations
  import opened Trades
  import opened Slippage

  const HALF_UNIT: real := 0.000000005

  // ----- one book -----

  ghost predicate Fresh(observedAt: Number, now: real, age: real) { observedAt.Some? && 0.0 <= now - observedAt.value <= age }

  ghost predicate Liquid(volume: Number, minimum: real) { volume.Some? && volume.value >= minimum }

  ghost predicate SameAmount(n: Number, amount: real) { n.Some? && -0.000000001 <= n.value - amount <= 0.000000001 }

  /** Both sides quoted, selling at no more than the bid and buying at no less than the ask. */
  ghost predicate Quoted(bid: Number, sell: Number, ask: Number, buy: Number) {
    bid.Some? && sell.Some? && ask.Some? && buy.Some? && 0.0 < sell.value <= bid.value && 0.0 < ask.value <= buy.value
  }

  /** What selling and then buying back loses against the touch, in percent. */
  ghost function Loss(bid: real, sell: real, ask: real, buy: real): real
    requires bid > 0.0 && ask > 0.0
  {
    100.0 * (bid - sell) / bid + 100.0 * (buy - ask) / ask
  }

  lemma Percent(a: real, b: real)
    requires b > 0.0
    ensures a / b * 100.0 == 100.0 * a / b
  {
    var q := a / b;
    assert q * b == a;
    assert (q * 100.0) * b == 100.0 * a;
  }

  lemma QuotedMeans(bid: Number, sell: Number, ask: Number, buy: Number)
    ensures TwoSided(bid, sell, ask, buy) <==> Quoted(bid, sell, ask, buy)
  {
  }

  lemma LossMeans(bid: real, sell: real, ask: real, buy: real)
    requires bid > 0.0 && ask > 0.0
    ensures EntryPct(bid, sell) == 100.0 * (bid - sell) / bid && ExitPct(ask, buy) == 100.0 * (buy - ask) / ask
  {
    Percent(bid - sell, bid);
    Percent(buy - ask, ask);
  }

  // ----- the writer -----

  ghost predicate Usable(c: Candidate, l: Limits) {
    && c.live && (l.venue == None || c.venue == l.venue) && c.executable
    && Liquid(c.quoteVolume, l.minimumQuoteVolume) && Liquid(c.selectedQuoteVolume, l.minimumQuoteVolume)
    && Fresh(c.observedAt, l.now, l.maximumAge) && SameAmount(c.notional, l.notional)
  }

  ghost predicate Sampled(c: Candidate, l: Limits) { Usable(c, l) && Quoted(c.bestBid, c.sellVwap, c.bestAsk, c.buyVwap) }

  ghost predicate Refused(c: Candidate, l: Limits) { Usable(c, l) && !Quoted(c.bestBid, c.sellVwap, c.bestAsk, c.buyVwap) }

  ghost predicate Copies(s: Sample, symbol: string, c: Candidate, l: Limits) {
    && s.symbol == symbol && s.venue == c.venue && s.observedAt == c.observedAt
    && s.referenceQuoteVolume == c.quoteVolume && s.selectedQuoteVolume == c.selectedQuoteVolume
    && s.notional == Some(l.notional) && s.executable
    && s.bestBid == c.bestBid && s.sellVwap == c.sellVwap && s.bestAsk == c.bestAsk && s.buyVwap == c.buyVwap
  }

  /** The sample of one candidate: its observation, and its losses on both sides. */
  ghost predicate SampleOfBook(s: Sample, symbol: string, c: Candidate, l: Limits) {
    && Copies(s, symbol, c, l) && Sampled(c, l)
    && s.entryPct == Some(100.0 * (c.bestBid.value - c.sellVwap.value) / c.bestBid.value)
    && s.exitPct == Some(100.0 * (c.buyVwap.value - c.bestAsk.value) / c.bestAsk.value)
    && s.roundTripPct == Some(Loss(c.bestBid.value, c.sellVwap.value, c.bestAsk.value, c.buyVwap.value))
  }

  lemma UsableMeans(c: Candidate, l: Limits)
    ensures Admissible(c, l) <==> Usable(c, l)
  {
  }

  lemma SampleMeans(symbol: string, c: Candidate, l: Limits)
    requires Admissible(c, l) && TwoSided(c.bestBid, c.sellVwap, c.bestAsk, c.buyVwap)
    ensures SampleOfBook(SampleOf(symbol, c, l), symbol, c, l)
  {
    UsableMeans(c, l);
    QuotedMeans(c.bestBid, c.sellVwap, c.bestAsk, c.buyVwap);
    hide Usable, Admissible;
    LossMeans(c.bestBid.value, c.sellVwap.value, c.bestAsk.value, c.buyVwap.value);
  }

  ghost function Chosen(candidates: seq<(string, Candidate)>, l: Limits): seq<(string, Candidate)> {
    Filter(candidates, (entry: (string, Candidate)) => Sampled(entry.1, l))
  }

  ghost function Rejected(candidates: seq<(string, Candidate)>, l: Limits): seq<(string, Candidate)> {
    Filter(candidates, (entry: (string, Candidate)) => Refused(entry.1, l))
  }

  ghost predicate SamplesOf(samples: seq<Sample>, chosen: seq<(string, Candidate)>, l: Limits) {
    |samples| == |chosen| && forall k :: 0 <= k < |chosen| ==> SampleOfBook(samples[k], chosen[k].0, chosen[k].1, l)
  }

  lemma {:induction false} SamplesMean(candidates: seq<(string, Candidate)>, l: Limits)
    ensures SamplesOf(Samples(candidates, l), Chosen(candidates, l), l)
    ensures |OneSidedOf(candidates, l)| == |Rejected(candidates, l)|
  {
    hide SampleOfBook, Admissible, TwoSided, Usable, Quoted, SampleOf;
    if candidates != [] {
      var n := |candidates| - 1;
      SamplesMean(candidates[..n], l);
      var (symbol, c) := candidates[n];
      UsableMeans(c, l);
      QuotedMeans(c.bestBid, c.sellVwap, c.bestAsk, c.buyVwap);
      if Admissible(c, l) && TwoSided(c.bestBid, c.sellVwap, c.bestAsk, c.buyVwap) { SampleMeans(symbol, c, l); }
    }
  }

  ghost function MeanOf(values: seq<real>): real { if values == [] then 0.0 else Sum(values) / |values| as real }

  ghost function EntryLosses(samples: seq<Sample>): seq<real> { Mapped(samples, (s: Sample) => s.entryPct.GetOr(0.0)) }

  ghost function ExitLosses(samples: seq<Sample>): seq<real> { Mapped(samples, (s: Sample) => s.exitPct.GetOr(0.0)) }

  ghost predicate Within(n: Number, x: real, bound: real) { n.Some? && Abs(n.value - x) <= bound }

  ghost predicate Averages(p: Profile, samples: seq<Sample>, bound: real) {
    && Within(p.meanEntryPct, MeanOf(EntryLosses(samples)), bound) && Within(p.meanExitPct, MeanOf(ExitLosses(samples)), bound)
    && Within(p.meanRoundTripPct, MeanOf(EntryLosses(samples)) + MeanOf(ExitLosses(samples)), bound)
  }

  lemma LossesMean(samples: seq<Sample>)
    ensures Entries(samples) == EntryLosses(samples) && Exits(samples) == ExitLosses(samples)
  {
  }

  ghost predicate BySymbol(samples: seq<Sample>) {
    forall i, j :: 0 <= i < j < |samples| ==> StringLe(samples[i].symbol, samples[j].symbol)
  }

  /** A written profile: the samples of the chosen books in the order of their symbols, and what they average. */
  ghost predicate Describes(p: Profile, candidates: seq<(string, Candidate)>, l: Limits) {
    && p.available && p.methodName == "arithmetic_mean_fresh_live_same_notional_orderbook_vwap" && p.sourceUrl == []
    && p.venue == l.venue && p.minimumQuoteVolume == Some(l.minimumQuoteVolume) && p.notional == Some(l.notional)
    && p.calculatedAt == Some(l.now) && p.maximumAge == Some(l.maximumAge) && p.minimumSamples == Some(l.minimumSamples)
    && p.samples.Some? && p.sampleSize == Some(|p.samples.value|) && p.digest == Some(Sha256(p.samples.value))
    && (exists samples :: SamplesOf(samples, Chosen(candidates, l), l) && multiset(p.samples.value) == multiset(samples))
    && BySymbol(p.samples.value) && Averages(p, p.samples.value, HALF_UNIT)
  }

  lemma ProfileMeans(samples: seq<Sample>, l: Limits)
    requires samples != []
    ensures Averages(ProfileOf(samples, l), samples, HALF_UNIT)
  {
    LossesMean(samples);
    hide Entries, Exits, EntryLosses, ExitLosses, Round;
    RoundError(MeanOf(EntryLosses(samples)), SCALE);
    RoundError(MeanOf(ExitLosses(samples)), SCALE);
    RoundError(MeanOf(EntryLosses(samples)) + MeanOf(ExitLosses(samples)), SCALE);
  }

  lemma SortedSamples(samples: seq<Sample>)
    ensures multiset(SortBy(samples, SymbolLe)) == multiset(samples) && BySymbol(SortBy(samples, SymbolLe))
  {
    SymbolOrder();
    SortBySpec(samples, SymbolLe);
    assert forall i, j :: 0 <= i < j < |SortBy(samples, SymbolLe)| ==> SymbolLe(SortBy(samples, SymbolLe)[i], SortBy(samples, SymbolLe)[j]);
  }

  /**
   The writer samples every usable two-sided book, counts every usable other one, refuses limits that make no sense, and
   writes a profile exactly when the samples are enough.
   */
  lemma WriteMeans(candidates: seq<(string, Candidate)>, l: Limits)
    ensures var chosen, rejected, written := Chosen(candidates, l), Rejected(candidates, l), Write(candidates, l);
            if l.notional <= 0.0 || l.maximumAge <= 0.0 || l.minimumSamples < 1 || l.minimumQuoteVolume < 0.0 then written == InvalidLimits
            else if |chosen| < l.minimumSamples then written == Insufficient(|chosen|, |rejected|)
            else written.Written? && written.rejectedOneSided == |rejected| && Describes(written.profile, candidates, l)
  {
    hide Samples, Chosen, Rejected, OneSidedOf, SamplesOf, Averages, BySymbol, SortBy, Entries, Exits, Mean, Round;
    SamplesMean(candidates, l);
    var samples := Samples(candidates, l);
    SortedSamples(samples);
    assert |multiset(SortBy(samples, SymbolLe))| == |multiset(samples)|;
    SamplesCount(samples, Chosen(candidates, l), l);
    if SortBy(samples, SymbolLe) != [] { ProfileMeans(SortBy(samples, SymbolLe), l); }
  }

  lemma SamplesCount(samples: seq<Sample>, chosen: seq<(string, Candidate)>, l: Limits)
    requires SamplesOf(samples, chosen, l)
    ensures |samples| == |chosen|
  {
  }

  // ----- the checker -----

  ghost predicate Demanded(d: Demand) { d.stopPct > 0.0 && d.notional > 0.0 && d.venue != "" && d.minimumQuoteVolume >= 0.0 }

  ghost predicate Matches(p: Profile, d: Demand) {
    && p.available && p.methodName == "arithmetic_mean_fresh_live_same_notional_orderbook_vwap" && HttpsSource(p.sourceUrl)
    && p.venue == Some(d.venue) && SameAmount(p.minimumQuoteVolume, d.minimumQuoteVolume) && SameAmount(p.notional, d.notional)
    && p.samples.Some? && p.sampleSize == Some(|p.samples.value|) && p.digest == Some(Sha256(p.samples.value))
    && p.minimumSamples.Some? && |p.samples.value| >= p.minimumSamples.value && p.samples.value != []
    && p.calculatedAt.Some? && p.maximumAge.Some? && p.maximumAge.value > 0.0
  }

  ghost predicate Observes(s: Sample, d: Demand, now: real, age: real) {
    && s.venue == Some(d.venue) && Fresh(s.observedAt, now, age) && s.executable && SameAmount(s.notional, d.notional)
    && Liquid(s.referenceQuoteVolume, d.minimumQuoteVolume) && Liquid(s.selectedQuoteVolume, d.minimumQuoteVolume)
    && Quoted(s.bestBid, s.sellVwap, s.bestAsk, s.buyVwap)
  }

  /** The sample's losses are those of its prices. */
  ghost predicate Adds(s: Sample)
    requires s.bestBid.Some? && s.sellVwap.Some? && s.bestAsk.Some? && s.buyVwap.Some? && s.bestBid.value > 0.0 && s.bestAsk.value > 0.0
  {
    && s.entryPct.Some? && s.entryPct.value >= 0.0 && s.exitPct.Some? && s.exitPct.value >= 0.0
    && Within(s.entryPct, 100.0 * (s.bestBid.value - s.sellVwap.value) / s.bestBid.value, 0.000000000001)
    && Within(s.exitPct, 100.0 * (s.buyVwap.value - s.bestAsk.value) / s.bestAsk.value, 0.000000000001)
    && Within(s.roundTripPct, s.entryPct.value + s.exitPct.value, 0.000000000001)
  }

  ghost predicate Clean(s: Sample, d: Demand, now: real, age: real) { Observes(s, d, now, age) && Adds(s) }

  ghost predicate AveragesRounded(p: Profile, samples: seq<Sample>) {
    var entry, exit := MeanOf(EntryLosses(samples)), MeanOf(ExitLosses(samples));
    && Within(p.meanEntryPct, Round(entry, 100000000.0), 0.000000000001) && Within(p.meanExitPct, Round(exit, 100000000.0), 0.000000000001)
    && Within(p.meanRoundTripPct, Round(entry + exit, 100000000.0), 0.000000000001) && p.meanRoundTripPct.value >= 0.0
  }

  lemma CleanMeans(s: Sample, d: Demand, now: real, age: real)
    ensures SampleDefect(s, d, now, age) == None <==> Clean(s, d, now, age)
  {
    QuotedMeans(s.bestBid, s.sellVwap, s.bestAsk, s.buyVwap);
    if Quoted(s.bestBid, s.sellVwap, s.bestAsk, s.buyVwap) {
      hide EntryPct, ExitPct;
      LossMeans(s.bestBid.value, s.sellVwap.value, s.bestAsk.value, s.buyVwap.value);
    }
  }

  lemma {:induction false} AllClean(samples: seq<Sample>, d: Demand, now: real, age: real)
    ensures FirstDefect(samples, d, now, age) == None <==> forall s :: s in samples ==> Clean(s, d, now, age)
  {
    hide SampleDefect, Clean;
    if samples != [] {
      var n := |samples| - 1;
      AllClean(samples[..n], d, now, age);
      CleanMeans(samples[n], d, now, age);
      assert forall s :: s in samples <==> s in samples[..n] || s == samples[n];
    }
  }

  lemma MeansMean(p: Profile, samples: seq<Sample>)
    ensures MeanDefect(p, samples) == None <==> samples != [] && AveragesRounded(p, samples)
  {
    LossesMean(samples);
    hide Entries, Exits, EntryLosses, ExitLosses, Round;
  }

  lemma HeaderMeans(p: Profile, d: Demand)
    ensures HeaderDefect(p, d) == None && p.samples.Some? && p.samples.value != [] <==> Demanded(d) && Matches(p, d)
  {
    hide HttpsSource;
  }

  lemma HeaderSamples(p: Profile, d: Demand)
    ensures HeaderDefect(p, d) == None ==> p.samples.Some? && p.calculatedAt.Some? && p.maximumAge.Some?
  {
    hide HttpsSource, Close;
  }

  /**
   The checker accepts exactly the profiles of this method and an HTTPS source that match the demand, have enough samples
   under the recorded digest, each fresh, liquid, executable, two-sided and true to its prices, and whose means are those of
   the samples.
   */
  lemma AcceptedExactly(p: Profile, d: Demand)
    ensures CostR(p, d).Ok? <==>
            && Demanded(d) && Matches(p, d)
            && (forall s :: s in p.samples.value ==> Clean(s, d, p.calculatedAt.value, p.maximumAge.value))
            && AveragesRounded(p, p.samples.value)
  {
    hide HeaderDefect, FirstDefect, MeanDefect, Round, Demanded, Clean, AveragesRounded;
    HeaderMeans(p, d);
    HeaderSamples(p, d);
    if HeaderDefect(p, d) == None {
      AllClean(p.samples.value, d, p.calculatedAt.value, p.maximumAge.value);
      MeansMean(p, p.samples.value);
    }
  }

  ghost function Losses(samples: seq<Sample>): seq<real> {
    Mapped(samples, (s: Sample) =>
      if Quoted(s.bestBid, s.sellVwap, s.bestAsk, s.buyVwap)
      then Loss(s.bestBid.value, s.sellVwap.value, s.bestAsk.value, s.buyVwap.value) else 0.0)
  }

  lemma RawMeans(samples: seq<Sample>)
    ensures RawRoundTrips(samples) == Losses(samples)
  {
    forall s: Sample
      ensures RawRoundTrip(s) == if Quoted(s.bestBid, s.sellVwap, s.bestAsk, s.buyVwap)
                                 then Loss(s.bestBid.value, s.sellVwap.value, s.bestAsk.value, s.buyVwap.value) else 0.0
    {
      QuotedMeans(s.bestBid, s.sellVwap, s.bestAsk, s.buyVwap);
      if Quoted(s.bestBid, s.sellVwap, s.bestAsk, s.buyVwap) {
        LossMeans(s.bestBid.value, s.sellVwap.value, s.bestAsk.value, s.buyVwap.value);
      }
    }
  }

  /** An accepted cost is the mean loss of the quoted prices in units of the stop. */
  lemma CostMeans(p: Profile, d: Demand)
    requires CostR(p, d).Ok?
    ensures p.samples.Some? && p.samples.value != [] && d.stopPct > 0.0
    ensures Abs(CostR(p, d).value - MeanOf(Losses(p.samples.value)) / d.stopPct) <= 0.000000005 + 0.000000005003 / d.stopPct
  {
    hide CostR, RawRoundTrips, Losses, Sum;
    AcceptedCostIsNearRawMean(p, d);
    RawMeans(p.samples.value);
  }
}
