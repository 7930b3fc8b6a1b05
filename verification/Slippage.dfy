/** The slippage profile writer and its checker (scripts/backtest_metrics.py). */
module Slippage {
  import opened Common
  import opened Trades

  const METHOD: string := "arithmetic_mean_fresh_live_same_notional_orderbook_vwap"

  /** A field that is absent, or not a finite number, is None. */
  type Number = Option<real>

  datatype Candidate = Candidate(
    live: bool, venue: Option<string>, quoteVolume: Number, selectedQuoteVolume: Number, observedAt: Number,
    notional: Number, executable: bool, bestBid: Number, sellVwap: Number, bestAsk: Number, buyVwap: Number)

  datatype Sample = Sample(
    symbol: string, venue: Option<string>, observedAt: Number, referenceQuoteVolume: Number, selectedQuoteVolume: Number,
    notional: Number, executable: bool, bestBid: Number, sellVwap: Number, bestAsk: Number, buyVwap: Number,
    entryPct: Number, exitPct: Number, roundTripPct: Number)

  /** SHA-256 of the canonical sample list, taken as injective. */
  datatype Digest = Sha256(samples: seq<Sample>)

  datatype Profile = Profile(
    available: bool, methodName: string, sourceUrl: seq<Url>, venue: Option<string>, minimumQuoteVolume: Number, notional: Number,
    sampleSize: Option<int>, minimumSamples: Option<int>, samples: Option<seq<Sample>>, digest: Option<Digest>,
    calculatedAt: Number, maximumAge: Number, meanEntryPct: Number, meanExitPct: Number, meanRoundTripPct: Number)

  predicate Close(a: real, b: real, tolerance: real) { Abs(a - b) <= tolerance }

  const NOTIONAL_TOLERANCE: real := 0.000000001
  const SAMPLE_TOLERANCE: real := 0.000000000001
  const SCALE: real := 100000000.0

  predicate Positive(n: Number) { n.Some? && n.value > 0.0 }

  predicate AtLeast(n: Number, floor: real) { n.Some? && n.value >= floor }

  /** Both sides of the book, with executable averages no better than the touch. */
  predicate TwoSided(bestBid: Number, sellVwap: Number, bestAsk: Number, buyVwap: Number) {
    && Positive(bestBid) && Positive(sellVwap) && Positive(bestAsk) && Positive(buyVwap)
    && sellVwap.value <= bestBid.value && buyVwap.value >= bestAsk.value
  }

  function EntryPct(bestBid: real, sellVwap: real): real
    requires bestBid > 0.0
  {
    (bestBid - sellVwap) / bestBid * 100.0
  }

  function ExitPct(bestAsk: real, buyVwap: real): real
    requires bestAsk > 0.0
  {
    (buyVwap - bestAsk) / bestAsk * 100.0
  }

  lemma SlippageIsNonNegative(bestBid: real, sellVwap: real, bestAsk: real, buyVwap: real)
    requires TwoSided(Some(bestBid), Some(sellVwap), Some(bestAsk), Some(buyVwap))
    ensures EntryPct(bestBid, sellVwap) >= 0.0 && ExitPct(bestAsk, buyVwap) >= 0.0
  {
    DivideLe(0.0, bestBid - sellVwap, bestBid);
    DivideLe(0.0, buyVwap - bestAsk, bestAsk);
  }

  // ----- the writer -----

  datatype Limits = Limits(
    now: real, notional: real, venue: Option<string>, maximumAge: real, minimumSamples: int, minimumQuoteVolume: real)

  predicate ValidLimits(l: Limits) {
    l.notional > 0.0 && l.maximumAge > 0.0 && l.minimumSamples >= 1 && l.minimumQuoteVolume >= 0.0
  }

  /** Fresh, live, executable, of the requested venue and notional, and liquid enough. */
  predicate Admissible(c: Candidate, l: Limits) {
    && c.live
    && (l.venue.Some? ==> c.venue == l.venue)
    && AtLeast(c.quoteVolume, l.minimumQuoteVolume) && AtLeast(c.selectedQuoteVolume, l.minimumQuoteVolume)
    && c.observedAt.Some? && c.observedAt.value <= l.now && l.now - c.observedAt.value <= l.maximumAge
    && c.notional.Some? && Close(c.notional.value, l.notional, NOTIONAL_TOLERANCE)
    && c.executable
  }

  function SampleOf(symbol: string, c: Candidate, l: Limits): Sample
    requires Admissible(c, l) && TwoSided(c.bestBid, c.sellVwap, c.bestAsk, c.buyVwap)
  {
    var entry, exit := EntryPct(c.bestBid.value, c.sellVwap.value), ExitPct(c.bestAsk.value, c.buyVwap.value);
    Sample(symbol, c.venue, c.observedAt, c.quoteVolume, c.selectedQuoteVolume, Some(l.notional), true,
           c.bestBid, c.sellVwap, c.bestAsk, c.buyVwap, Some(entry), Some(exit), Some(entry + exit))
  }

  function Samples(candidates: seq<(string, Candidate)>, l: Limits): seq<Sample> {
    if candidates == [] then []
    else
      var n := |candidates| - 1;
      var (symbol, c) := candidates[n];
      Samples(candidates[..n], l)
      + (if Admissible(c, l) && TwoSided(c.bestBid, c.sellVwap, c.bestAsk, c.buyVwap) then [SampleOf(symbol, c, l)] else [])
  }

  /** Candidates refused for their book alone. */
  predicate OneSided(c: Candidate, l: Limits) { Admissible(c, l) && !TwoSided(c.bestBid, c.sellVwap, c.bestAsk, c.buyVwap) }

  function OneSidedOf(candidates: seq<(string, Candidate)>, l: Limits): seq<(string, Candidate)> {
    Filter(candidates, (entry: (string, Candidate)) => OneSided(entry.1, l))
  }

  predicate SymbolLe(a: Sample, b: Sample) { StringLe(a.symbol, b.symbol) }

  function Entries(samples: seq<Sample>): (r: seq<real>)
    ensures |r| == |samples|
  {
    seq(|samples|, i requires 0 <= i < |samples| => samples[i].entryPct.GetOr(0.0))
  }

  function Exits(samples: seq<Sample>): (r: seq<real>)
    ensures |r| == |samples|
  {
    seq(|samples|, i requires 0 <= i < |samples| => samples[i].exitPct.GetOr(0.0))
  }

  function Mean(values: seq<real>): real
    requires values != []
  {
    Sum(values) / |values| as real
  }

  datatype WriteResult =
    | InvalidLimits
    | Insufficient(sampleSize: int, rejectedOneSided: nat)
    | Written(profile: Profile, rejectedOneSided: nat)

  /** The profile still lacks a source; the capture script adds it. */
  function ProfileOf(samples: seq<Sample>, l: Limits): Profile
    requires samples != []
  {
    var entryMean, exitMean := Mean(Entries(samples)), Mean(Exits(samples));
    Profile(true, METHOD, [], l.venue, Some(l.minimumQuoteVolume), Some(l.notional),
            Some(|samples|), Some(l.minimumSamples), Some(samples), Some(Sha256(samples)), Some(l.now), Some(l.maximumAge),
            Some(Round(entryMean, SCALE)), Some(Round(exitMean, SCALE)), Some(Round(entryMean + exitMean, SCALE)))
  }

  function Write(candidates: seq<(string, Candidate)>, l: Limits): WriteResult {
    if !ValidLimits(l) then InvalidLimits
    else
      var samples := SortBy(Samples(candidates, l), SymbolLe);
      var rejected := |OneSidedOf(candidates, l)|;
      if |samples| < l.minimumSamples then Insufficient(|samples|, rejected) else Written(ProfileOf(samples, l), rejected)
  }

  method CalculateSlippageProfile(candidates: seq<(string, Candidate)>, l: Limits) returns (result: WriteResult)
    ensures result == Write(candidates, l)
  {
    hide Admissible, TwoSided, SampleOf, ProfileOf;
    if !ValidLimits(l) {
      return InvalidLimits;
    }
    var samples: seq<Sample>, rejected: nat := [], 0;
    for k := 0 to |candidates|
      invariant samples == Samples(candidates[..k], l)
      invariant rejected == |OneSidedOf(candidates[..k], l)|
    {
      assert candidates[..k + 1][..k] == candidates[..k];
      var (symbol, c) := candidates[k];
      if !Admissible(c, l) {
        continue;
      }
      if !TwoSided(c.bestBid, c.sellVwap, c.bestAsk, c.buyVwap) {
        rejected := rejected + 1;
        continue;
      }
      samples := samples + [SampleOf(symbol, c, l)];
    }
    assert candidates[..|candidates|] == candidates;
    samples := SortBy(samples, SymbolLe);
    if |samples| < l.minimumSamples {
      return Insufficient(|samples|, rejected);
    }
    return Written(ProfileOf(samples, l), rejected);
  }

  predicate Admitted(entry: (string, Candidate), l: Limits) { Admissible(entry.1, l) }

  /** Every admissible candidate is sampled or counted as one-sided, and never both. */
  lemma {:induction false} AdmissibleAreAccounted(candidates: seq<(string, Candidate)>, l: Limits)
    ensures |Samples(candidates, l)| + |OneSidedOf(candidates, l)|
            == |Filter(candidates, (entry: (string, Candidate)) => Admitted(entry, l))|
  {
    hide Admissible, TwoSided, SampleOf;
    if candidates != [] {
      AdmissibleAreAccounted(candidates[..|candidates| - 1], l);
    }
  }

  // ----- the checker -----

  datatype Rejection =
    | ProfileUnavailable | UnsupportedMethod | NoHttpsProvenance | InvalidStop | InvalidNotional | InvalidVenue | VenueMismatch
    | InvalidMinimumVolume | MinimumVolumeMismatch | NotionalMismatch | NoSampleMetadata | SampleInsufficient | SamplesIncomplete
    | HashMismatch | NoFreshnessContract | SampleVenueMismatch | SampleStale | SampleIlliquid | SampleNotionalMismatch
    | SampleNotExecutable | SampleOneSided | SampleDoesNotReconcile | NoSamples | MeansDoNotReconcile | NoRoundTripMean
    | RoundTripDoesNotReconcile

  datatype Demand = Demand(stopPct: real, notional: real, venue: string, minimumQuoteVolume: real)

  predicate Reconciles(s: Sample)
    requires TwoSided(s.bestBid, s.sellVwap, s.bestAsk, s.buyVwap)
  {
    && AtLeast(s.entryPct, 0.0) && AtLeast(s.exitPct, 0.0) && s.roundTripPct.Some?
    && Close(s.entryPct.value, EntryPct(s.bestBid.value, s.sellVwap.value), SAMPLE_TOLERANCE)
    && Close(s.exitPct.value, ExitPct(s.bestAsk.value, s.buyVwap.value), SAMPLE_TOLERANCE)
    && Close(s.roundTripPct.value, s.entryPct.value + s.exitPct.value, SAMPLE_TOLERANCE)
  }

  function SampleDefect(s: Sample, d: Demand, calculatedAt: real, maximumAge: real): Option<Rejection> {
    if s.venue != Some(d.venue) then Some(SampleVenueMismatch)
    else if s.observedAt.None? || s.observedAt.value > calculatedAt || calculatedAt - s.observedAt.value > maximumAge then Some(SampleStale)
    else if !AtLeast(s.referenceQuoteVolume, d.minimumQuoteVolume) || !AtLeast(s.selectedQuoteVolume, d.minimumQuoteVolume)
      then Some(SampleIlliquid)
    else if s.notional.None? || !Close(s.notional.value, d.notional, NOTIONAL_TOLERANCE) then Some(SampleNotionalMismatch)
    else if !s.executable then Some(SampleNotExecutable)
    else if !TwoSided(s.bestBid, s.sellVwap, s.bestAsk, s.buyVwap) then Some(SampleOneSided)
    else if !Reconciles(s) then Some(SampleDoesNotReconcile)
    else None
  }

  function FirstDefect(samples: seq<Sample>, d: Demand, calculatedAt: real, maximumAge: real): Option<Rejection> {
    if samples == [] then None
    else
      var n := |samples| - 1;
      var earlier := FirstDefect(samples[..n], d, calculatedAt, maximumAge);
      if earlier.Some? then earlier else SampleDefect(samples[n], d, calculatedAt, maximumAge)
  }

  function HeaderDefect(p: Profile, d: Demand): Option<Rejection> {
    if !p.available then Some(ProfileUnavailable)
    else if p.methodName != METHOD then Some(UnsupportedMethod)
    else if !HttpsSource(p.sourceUrl) then Some(NoHttpsProvenance)
    else if d.stopPct <= 0.0 then Some(InvalidStop)
    else if d.notional <= 0.0 then Some(InvalidNotional)
    else if d.venue == "" then Some(InvalidVenue)
    else if p.venue != Some(d.venue) then Some(VenueMismatch)
    else if d.minimumQuoteVolume < 0.0 then Some(InvalidMinimumVolume)
    else if p.minimumQuoteVolume.None? || !Close(p.minimumQuoteVolume.value, d.minimumQuoteVolume, NOTIONAL_TOLERANCE)
      then Some(MinimumVolumeMismatch)
    else if p.notional.None? || !Close(p.notional.value, d.notional, NOTIONAL_TOLERANCE) then Some(NotionalMismatch)
    else if p.sampleSize.None? || p.minimumSamples.None? then Some(NoSampleMetadata)
    else if p.sampleSize.value < p.minimumSamples.value then Some(SampleInsufficient)
    else if p.samples.None? || |p.samples.value| != p.sampleSize.value then Some(SamplesIncomplete)
    else if p.digest != Some(Sha256(p.samples.value)) then Some(HashMismatch)
    else if p.calculatedAt.None? || p.maximumAge.None? || p.maximumAge.value <= 0.0 then Some(NoFreshnessContract)
    else None
  }

  function MeanDefect(p: Profile, samples: seq<Sample>): Option<Rejection> {
    if samples == [] then Some(NoSamples)
    else
      var entryMean, exitMean := Mean(Entries(samples)), Mean(Exits(samples));
      if p.meanEntryPct.None? || p.meanExitPct.None?
         || !Close(p.meanEntryPct.value, Round(entryMean, SCALE), SAMPLE_TOLERANCE)
         || !Close(p.meanExitPct.value, Round(exitMean, SCALE), SAMPLE_TOLERANCE) then Some(MeansDoNotReconcile)
      else if !AtLeast(p.meanRoundTripPct, 0.0) then Some(NoRoundTripMean)
      else if !Close(p.meanRoundTripPct.value, Round(entryMean + exitMean, SCALE), SAMPLE_TOLERANCE) then Some(RoundTripDoesNotReconcile)
      else None
  }

  function CostR(p: Profile, d: Demand): Result<real, Rejection> {
    match HeaderDefect(p, d)
    case Some(e) => Err(e)
    case None =>
      match FirstDefect(p.samples.value, d, p.calculatedAt.value, p.maximumAge.value)
      case Some(e) => Err(e)
      case None =>
        match MeanDefect(p, p.samples.value)
        case Some(e) => Err(e)
        case None => Ok(Round(p.meanRoundTripPct.value / d.stopPct, SCALE))
  }

  method EmpiricalSlippageCostR(p: Profile, d: Demand) returns (result: Result<real, Rejection>)
    ensures result == CostR(p, d)
  {
    hide SampleDefect, MeanDefect, Round, Close, HttpsSource;
    var header := HeaderDefect(p, d);
    if header.Some? {
      return Err(header.value);
    }
    var samples := p.samples.value;
    for k := 0 to |samples|
      invariant FirstDefect(samples[..k], d, p.calculatedAt.value, p.maximumAge.value) == None
    {
      assert samples[..k + 1][..k] == samples[..k];
      var defect := SampleDefect(samples[k], d, p.calculatedAt.value, p.maximumAge.value);
      if defect.Some? {
        DefectStays(samples, k + 1, d, p.calculatedAt.value, p.maximumAge.value);
        return Err(defect.value);
      }
    }
    assert samples[..|samples|] == samples;
    var means := MeanDefect(p, samples);
    if means.Some? {
      return Err(means.value);
    }
    MeansPresent(p, samples);
    return Ok(Round(p.meanRoundTripPct.value / d.stopPct, SCALE));
  }

  lemma MeansPresent(p: Profile, samples: seq<Sample>)
    ensures MeanDefect(p, samples).None? ==> p.meanRoundTripPct.Some?
  {
  }

  lemma {:induction false} DefectStays(samples: seq<Sample>, k: nat, d: Demand, calculatedAt: real, maximumAge: real)
    requires k <= |samples| && FirstDefect(samples[..k], d, calculatedAt, maximumAge).Some?
    ensures FirstDefect(samples, d, calculatedAt, maximumAge) == FirstDefect(samples[..k], d, calculatedAt, maximumAge)
    decreases |samples| - k
  {
    hide SampleDefect;
    if k == |samples| {
      assert samples[..k] == samples;
    } else {
      assert samples[..k + 1][..k] == samples[..k];
      DefectStays(samples, k + 1, d, calculatedAt, maximumAge);
    }
  }

  // ----- writer and checker agree -----

  lemma {:induction false} SamplesAreClean(candidates: seq<(string, Candidate)>, l: Limits, d: Demand, s: Sample)
    requires ValidLimits(l) && l.venue == Some(d.venue) && l.notional == d.notional && l.minimumQuoteVolume == d.minimumQuoteVolume
    requires s in Samples(candidates, l)
    ensures SampleDefect(s, d, l.now, l.maximumAge) == None
    ensures s.entryPct.Some? && s.exitPct.Some? && s.entryPct.value >= 0.0 && s.exitPct.value >= 0.0
  {
    var n := |candidates| - 1;
    if s in Samples(candidates[..n], l) {
      SamplesAreClean(candidates[..n], l, d, s);
    } else {
      var c := candidates[n].1;
      SlippageIsNonNegative(c.bestBid.value, c.sellVwap.value, c.bestAsk.value, c.buyVwap.value);
    }
  }

  lemma {:induction false} NoDefect(samples: seq<Sample>, d: Demand, calculatedAt: real, maximumAge: real)
    requires forall s :: s in samples ==> SampleDefect(s, d, calculatedAt, maximumAge) == None
    ensures FirstDefect(samples, d, calculatedAt, maximumAge) == None
  {
    hide SampleDefect;
    if samples != [] {
      NoDefect(samples[..|samples| - 1], d, calculatedAt, maximumAge);
    }
  }

  lemma {:induction false} SumNonNegative(values: seq<real>)
    requires forall i :: 0 <= i < |values| ==> values[i] >= 0.0
    ensures Sum(values) >= 0.0
  {
    if values != [] {
      SumNonNegative(values[..|values| - 1]);
    }
  }

  lemma MeanNonNegative(values: seq<real>)
    requires values != [] && forall i :: 0 <= i < |values| ==> values[i] >= 0.0
    ensures Mean(values) >= 0.0
  {
    SumNonNegative(values);
    DivideLe(0.0, Sum(values), |values| as real);
  }

  /** Every written profile with a named venue, once given an HTTPS source, is accepted for the demand it was written for. */
  lemma WrittenProfilesAreAccepted(candidates: seq<(string, Candidate)>, l: Limits, d: Demand, source: seq<Url>)
    requires Write(candidates, l).Written?
    requires d.venue != "" && l.venue == Some(d.venue) && HttpsSource(source)
    requires l.notional == d.notional && l.minimumQuoteVolume == d.minimumQuoteVolume && d.stopPct > 0.0
    ensures CostR(Write(candidates, l).profile.(sourceUrl := source), d).Ok?
  {
    hide Samples, SampleDefect, Round;
    var samples := SortBy(Samples(candidates, l), SymbolLe);
    WrittenSamples(candidates, l, d);
    NoDefect(samples, d, l.now, l.maximumAge);
    var p := ProfileOf(samples, l).(sourceUrl := source);
    assert HeaderDefect(p, d) == None;
    WrittenMeans(samples, l);
    MeansIgnoreSource(p, ProfileOf(samples, l), samples);
    MeansPresent(p, samples);
  }

  lemma WrittenSamples(candidates: seq<(string, Candidate)>, l: Limits, d: Demand)
    requires ValidLimits(l) && l.venue == Some(d.venue) && l.notional == d.notional && l.minimumQuoteVolume == d.minimumQuoteVolume
    ensures forall s :: s in SortBy(Samples(candidates, l), SymbolLe) ==>
              SampleDefect(s, d, l.now, l.maximumAge) == None && AtLeast(s.entryPct, 0.0) && AtLeast(s.exitPct, 0.0)
  {
    hide SampleDefect;
    SymbolOrder();
    SortBySpec(Samples(candidates, l), SymbolLe);
    forall s | s in Samples(candidates, l)
      ensures SampleDefect(s, d, l.now, l.maximumAge) == None && AtLeast(s.entryPct, 0.0) && AtLeast(s.exitPct, 0.0)
    {
      SamplesAreClean(candidates, l, d, s);
    }
  }

  lemma WrittenMeans(samples: seq<Sample>, l: Limits)
    requires samples != [] && forall s :: s in samples ==> AtLeast(s.entryPct, 0.0) && AtLeast(s.exitPct, 0.0)
    ensures MeanDefect(ProfileOf(samples, l), samples) == None
  {
    assert forall i :: 0 <= i < |samples| ==> samples[i] in samples;
    MeanNonNegative(Entries(samples));
    MeanNonNegative(Exits(samples));
    RoundNonNegative(Mean(Entries(samples)) + Mean(Exits(samples)));
    hide Round, Mean;
  }

  lemma RoundNonNegative(x: real)
    requires x >= 0.0
    ensures Round(x, SCALE) >= 0.0
  {
    RoundMonotone(0.0, x, SCALE);
    assert Round(0.0, SCALE) == 0.0;
  }

  lemma MeansIgnoreSource(p: Profile, q: Profile, samples: seq<Sample>)
    requires p == q.(sourceUrl := p.sourceUrl)
    ensures MeanDefect(p, samples) == MeanDefect(q, samples)
  {
  }

  lemma SymbolOrder()
    ensures TotalPreorder(SymbolLe)
  {
    hide StringLe;
    StringOrder();
  }

  // ----- an accepted cost is close to the raw prices -----

  /** Round-trip slippage of one sample recomputed from its raw prices. */
  ghost function RawRoundTrip(s: Sample): real {
    if TwoSided(s.bestBid, s.sellVwap, s.bestAsk, s.buyVwap)
    then EntryPct(s.bestBid.value, s.sellVwap.value) + ExitPct(s.bestAsk.value, s.buyVwap.value)
    else 0.0
  }

  ghost function RawRoundTrips(samples: seq<Sample>): (r: seq<real>)
    ensures |r| == |samples|
  {
    seq(|samples|, i requires 0 <= i < |samples| => RawRoundTrip(samples[i]))
  }

  lemma {:induction false} DefectFree(samples: seq<Sample>, d: Demand, calculatedAt: real, maximumAge: real, i: nat)
    requires FirstDefect(samples, d, calculatedAt, maximumAge) == None && i < |samples|
    ensures SampleDefect(samples[i], d, calculatedAt, maximumAge) == None
  {
    hide SampleDefect;
    if i < |samples| - 1 {
      DefectFree(samples[..|samples| - 1], d, calculatedAt, maximumAge, i);
    }
  }

  ghost function Budget(n: nat, tolerance: real): real { n as real * tolerance }

  lemma StepBound(n: nat, x: real, y: real, tolerance: real)
    requires Abs(x) <= Budget(n, tolerance) && Abs(y) <= tolerance
    ensures Abs(x + y) <= Budget(n + 1, tolerance)
  {
    assert (n + 1) as real * tolerance == n as real * tolerance + tolerance;
  }

  /** Sums of values that agree up to a tolerance agree up to that tolerance per value. */
  lemma {:induction false} SumsClose(a: seq<real>, b: seq<real>, c: seq<real>, tolerance: real)
    requires |a| == |b| == |c|
    requires forall i :: 0 <= i < |a| ==> Abs(a[i] + b[i] - c[i]) <= tolerance
    ensures Abs(Sum(a) + Sum(b) - Sum(c)) <= Budget(|a|, tolerance)
  {
    if a == [] {
      assert Budget(0, tolerance) == 0.0;
    } else {
      hide Budget;
      var n := |a| - 1;
      SumsClose(a[..n], b[..n], c[..n], tolerance);
      var x, y := Sum(a[..n]) + Sum(b[..n]) - Sum(c[..n]), a[n] + b[n] - c[n];
      StepBound(n, x, y, tolerance);
      assert Sum(a) + Sum(b) - Sum(c) == x + y;
    }
  }

  lemma SumQuotient(a: real, b: real, c: real, n: real, tolerance: real)
    requires n > 0.0 && Abs(a + b - c) <= n * tolerance
    ensures Abs(a / n + b / n - c / n) <= tolerance
  {
    var gap := a + b - c;
    DivideLe(gap, n * tolerance, n);
    DivideLe(-(n * tolerance), gap, n);
    assert gap / n == a / n + b / n - c / n;
    assert (n * tolerance) / n == tolerance;
  }

  lemma MeansClose(a: seq<real>, b: seq<real>, c: seq<real>, tolerance: real)
    requires |a| == |b| == |c| > 0
    requires forall i :: 0 <= i < |a| ==> Abs(a[i] + b[i] - c[i]) <= tolerance
    ensures Abs(Mean(a) + Mean(b) - Mean(c)) <= tolerance
  {
    SumsClose(a, b, c, tolerance);
    SumQuotient(Sum(a), Sum(b), Sum(c), |a| as real, tolerance);
  }

  /** Tolerances of the checker plus one rounding, before dividing by the stop. */
  const MEAN_BOUND: real := 0.000000005003

  /** An accepted cost is the raw mean round trip over the stop, up to the tolerances and two roundings. */
  lemma AcceptedCostIsNearRawMean(p: Profile, d: Demand)
    requires CostR(p, d).Ok?
    ensures p.samples.Some? && p.samples.value != [] && d.stopPct > 0.0
    ensures var cost, raw := CostR(p, d).value, Mean(RawRoundTrips(p.samples.value));
            Abs(cost - raw / d.stopPct) <= 0.000000005 + MEAN_BOUND / d.stopPct
  {
    hide Round;
    var samples := p.samples.value;
    MeanIsNearRaw(p, d);
    var mean, raw := p.meanRoundTripPct.value, Mean(RawRoundTrips(samples));
    hide *;
    RoundError(mean / d.stopPct, SCALE);
    QuotientsClose(mean, raw, d.stopPct, MEAN_BOUND);
  }

  lemma MeanIsNearRaw(p: Profile, d: Demand)
    requires CostR(p, d).Ok?
    ensures p.samples.Some? && p.samples.value != [] && d.stopPct > 0.0 && AtLeast(p.meanRoundTripPct, 0.0)
    ensures Abs(p.meanRoundTripPct.value - Mean(RawRoundTrips(p.samples.value))) <= MEAN_BOUND
  {
    var samples := p.samples.value;
    var entries, exits, raws := Entries(samples), Exits(samples), RawRoundTrips(samples);
    forall i | 0 <= i < |samples| ensures Abs(entries[i] + exits[i] - raws[i]) <= 2.0 * SAMPLE_TOLERANCE {
      DefectFree(samples, d, p.calculatedAt.value, p.maximumAge.value, i);
    }
    hide SampleDefect, FirstDefect, HttpsSource, Round, Mean;
    MeansClose(entries, exits, raws, 2.0 * SAMPLE_TOLERANCE);
    RoundError(Mean(entries) + Mean(exits), SCALE);
  }

  /** An accepted profile never credits the trade, and it carries HTTPS provenance. */
  lemma AcceptedCostIsACost(p: Profile, d: Demand)
    requires CostR(p, d).Ok?
    ensures CostR(p, d).value >= 0.0 && HttpsSource(p.sourceUrl)
  {
    hide Round, SampleDefect;
    MeanIsNearRaw(p, d);
    DivideLe(0.0, p.meanRoundTripPct.value, d.stopPct);
    RoundNonNegative(p.meanRoundTripPct.value / d.stopPct);
  }

  lemma QuotientsClose(a: real, b: real, c: real, bound: real)
    requires c > 0.0 && Abs(a - b) <= bound
    ensures Abs(a / c - b / c) <= bound / c
  {
    DivideLe(a - b, bound, c);
    DivideLe(b - a, bound, c);
    assert (a - b) / c == a / c - b / c;
    assert (b - a) / c == b / c - a / c;
  }
}
