/**
 Point-in-time derivatives of an entry (scripts/historical_backtest.py, HistoricalDerivatives and
 score_v2_derivatives_context): metrics archived by day and the funding history, looked up by bisecting.
 */
module Derivatives {
  import opened Common
  import opened Candles
  import opened Signals
  import Trades
  import Funding

  const DAY_MS: int := 86_400_000
  const TEN_MINUTES: int := 600_000

  datatype Metrics = Metrics(timestamp: int, row: MetricsRow, source: Trades.Url)

  /** The parsed archive of each day, empty when there is none. */
  type Archive = int -> seq<Metrics>

  predicate TimestampLe(a: Metrics, b: Metrics) { a.timestamp <= b.timestamp }

  predicate NotAfter(m: Metrics, x: int) { m.timestamp <= x }

  function UpTo(rows: seq<Metrics>, x: int): seq<Metrics> { Filter(rows, m => NotAfter(m, x)) }

  /** The rows of the entry's day and the day before, in time order. */
  function RowsForEntry(archive: Archive, timestamp: int): seq<Metrics> {
    SortBy(archive(timestamp / DAY_MS - 1) + archive(timestamp / DAY_MS), TimestampLe)
  }

  function Positions(rows: seq<Metrics>): seq<int> { Mapped(rows, (m: Metrics) => m.timestamp) }

  /** The last observation not after the timestamp, if it is at most ten minutes old. */
  function AtOrBefore(archive: Archive, timestamp: int): Option<Metrics> {
    var rows := RowsForEntry(archive, timestamp);
    var index := BisectRight(Positions(rows), timestamp);
    if index == 0 then None
    else if timestamp - rows[index - 1].timestamp <= TEN_MINUTES then Some(rows[index - 1]) else None
  }

  predicate AtMost(f: Funding.Funding, rate: real) { f.rate <= rate }

  function Percentile(history: seq<Funding.Funding>, rate: real): real
    requires history != []
  {
    |Filter(history, f => AtMost(f, rate))| as real / |history| as real
  }

  /** The metrics the score needs are present and positive. */
  predicate Complete(current: MetricsRow, previous: MetricsRow) {
    && current.openInterest.Some? && current.openInterest.value > 0.0
    && previous.openInterest.Some? && previous.openInterest.value > 0.0
    && current.takerRatio.Some? && current.takerRatio.value > 0.0
    && current.topTraderRatio.Some? && current.topTraderRatio.value > 0.0
  }

  /** Every observation is positive in time, not after the entry and fresh enough for its kind. */
  predicate Fresh(funding: Funding.Observation, current: Metrics, previous: Metrics, entry: int) {
    && 0 < funding.current.timestamp <= entry && 0 < current.timestamp <= entry && 0 < previous.timestamp <= entry
    && entry - funding.current.timestamp <= Funding.EIGHT_HOURS
    && entry - current.timestamp <= TEN_MINUTES
    && -TEN_MINUTES <= entry - ONE_HOUR - previous.timestamp <= TEN_MINUTES
    && (forall f :: f in funding.history ==> 0 < f.timestamp <= entry)
    && (forall i, j :: 0 <= i < j < |funding.history| ==> funding.history[i].timestamp <= funding.history[j].timestamp)
  }

  function TakerChange(current: MetricsRow, previous: MetricsRow): Option<real> {
    if current.takerRatio.None? || previous.takerRatio.None? then None
    else Some(Round(current.takerRatio.value - previous.takerRatio.value, 1000000.0))
  }

  /** Only a complete context is scored; anything missing rejects the entry. */
  function ContextOf(funding: Funding.Observation, current: Metrics, previous: Metrics, entry: int): Option<ScoreContext> {
    if !Trades.HttpsSource([current.source]) || !Complete(current.row, previous.row) || |funding.history| < 2
       || !Fresh(funding, current, previous, entry) then None
    else
      Some(ScoreContext(
        Round(funding.current.rate, 10000000000.0),
        Round(Percentile(funding.history, funding.current.rate), 1000000.0),
        Round((current.row.openInterest.value / previous.row.openInterest.value - 1.0) * 100.0, 10000.0),
        Round(current.row.takerRatio.value, 1000000.0),
        Round(current.row.topTraderRatio.value, 1000000.0),
        TakerChange(current.row, previous.row),
        ObservedAt(funding.current.timestamp, current.timestamp, previous.timestamp)))
  }

  function ScoreAt(archive: Archive, funding: Option<seq<Funding.Funding>>, timestamp: int): Option<ScoreContext> {
    var observed := Funding.AtOrBefore(funding, timestamp);
    var current, previous := AtOrBefore(archive, timestamp), AtOrBefore(archive, timestamp - ONE_HOUR);
    if observed.None? || current.None? || previous.None? then None
    else ContextOf(observed.value, current.value, previous.value, timestamp)
  }

  function MetricsAt(archive: Archive, timestamp: int): Option<MetricsRow> {
    var m := AtOrBefore(archive, timestamp);
    if m.None? then None else Some(m.value.row)
  }

  /** What a study consults, built from an archive and a funding history. */
  function PointInTime(archive: Archive, funding: Option<seq<Funding.Funding>>): Signals.Derivatives {
    Signals.Derivatives(x => ScoreAt(archive, funding, x), x => MetricsAt(archive, x))
  }

  // ----- nothing later is read -----

  /** Two archives show the same observations up to x; what either holds afterwards is its own. */
  ghost predicate SameArchiveUntil(a: Archive, b: Archive, x: int) {
    forall day: int :: UpTo(a(day), x) == UpTo(b(day), x)
  }

  /** Two funding histories show the same observations up to x. */
  ghost predicate SameFundingUntil(a: Option<seq<Funding.Funding>>, b: Option<seq<Funding.Funding>>, x: int) {
    match (a, b)
    case (Some(p), Some(q)) =>
      exists k: nat :: k <= |p| && k <= |q| && p[..k] == q[..k] && Funding.Ascending(p[..k])
        && (forall i :: k <= i < |p| ==> p[i].timestamp > x) && (forall i :: k <= i < |q| ==> q[i].timestamp > x)
    case (None, None) => true
    case _ => false
  }

  lemma UpToEarlier(rows: seq<Metrics>, x: int, y: int)
    requires y <= x
    ensures UpTo(UpTo(rows, x), y) == UpTo(rows, y)
  {
    FilterFilter(rows, m => NotAfter(m, x), m => NotAfter(m, y), m => NotAfter(m, y));
  }

  lemma SameArchiveEarlier(a: Archive, b: Archive, x: int, y: int)
    requires SameArchiveUntil(a, b, x) && y <= x
    ensures SameArchiveUntil(a, b, y)
  {
    hide UpTo;
    forall day: int
      ensures UpTo(a(day), y) == UpTo(b(day), y)
    {
      assert UpTo(a(day), x) == UpTo(b(day), x);
      UpToEarlier(a(day), x, y);
      UpToEarlier(b(day), x, y);
    }
  }

  lemma TimestampOrder()
    ensures TotalPreorder(TimestampLe)
  {
  }

  /** In sorted rows the bisected prefix is what is not after the timestamp. */
  lemma {:induction false} BisectIsUpTo(rows: seq<Metrics>, x: int)
    requires Sorted(rows, TimestampLe)
    ensures UpTo(rows, x) == rows[..BisectRight(Positions(rows), x)]
  {
    if rows != [] {
      var n := |rows| - 1;
      BisectIsUpTo(rows[..n], x);
      PositionsInit(rows);
      hide Positions;
      if NotAfter(rows[n], x) {
        AllUpTo(rows, x);
        assert rows[..|rows|] == rows;
      } else {
        SliceOfPrefix(rows, n, 0, BisectRight(Positions(rows[..n]), x));
      }
    }
  }

  lemma PositionsInit(rows: seq<Metrics>)
    requires rows != []
    ensures var n := |rows| - 1;
            |Positions(rows)| == n + 1 && Positions(rows)[n] == rows[n].timestamp && Positions(rows)[..n] == Positions(rows[..n])
  {
    hide Mapped;
  }

  lemma AllUpTo(rows: seq<Metrics>, x: int)
    requires Sorted(rows, TimestampLe) && rows != [] && NotAfter(rows[|rows| - 1], x)
    ensures UpTo(rows, x) == rows
  {
    forall m | m in rows ensures NotAfter(m, x) {
      var i :| 0 <= i < |rows| && rows[i] == m;
      assert i < |rows| - 1 ==> TimestampLe(rows[i], rows[|rows| - 1]);
    }
    FilterAll(rows, m => NotAfter(m, x));
  }

  function SeenRows(archive: Archive, x: int): seq<Metrics> {
    SortBy(UpTo(archive(x / DAY_MS - 1), x) + UpTo(archive(x / DAY_MS), x), TimestampLe)
  }

  lemma RowsUpTo(archive: Archive, x: int)
    ensures UpTo(RowsForEntry(archive, x), x) == SeenRows(archive, x) && Sorted(RowsForEntry(archive, x), TimestampLe)
  {
    hide SortBy, Filter, NotAfter, Sorted;
    var a, b := archive(x / DAY_MS - 1), archive(x / DAY_MS);
    var p := m => NotAfter(m, x);
    TimestampOrder();
    SortBySpec(a + b, TimestampLe);
    FilterSortBy(a + b, TimestampLe, p);
    FilterAppend(a, b, p);
    SameFilter(a + b, x, p);
    SameFilter(a, x, p);
    SameFilter(b, x, p);
    SameFilter(SortBy(a + b, TimestampLe), x, p);
  }

  lemma SameFilter(rows: seq<Metrics>, x: int, p: Metrics -> bool)
    requires forall m :: p(m) == NotAfter(m, x)
    ensures UpTo(rows, x) == Filter(rows, p)
  {
    FilterSame(rows, m => NotAfter(m, x), p);
  }

  /** A lookup reads only what was observed by then: the last of those rows, if it is fresh. */
  lemma LookupReadsUpTo(archive: Archive, x: int)
    ensures var seen := SeenRows(archive, x);
            AtOrBefore(archive, x) ==
            if seen == [] || x - seen[|seen| - 1].timestamp > TEN_MINUTES then None else Some(seen[|seen| - 1])
  {
    hide SeenRows, RowsForEntry, UpTo, Mapped, Sorted;
    RowsUpTo(archive, x);
    BisectIsUpTo(RowsForEntry(archive, x), x);
  }

  lemma LookupIsVisible(a: Archive, b: Archive, x: int, timestamp: int)
    requires SameArchiveUntil(a, b, x) && timestamp <= x
    ensures AtOrBefore(a, timestamp) == AtOrBefore(b, timestamp)
  {
    hide AtOrBefore, UpTo, SortBy;
    SameArchiveEarlier(a, b, x, timestamp);
    LookupReadsUpTo(a, timestamp);
    LookupReadsUpTo(b, timestamp);
    assert UpTo(a(timestamp / DAY_MS - 1), timestamp) == UpTo(b(timestamp / DAY_MS - 1), timestamp);
  }

  lemma SharedFunding(p: seq<Funding.Funding>, q: seq<Funding.Funding>, x: int) returns (k: nat)
    requires SameFundingUntil(Some(p), Some(q), x)
    ensures k <= |p| && k <= |q| && p[..k] == q[..k] && Funding.Ascending(p[..k])
    ensures (forall i :: k <= i < |p| ==> p[i].timestamp > x) && (forall i :: k <= i < |q| ==> q[i].timestamp > x)
  {
    k :| k <= |p| && k <= |q| && p[..k] == q[..k] && Funding.Ascending(p[..k])
      && (forall i :: k <= i < |p| ==> p[i].timestamp > x) && (forall i :: k <= i < |q| ==> q[i].timestamp > x);
  }

  lemma FundingIsVisible(a: Option<seq<Funding.Funding>>, b: Option<seq<Funding.Funding>>, x: int)
    requires SameFundingUntil(a, b, x)
    ensures Funding.AtOrBefore(a, x) == Funding.AtOrBefore(b, x)
  {
    if a.Some? && b.Some? {
      var p, q := a.value, b.value;
      var k := SharedFunding(p, q, x);
      hide Funding.AtOrBefore;
      assert p == p[..k] + p[k..] && q == q[..k] + q[k..];
      Funding.FundingIsCausal(p[..k], p[k..], x);
      Funding.FundingIsCausal(q[..k], q[k..], x);
    }
  }

  lemma SameFundingEarlier(a: Option<seq<Funding.Funding>>, b: Option<seq<Funding.Funding>>, x: int, y: int)
    requires SameFundingUntil(a, b, x) && y <= x
    ensures SameFundingUntil(a, b, y)
  {
    if a.Some? && b.Some? {
      var k := SharedFunding(a.value, b.value, x);
      assert a.value[..k] == b.value[..k];
    }
  }

  /** In a history that goes on after x the bisected prefix at an earlier time is that of the shared part. */
  lemma BisectIsShared(rows: seq<Funding.Funding>, k: nat, x: int)
    requires k <= |rows| && Funding.Ascending(rows[..k]) && forall i :: k <= i < |rows| ==> rows[i].timestamp > x
    ensures BisectRight(Funding.Positions(rows), x) == BisectRight(Funding.Positions(rows[..k]), x)
  {
    var shared := rows[..k];
    Funding.BisectSeparates(shared, x);
    var j := BisectRight(Funding.Positions(shared), x);
    forall i | 0 <= i < |rows| ensures i < j <==> rows[i].timestamp <= x {
      if i < k { assert shared[i] == rows[i]; }
    }
    Funding.BisectIs(rows, x, j);
  }

  lemma ChargesAreShared(rows: seq<Funding.Funding>, k: nat, start: int, end: int)
    requires k <= |rows| && Funding.Ascending(rows[..k]) && start <= end
    requires forall i :: k <= i < |rows| ==> rows[i].timestamp > end
    ensures Funding.ChargesBetween(Some(rows), start, end) == Funding.ChargesBetween(Some(rows[..k]), start, end)
  {
    hide BisectRight, Funding.Ascending, Mapped;
    BisectIsShared(rows, k, start);
    BisectIsShared(rows, k, end);
    Funding.BisectMonotone(Funding.Positions(rows), start, end);
    var i, j := BisectRight(Funding.Positions(rows), start), BisectRight(Funding.Positions(rows), end);
    assert |Funding.Positions(rows[..k])| == k && |Funding.Positions(rows)| == |rows|;
    hide Funding.Positions;
    SliceOfPrefix(rows, k, i, j);
  }

  /** The charges of a window that ends by x are the same for histories that agree up to x. */
  lemma ChargesAreVisible(a: Option<seq<Funding.Funding>>, b: Option<seq<Funding.Funding>>, x: int, start: int, end: int)
    requires SameFundingUntil(a, b, x) && end <= x
    ensures Funding.ChargesBetween(a, start, end) == Funding.ChargesBetween(b, start, end)
  {
    hide SameFundingUntil, Funding.Ascending;
    if a.Some? && b.Some? && start <= end {
      var k := SharedFunding(a.value, b.value, x);
      ChargesAreShared(a.value, k, start, end);
      ChargesAreShared(b.value, k, start, end);
    } else {
      SameCoverage(a, b, x);
    }
  }

  lemma SameCoverage(a: Option<seq<Funding.Funding>>, b: Option<seq<Funding.Funding>>, x: int)
    requires SameFundingUntil(a, b, x)
    ensures a.Some? <==> b.Some?
  {
  }

  /** The context and the metrics an entry reads are those of the observations made by then. */
  lemma DerivativesAreVisible(
    a: Archive, b: Archive, f: Option<seq<Funding.Funding>>, g: Option<seq<Funding.Funding>>, x: int)
    requires SameArchiveUntil(a, b, x) && SameFundingUntil(f, g, x)
    ensures ScoreAt(a, f, x) == ScoreAt(b, g, x)
    ensures MetricsAt(a, x) == MetricsAt(b, x) && MetricsAt(a, x - ONE_HOUR) == MetricsAt(b, x - ONE_HOUR)
  {
    hide AtOrBefore, ContextOf, SameArchiveUntil, SameFundingUntil, Funding.AtOrBefore;
    LookupIsVisible(a, b, x, x);
    LookupIsVisible(a, b, x, x - ONE_HOUR);
    FundingIsVisible(f, g, x);
  }

  /** A study that consults these data. */
  function StudyWith(study: Study, archive: Archive, funding: Option<seq<Funding.Funding>>): Study {
    study.(derivatives := Some(PointInTime(archive, funding)))
  }

  lemma GateIsVisible(
    study: Study, a: Archive, b: Archive, f: Option<seq<Funding.Funding>>, g: Option<seq<Funding.Funding>>, checks: Checks, x: int,
    belowVwap: Option<bool>)
    requires SameArchiveUntil(a, b, x) && SameFundingUntil(f, g, x)
    ensures DerivativesGate(StudyWith(study, a, f), checks, x, belowVwap) == DerivativesGate(StudyWith(study, b, g), checks, x, belowVwap)
  {
    hide ScoreAt, MetricsAt, LongUnwind;
    DerivativesAreVisible(a, b, f, g, x);
  }

  /**
   No lookahead with derivatives: two data sets that agree on every candle closed, every metrics row archived and every
   funding observation made by candle i's close give the same decision at candle i.
   */
  lemma NoLookaheadWithDerivatives(
    study: Study, a: seq<Candle>, b: seq<Candle>, p: Option<seq<seq<Candle>>>, q: Option<seq<seq<Candle>>>, i: nat,
    archiveA: Archive, archiveB: Archive, fundingA: Option<seq<Funding.Funding>>, fundingB: Option<seq<Funding.Funding>>)
    requires Contiguous(a) && Contiguous(b) && i < |a| && i < |b| && a[..i + 1] == b[..i + 1]
    requires SameMacroUntil(p, q, CloseTime(a[i]))
    requires SameArchiveUntil(archiveA, archiveB, CloseTime(a[i])) && SameFundingUntil(fundingA, fundingB, CloseTime(a[i]))
    ensures Decide(StudyWith(study, archiveA, fundingA), a, p, i) == Decide(StudyWith(study, archiveB, fundingB), b, q, i)
  {
    hide Contiguous, SameUntil, SameMacroUntil, SameArchiveUntil, SameFundingUntil, ChecksAt, MacroConfirmed, QuoteVolume, BelowVwap,
      StagesPass, DerivativesGate, Score, Round, PointInTime, ChannelPrecheck;
    SameClosedCandles(a, b, i);
    var x := CloseTime(a[i]);
    NoLookahead(StudyWith(study, archiveA, fundingA), a, b, p, q, i);
    var checks := ChecksAt(study.indicators, b, x);
    if checks.Some? {
      GateIsVisible(study, archiveA, archiveB, fundingA, fundingB, checks.value, x, BelowVwap(b, i + 1));
    }
  }
}
