/** Which observations an entry is scored with and what they show (scripts/historical_backtest.py). */
module DerivativesExactness {
  import opened Common
  import opened Candles
  import opened Signals
  import opened Derivatives
  import Funding
  import Trades

  // ----- funding -----

  /** The latest observation by x, at most eight hours old, with the observations of the ninety intervals before x. */
  ghost predicate ObservedBy(o: Funding.Observation, rows: seq<Funding.Funding>, x: int) {
    && o.current in rows && o.current.timestamp <= x <= o.current.timestamp + 28_800_000
    && (forall f :: f in rows && f.timestamp <= x ==> f.timestamp <= o.current.timestamp)
    && forall f :: f in o.history <==> f in rows && x - 90 * 28_800_000 <= f.timestamp <= x
  }

  /** An entry finds a funding observation exactly when one was made in the last eight hours, and then the latest. */
  lemma FundingLookupExactly(rows: seq<Funding.Funding>, x: int)
    requires Funding.Ascending(rows)
    ensures var found := Funding.AtOrBefore(Some(rows), x);
            && (found.Some? <==> exists f :: f in rows && f.timestamp <= x <= f.timestamp + 28_800_000)
            && (found.Some? ==> ObservedBy(found.value, rows, x))
  {
    hide BisectRight, Filter, Mapped;
    Funding.BisectSeparates(rows, x);
    var n: int := BisectRight(Funding.Positions(rows), x);
    assert 0 <= n <= |rows|;
    Seen(rows, n, x);
    if n > 0 {
      assert rows[n - 1] in rows;
      FilterMembers(rows[..n], (f: Funding.Funding) => f.timestamp >= x - 90 * Funding.EIGHT_HOURS);
    }
  }

  lemma Seen(rows: seq<Funding.Funding>, n: nat, x: int)
    requires Funding.Ascending(rows) && n <= |rows| && forall i :: 0 <= i < |rows| ==> (i < n <==> rows[i].timestamp <= x)
    ensures forall f :: f in rows[..n] <==> f in rows && f.timestamp <= x
    ensures n > 0 ==> forall f :: f in rows[..n] ==> f.timestamp <= rows[n - 1].timestamp
  {
    forall f | f in rows && f.timestamp <= x ensures f in rows[..n] {
      var i :| 0 <= i < |rows| && rows[i] == f;
      assert rows[..n][i] == f;
    }
  }

  // ----- metrics -----

  /** The archived rows a lookup at x can reach: those of its day and the day before. */
  ghost predicate Archived(archive: Archive, x: int, m: Metrics) {
    m in archive(x / 86_400_000) || m in archive(x / 86_400_000 - 1)
  }

  lemma SeenMembers(archive: Archive, x: int)
    ensures forall m :: m in SeenRows(archive, x) <==> Archived(archive, x, m) && m.timestamp <= x
    ensures Sorted(SeenRows(archive, x), TimestampLe)
  {
    hide SortBy, Filter;
    TimestampOrder();
    var a, b := archive(x / DAY_MS - 1), archive(x / DAY_MS);
    SortBySpec(UpTo(a, x) + UpTo(b, x), TimestampLe);
    FilterMembers(a, m => NotAfter(m, x));
    FilterMembers(b, m => NotAfter(m, x));
  }

  /** A metrics lookup finds a row exactly when one of the two days was made in the last ten minutes, and then a latest one. */
  lemma MetricsLookupExactly(archive: Archive, x: int)
    ensures var found := Derivatives.AtOrBefore(archive, x);
            && (found.Some? <==> exists m :: Archived(archive, x, m) && m.timestamp <= x <= m.timestamp + 600_000)
            && (found.Some? ==>
                  && Archived(archive, x, found.value) && found.value.timestamp <= x <= found.value.timestamp + 600_000
                  && forall m :: Archived(archive, x, m) && m.timestamp <= x ==> m.timestamp <= found.value.timestamp)
  {
    hide SeenRows, Archived, RowsForEntry, BisectRight;
    LookupReadsUpTo(archive, x);
    SeenMembers(archive, x);
    var seen := SeenRows(archive, x);
    if seen != [] {
      var last := seen[|seen| - 1];
      assert last in seen;
      forall m | m in seen ensures m.timestamp <= last.timestamp {
        var i :| 0 <= i < |seen| && seen[i] == m;
        assert i < |seen| - 1 ==> TimestampLe(seen[i], last);
      }
    }
  }

  // ----- the score context -----

  /** Everything the score needs is there, positive, and from an HTTPS archive. */
  ghost predicate Usable(o: Funding.Observation, now: Metrics, before: Metrics, x: int) {
    && now.source.scheme == "https" && now.source.netloc != "" && |o.history| >= 2
    && o.current.timestamp > 0 && now.timestamp > 0 && before.timestamp > 0 && (forall f :: f in o.history ==> f.timestamp > 0)
    && now.row.openInterest.Some? && now.row.openInterest.value > 0.0
    && before.row.openInterest.Some? && before.row.openInterest.value > 0.0
    && now.row.takerRatio.Some? && now.row.takerRatio.value > 0.0
    && now.row.topTraderRatio.Some? && now.row.topTraderRatio.value > 0.0
  }

  /** How many of the observations have a rate of at most this. */
  ghost function AtMostCount(history: seq<Funding.Funding>, rate: real): nat {
    |Filter(history, (f: Funding.Funding) => f.rate <= rate)|
  }

  /** What the context shows, each figure rounded: the rate and its rank, the hour's change, and the two ratios. */
  ghost predicate ContextShows(c: ScoreContext, o: Funding.Observation, now: Metrics, before: Metrics)
    requires |o.history| > 0 && now.row.openInterest.Some? && before.row.openInterest.Some? && before.row.openInterest.value > 0.0
    requires now.row.takerRatio.Some? && now.row.topTraderRatio.Some?
  {
    var change := (now.row.openInterest.value / before.row.openInterest.value - 1.0) * 100.0;
    && Abs(c.fundingRate - o.current.rate) <= 0.00000000005
    && Abs(c.fundingPercentile - AtMostCount(o.history, o.current.rate) as real / |o.history| as real) <= 0.0000005
    && Abs(c.oiChangePct - change) <= 0.00005
    && Abs(c.takerRatio - now.row.takerRatio.value) <= 0.0000005
    && Abs(c.topTraderRatio - now.row.topTraderRatio.value) <= 0.0000005
    && (c.takerChange.Some? <==> before.row.takerRatio.Some?)
    && (c.takerChange.Some? ==> Abs(c.takerChange.value - (now.row.takerRatio.value - before.row.takerRatio.value)) <= 0.0000005)
    && c.observedAt == ObservedAt(o.current.timestamp, now.timestamp, before.timestamp)
  }

  lemma ContextMeans(o: Funding.Observation, now: Metrics, before: Metrics, x: int)
    requires o.current.timestamp <= x <= o.current.timestamp + 28_800_000 && now.timestamp <= x <= now.timestamp + 600_000
    requires before.timestamp <= x - 3_600_000 <= before.timestamp + 600_000
    requires forall f :: f in o.history ==> f.timestamp <= x
    requires forall i, j :: 0 <= i < j < |o.history| ==> o.history[i].timestamp <= o.history[j].timestamp
    ensures ContextOf(o, now, before, x).Some? <==> Usable(o, now, before, x)
    ensures Usable(o, now, before, x) ==> ContextShows(ContextOf(o, now, before, x).value, o, now, before)
  {
    hide Round, Abs, Filter, Percentile, Trades.HttpsSource, AtMostCount;
    Trades.SourceMeans(now.source);
    if Usable(o, now, before, x) {
      RoundError(o.current.rate, 10000000000.0);
      PercentileMeans(o.history, o.current.rate);
      RoundError(Percentile(o.history, o.current.rate), 1000000.0);
      RoundError((now.row.openInterest.value / before.row.openInterest.value - 1.0) * 100.0, 10000.0);
      RoundError(now.row.takerRatio.value, 1000000.0);
      RoundError(now.row.topTraderRatio.value, 1000000.0);
      if before.row.takerRatio.Some? { RoundError(now.row.takerRatio.value - before.row.takerRatio.value, 1000000.0); }
    }
  }

  lemma PercentileMeans(history: seq<Funding.Funding>, rate: real)
    requires history != []
    ensures Percentile(history, rate) == AtMostCount(history, rate) as real / |history| as real
  {
    FilterSame(history, f => AtMost(f, rate), (f: Funding.Funding) => f.rate <= rate);
    hide Filter;
  }

  lemma {:induction false} FilterAscends(rows: seq<Funding.Funding>, p: Funding.Funding -> bool)
    requires Funding.Ascending(rows)
    ensures Funding.Ascending(Filter(rows, p))
  {
    if rows != [] {
      var n := |rows| - 1;
      FilterAscends(rows[..n], p);
      FilterMembers(rows[..n], p);
      var kept := Filter(rows[..n], p);
      forall i | 0 <= i < |kept| ensures kept[i].timestamp < rows[n].timestamp {
        assert kept[i] in rows[..n];
      }
    }
  }

  lemma HistoryAscends(rows: seq<Funding.Funding>, x: int)
    requires Funding.Ascending(rows) && Funding.AtOrBefore(Some(rows), x).Some?
    ensures Funding.Ascending(Funding.AtOrBefore(Some(rows), x).value.history)
  {
    var n := BisectRight(Funding.Positions(rows), x);
    assert forall i :: 0 <= i < n ==> rows[..n][i] == rows[i];
    FilterAscends(rows[..n], (f: Funding.Funding) => f.timestamp >= x - 90 * Funding.EIGHT_HOURS);
  }

  /**
   A score context exists exactly when funding was observed in the last eight hours and metrics in the last ten minutes of
   now and of an hour ago, all of it usable; and it shows those observations.
   */
  lemma ScoreMeans(archive: Archive, rows: seq<Funding.Funding>, x: int)
    requires Funding.Ascending(rows)
    ensures var o, now, before := Funding.AtOrBefore(Some(rows), x), Derivatives.AtOrBefore(archive, x),
                                  Derivatives.AtOrBefore(archive, x - 3_600_000);
            var score := ScoreAt(archive, Some(rows), x);
            && (score.Some? <==> o.Some? && now.Some? && before.Some? && Usable(o.value, now.value, before.value, x))
            && (score.Some? ==> ContextShows(score.value, o.value, now.value, before.value))
  {
    hide Funding.AtOrBefore, Derivatives.AtOrBefore, ContextOf, Usable, ContextShows, Archived;
    FundingLookupExactly(rows, x);
    MetricsLookupExactly(archive, x);
    MetricsLookupExactly(archive, x - 3_600_000);
    var o, now, before := Funding.AtOrBefore(Some(rows), x), Derivatives.AtOrBefore(archive, x), Derivatives.AtOrBefore(archive, x - 3_600_000);
    if o.Some? && now.Some? && before.Some? {
      HistoryAscends(rows, x);
      ContextMeans(o.value, now.value, before.value, x);
      UsableParts(o.value, now.value, before.value, x);
    }
  }

  lemma UsableParts(o: Funding.Observation, now: Metrics, before: Metrics, x: int)
    ensures Usable(o, now, before, x) ==>
              && |o.history| > 0 && now.row.openInterest.Some? && before.row.openInterest.Some? && before.row.openInterest.value > 0.0
              && now.row.takerRatio.Some? && now.row.topTraderRatio.Some?
  {
  }
}
