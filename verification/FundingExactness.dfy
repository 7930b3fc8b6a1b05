/** Which funding history the class fetches, trusts and accepts, row by row (scripts/historical_backtest.py, HistoricalFunding._rows). */
module FundingExactness {
  import opened Common
  import opened Candles
  import opened Funding

  // ----- parsing -----

  /** The observation a usable row stands for: a positive time, a rate, and no mark price or a positive one. */
  ghost predicate StandsFor(row: Raw, start: int, f: Funding) {
    && row.time == Some(f.timestamp) && f.timestamp > 0 && row.rate == Some(f.rate)
    && (match row.mark
        case NoMark => f.mark == None
        case BadMark => false
        case MarkPrice(p) => p > 0.0 && f.mark == Some(p))
    && f.source == if row.source.Some? then row.source.value else start
  }

  lemma NormalizeMeans(row: Raw, start: int, f: Funding)
    ensures Normalize(row, start) == Some(f) <==> StandsFor(row, start, f)
  {
  }

  ghost predicate Usable(row: Raw, start: int) { exists f :: StandsFor(row, start, f) }

  /** Some row stands for the observation. */
  ghost predicate Observed(rows: seq<Raw>, start: int, f: Funding) { exists r :: r in rows && StandsFor(r, start, f) }

  /** Every row is usable, and rows of one time stand for one observation. */
  ghost predicate Readable(rows: seq<Raw>, start: int) {
    && (forall r :: r in rows ==> Usable(r, start))
    && forall f, g :: Observed(rows, start, f) && Observed(rows, start, g) && f.timestamp == g.timestamp ==> f == g
  }

  ghost predicate Listed(seen: seq<Funding>, rows: seq<Raw>, start: int) {
    && (forall f :: f in seen <==> Observed(rows, start, f))
    && forall i, j :: 0 <= i < j < |seen| ==> seen[i].timestamp != seen[j].timestamp
  }

  lemma {:induction false} FindMeans(rows: seq<Funding>, timestamp: int)
    ensures Find(rows, timestamp).None? <==> forall f :: f in rows ==> f.timestamp != timestamp
    ensures Find(rows, timestamp).Some? ==> Find(rows, timestamp).value in rows && Find(rows, timestamp).value.timestamp == timestamp
  {
    if rows != [] {
      FindMeans(rows[..|rows| - 1], timestamp);
      assert rows == rows[..|rows| - 1] + [rows[|rows| - 1]];
    }
  }

  /** What one more row adds to the observations. */
  lemma ObservedSnoc(rows: seq<Raw>, start: int, f: Funding)
    requires rows != []
    ensures Observed(rows, start, f) <==> Observed(rows[..|rows| - 1], start, f) || StandsFor(rows[|rows| - 1], start, f)
  {
    hide StandsFor;
    assert forall r :: r in rows <==> r in rows[..|rows| - 1] || r == rows[|rows| - 1];
  }

  lemma OneMoreRow(rows: seq<Raw>, start: int)
    requires rows != [] && Readable(rows, start)
    ensures Readable(rows[..|rows| - 1], start)
  {
    hide Observed, Usable;
    assert forall r :: r in rows[..|rows| - 1] ==> r in rows;
    forall f | Observed(rows[..|rows| - 1], start, f) ensures Observed(rows, start, f) {
      ObservedSnoc(rows, start, f);
    }
  }

  lemma {:induction false} SeenMeans(rows: seq<Raw>, start: int)
    ensures Seen(rows, start).Some? <==> Readable(rows, start)
    ensures Seen(rows, start).Some? ==> Listed(Seen(rows, start).value, rows, start)
  {
    hide StandsFor, Readable, Listed, Normalize, Find;
    if rows == [] {
      NothingRead(start);
    } else {
      var n := |rows| - 1;
      SeenMeans(rows[..n], start);
      if Readable(rows, start) { OneMoreRow(rows, start); }
      if Seen(rows[..n], start).Some? { SeenStep(rows, start, Seen(rows[..n], start).value); }
    }
  }

  lemma NothingRead(start: int)
    ensures Readable([], start) && Listed([], [], start)
  {
  }

  /** One more row is accepted exactly when it is usable and repeats, if anything, exactly what was seen of its time. */
  lemma SeenStep(rows: seq<Raw>, start: int, before: seq<Funding>)
    requires rows != [] && Seen(rows[..|rows| - 1], start) == Some(before)
    requires Readable(rows[..|rows| - 1], start) && Listed(before, rows[..|rows| - 1], start)
    ensures Seen(rows, start).Some? <==> Readable(rows, start)
    ensures Seen(rows, start).Some? ==> Listed(Seen(rows, start).value, rows, start)
  {
    hide StandsFor, Readable, Listed, Normalize, Find;
    var n := |rows| - 1;
    var row := rows[n];
    if Normalize(row, start).None? {
      Unusable(rows, start, row);
    } else {
      var f := Normalize(row, start).value;
      NormalizeMeans(row, start, f);
      FindMeans(before, f.timestamp);
      if Find(before, f.timestamp).None? {
        NewTime(rows, start, before, f);
      } else if Find(before, f.timestamp).value == f {
        KnownTime(rows, start, before, f);
      } else {
        Contradiction(rows, start, before, Find(before, f.timestamp).value, f);
      }
    }
  }

  lemma Unusable(rows: seq<Raw>, start: int, row: Raw)
    requires row in rows && Normalize(row, start).None?
    ensures !Readable(rows, start)
  {
    hide StandsFor, Normalize, Observed;
    if Usable(row, start) {
      var f :| StandsFor(row, start, f);
      NormalizeMeans(row, start, f);
    }
  }

  lemma OnlyMeaning(row: Raw, start: int, f: Funding, g: Funding)
    requires StandsFor(row, start, f) && StandsFor(row, start, g)
    ensures f == g
  {
  }

  lemma LastIsOnly(rows: seq<Raw>, start: int, f: Funding)
    requires rows != [] && StandsFor(rows[|rows| - 1], start, f)
    ensures forall g :: Observed(rows, start, g) <==> Observed(rows[..|rows| - 1], start, g) || g == f
    ensures (forall r :: r in rows[..|rows| - 1] ==> Usable(r, start)) ==> forall r :: r in rows ==> Usable(r, start)
  {
    hide StandsFor, Observed;
    forall g ensures Observed(rows, start, g) <==> Observed(rows[..|rows| - 1], start, g) || g == f {
      ObservedSnoc(rows, start, g);
      if StandsFor(rows[|rows| - 1], start, g) { OnlyMeaning(rows[|rows| - 1], start, f, g); }
    }
    assert forall r :: r in rows <==> r in rows[..|rows| - 1] || r == rows[|rows| - 1];
  }

  lemma NewTime(rows: seq<Raw>, start: int, before: seq<Funding>, f: Funding)
    requires rows != [] && Readable(rows[..|rows| - 1], start) && Listed(before, rows[..|rows| - 1], start)
    requires StandsFor(rows[|rows| - 1], start, f) && forall g :: g in before ==> g.timestamp != f.timestamp
    ensures Readable(rows, start) && Listed(before + [f], rows, start)
  {
    hide StandsFor, Observed, Usable;
    LastIsOnly(rows, start, f);
    assert forall g :: g in before + [f] <==> g in before || g == f;
    forall i | 0 <= i < |before| ensures before[i].timestamp != f.timestamp {
      assert before[i] in before;
    }
  }

  lemma KnownTime(rows: seq<Raw>, start: int, before: seq<Funding>, f: Funding)
    requires rows != [] && Readable(rows[..|rows| - 1], start) && Listed(before, rows[..|rows| - 1], start)
    requires StandsFor(rows[|rows| - 1], start, f) && f in before
    ensures Readable(rows, start) && Listed(before, rows, start)
  {
    hide StandsFor, Observed, Usable;
    LastIsOnly(rows, start, f);
  }

  lemma Contradiction(rows: seq<Raw>, start: int, before: seq<Funding>, g: Funding, f: Funding)
    requires rows != [] && Listed(before, rows[..|rows| - 1], start) && StandsFor(rows[|rows| - 1], start, f)
    requires g in before && g.timestamp == f.timestamp && g != f
    ensures !Readable(rows, start)
  {
    hide StandsFor, Observed, Usable;
    LastIsOnly(rows, start, f);
  }

  /**
   Rows parse exactly when there are some, each is usable, and rows of one time agree; and then to the observations they
   stand for, each time once, in increasing order.
   */
  lemma ParsedExactly(rows: seq<Raw>, start: int)
    ensures Parsed(rows, start).Some? <==> rows != [] && Readable(rows, start)
    ensures Parsed(rows, start).Some? ==>
              var parsed := Parsed(rows, start).value;
              && (forall f :: f in parsed <==> Observed(rows, start, f))
              && forall i, j :: 0 <= i < j < |parsed| ==> parsed[i].timestamp < parsed[j].timestamp
  {
    hide StandsFor, Seen, Readable, SortBy;
    SeenMeans(rows, start);
    if Readable(rows, start) {
      var seen := Seen(rows, start).value;
      if rows != [] { SomethingRead(rows, start, seen); } else { NothingSeen(start); }
      SortBySpec(seen, TimestampLe);
      var sorted := SortBy(seen, TimestampLe);
      StrictlySorted(seen, sorted);
      assert forall f :: f in sorted <==> f in multiset(sorted);
      assert forall f :: f in seen <==> f in multiset(seen);
    }
  }

  lemma SomethingRead(rows: seq<Raw>, start: int, seen: seq<Funding>)
    requires rows != [] && Readable(rows, start) && Listed(seen, rows, start)
    ensures seen != []
  {
    hide StandsFor;
    assert rows[0] in rows && Usable(rows[0], start);
    var f :| StandsFor(rows[0], start, f);
    assert Observed(rows, start, f) && f in seen;
  }

  lemma NothingSeen(start: int)
    ensures Seen([], start) == Some([])
  {
  }

  lemma StrictlySorted(seen: seq<Funding>, sorted: seq<Funding>)
    requires multiset(seen) == multiset(sorted) && Sorted(sorted, TimestampLe)
    requires forall i, j :: 0 <= i < j < |seen| ==> seen[i].timestamp != seen[j].timestamp
    ensures forall i, j :: 0 <= i < j < |sorted| ==> sorted[i].timestamp < sorted[j].timestamp
  {
    forall i, j | 0 <= i < j < |sorted| ensures sorted[i].timestamp < sorted[j].timestamp {
      assert TimestampLe(sorted[i], sorted[j]);
      if sorted[i].timestamp == sorted[j].timestamp {
        assert sorted[i] in multiset(seen) && sorted[j] in multiset(seen);
        var k :| 0 <= k < |seen| && seen[k] == sorted[i];
        var l :| 0 <= l < |seen| && seen[l] == sorted[j];
        assert k == l;
        TwoPlaces(sorted, i, j);
        OnePlace(seen, k);
      }
    }
  }

  lemma TwoPlaces(s: seq<Funding>, i: nat, j: nat)
    requires i < j < |s|
    ensures s[i] == s[j] ==> multiset(s)[s[i]] >= 2
  {
    assert s == s[..i] + [s[i]] + s[i + 1..];
    assert multiset(s) == multiset(s[..i]) + multiset{s[i]} + multiset(s[i + 1..]);
    assert s[i + 1..][j - i - 1] == s[j] && s[j] in s[i + 1..];
  }

  lemma OnePlace(s: seq<Funding>, k: nat)
    requires k < |s| && forall a, b :: 0 <= a < b < |s| ==> s[a].timestamp != s[b].timestamp
    ensures multiset(s)[s[k]] == 1
  {
    assert s == s[..k] + [s[k]] + s[k + 1..];
    assert multiset(s) == multiset(s[..k]) + multiset{s[k]} + multiset(s[k + 1..]);
    assert s[k] !in s[..k] && s[k] !in s[k + 1..];
  }

  // ----- paging -----

  /** The latest time of a page whose rows all have one. */
  ghost predicate LatestOf(page: seq<Raw>, latest: int) {
    && (forall r :: r in page ==> r.time.Some? && r.time.value <= latest) && exists r :: r in page && r.time == Some(latest)
  }

  lemma {:induction false} LatestMeans(page: seq<Raw>, default: int, latest: int)
    requires page != [] && Timed(page)
    ensures LastTime(page, default) == latest <==> LatestOf(page, latest)
  {
    var n := |page| - 1;
    assert page[n] in page;
    assert forall r :: r in page <==> r in page[..n] || r == page[n];
    if n > 0 { LatestMeans(page[..n], default, LastTime(page[..n], default)); }
  }

  /** The pages a walk from the cursor receives: full ones, each from after the latest time before, and a last shorter or empty one or the end. */
  ghost predicate Receives(fetch: Fetch, symbol: string, cursor: int, end: int, pages: seq<seq<Raw>>)
    decreases |pages|
  {
    if pages == [] then cursor > end || fetch(symbol, cursor, end) == Page([])
    else
      && cursor <= end && fetch(symbol, cursor, end) == Page(pages[0]) && pages[0] != []
      && exists latest: int :: LatestOf(pages[0], latest) && latest >= cursor
           && (if |pages[0]| < 1000 then |pages| == 1 else Receives(fetch, symbol, latest + 1, end, pages[1..]))
  }

  /** Their rows in order, each marked with the cursor of its request. */
  ghost predicate Gathers(cursor: int, pages: seq<seq<Raw>>, rows: seq<Raw>)
    decreases |pages|
  {
    if pages == [] then rows == []
    else
      && |rows| >= |pages[0]|
      && (forall i :: 0 <= i < |pages[0]| ==> rows[i] == pages[0][i].(source := Some(cursor)))
      && exists latest: int :: LatestOf(pages[0], latest) && Gathers(latest + 1, pages[1..], rows[|pages[0]|..])
  }

  lemma LatestIsTimed(page: seq<Raw>, latest: int)
    requires LatestOf(page, latest)
    ensures Timed(page) && page != []
  {
  }

  /** Paging succeeds with what it receives: any failure, malformed page or page that does not advance fails it. */
  lemma {:induction false} PagedOnlyReceives(fetch: Fetch, symbol: string, cursor: int, end: int, rows: seq<Raw>)
    returns (pages: seq<seq<Raw>>, gathered: seq<Raw>)
    requires Paged(fetch, symbol, cursor, end, rows).Some?
    ensures Receives(fetch, symbol, cursor, end, pages) && Gathers(cursor, pages, gathered)
    ensures Paged(fetch, symbol, cursor, end, rows).value == rows + gathered
    decreases end - cursor
  {
    hide Timed, LastTime, LatestOf;
    pages, gathered := [], [];
    if cursor > end || fetch(symbol, cursor, end) == Page([]) {
      assert rows + [] == rows;
    } else {
      var page := fetch(symbol, cursor, end).rows;
      var last := LastTime(page, cursor);
      LatestMeans(page, cursor, last);
      if |page| < 1000 {
        pages, gathered := [page], Sourced(page, cursor);
        LastPage(fetch, symbol, cursor, end, page, last);
      } else {
        var later, more := PagedOnlyReceives(fetch, symbol, last + 1, end, rows + Sourced(page, cursor));
        pages, gathered := [page] + later, Sourced(page, cursor) + more;
        FullPage(fetch, symbol, cursor, end, page, last, later, more);
        assert rows + Sourced(page, cursor) + more == rows + gathered;
      }
    }
  }

  lemma LastPage(fetch: Fetch, symbol: string, cursor: int, end: int, page: seq<Raw>, latest: int)
    requires cursor <= end && fetch(symbol, cursor, end) == Page(page) && page != [] && |page| < 1000
    requires LatestOf(page, latest) && latest >= cursor
    ensures Receives(fetch, symbol, cursor, end, [page]) && Gathers(cursor, [page], Sourced(page, cursor))
  {
    hide LatestOf;
    assert Gathers(latest + 1, [page][1..], Sourced(page, cursor)[|page|..]);
  }

  lemma FullPage(
    fetch: Fetch, symbol: string, cursor: int, end: int, page: seq<Raw>, latest: int, later: seq<seq<Raw>>, more: seq<Raw>)
    requires cursor <= end && fetch(symbol, cursor, end) == Page(page) && |page| >= 1000
    requires LatestOf(page, latest) && latest >= cursor
    requires Receives(fetch, symbol, latest + 1, end, later) && Gathers(latest + 1, later, more)
    ensures Receives(fetch, symbol, cursor, end, [page] + later) && Gathers(cursor, [page] + later, Sourced(page, cursor) + more)
  {
    hide LatestOf;
    assert ([page] + later)[1..] == later;
    assert (Sourced(page, cursor) + more)[|page|..] == more;
  }

  /** And it does succeed with every such walk. */
  lemma {:induction false} ReceivedIsPaged(
    fetch: Fetch, symbol: string, cursor: int, end: int, rows: seq<Raw>, pages: seq<seq<Raw>>)
    requires Receives(fetch, symbol, cursor, end, pages)
    ensures Paged(fetch, symbol, cursor, end, rows).Some?
    decreases |pages|
  {
    hide Timed, LastTime, LatestOf;
    if pages != [] {
      var page := pages[0];
      var latest: int :| LatestOf(page, latest) && latest >= cursor
                         && (if |page| < 1000 then |pages| == 1 else Receives(fetch, symbol, latest + 1, end, pages[1..]));
      LatestIsTimed(page, latest);
      LatestMeans(page, cursor, latest);
      if |page| >= 1000 { ReceivedIsPaged(fetch, symbol, latest + 1, end, rows + Sourced(page, cursor), pages[1..]); }
    }
  }

  // ----- the cache -----

  ghost function RowsIn(file: Option<CacheFile>): seq<Raw> {
    if file.Some? && file.value.Legacy? then file.value.rows
    else if file.Some? && file.value.Versioned? && file.value.listed.Some? then file.value.listed.value
    else []
  }

  /** A file is trusted without asking when it lists rows requested from this very start and covering at least the end. */
  ghost predicate Trusted(file: Option<CacheFile>, start: int, end: int) {
    && file.Some? && file.value.Versioned? && file.value.listed.Some?
    && file.value.requestedStart == Some(start) && file.value.coverageEnd.Some? && file.value.coverageEnd.value >= end
  }

  /** The first time to ask for: the start, or just after the latest cached row. */
  ghost predicate Resumes(rows: seq<Raw>, start: int, cursor: int) {
    && cursor >= start && (forall r :: r in rows ==> r.time.Some? && r.time.value < cursor)
    && (cursor > start ==> exists r :: r in rows && r.time == Some(cursor - 1))
  }

  lemma CursorMeans(rows: seq<Raw>, start: int)
    requires Timed(rows)
    ensures Resumes(rows, start, FirstCursor(rows, start))
  {
    if rows != [] { LatestMeans(rows, start - 1, LastTime(rows, start - 1)); }
  }

  lemma CacheMeans(file: Option<CacheFile>, start: int, end: int)
    ensures CachedRows(file) == RowsIn(file) && (CoverageComplete(file, start, end) <==> Trusted(file, start, end))
  {
  }

  /**
   The history of a symbol: none over an empty range, else ninety eight-hour intervals before it to its end, parsed from the
   cached rows when they are trusted and from them and what paging receives otherwise; none when a cached row has no time.
   */
  lemma HistoryMeans(range: Range, file: Option<CacheFile>, fetch: Fetch, symbol: string) returns (cursor: int)
    ensures (forall r :: r in RowsIn(file) ==> r.time.Some?) && range.start.Some? ==>
              Resumes(RowsIn(file), range.start.value - 2_592_000_000, cursor)
    ensures History(range, file, fetch, symbol) ==
            if range.start.None? || range.end.None? || range.start.value >= range.end.value then None
            else
              var start, end := range.start.value - 2_592_000_000, range.end.value;
              if exists r :: r in RowsIn(file) && r.time.None? then None
              else if Trusted(file, start, end) then Parsed(RowsIn(file), start)
              else
                var rows := Paged(fetch, symbol, cursor, end, RowsIn(file));
                if rows.None? then None else Parsed(rows.value, start)
  {
    hide Paged, Parsed, LastTime;
    cursor := 0;
    if range.start.Some? && range.end.Some? {
      var start, end := range.start.value - 2_592_000_000, range.end.value;
      assert HistoryStart(range) == start;
      CacheMeans(file, start, end);
      cursor := FirstCursor(RowsIn(file), start);
      if Timed(RowsIn(file)) { CursorMeans(RowsIn(file), start); }
      hide Trusted, CoverageComplete, Resumes, FirstCursor, CachedRows, RowsIn;
    } else if range.start.Some? && Timed(RowsIn(file)) {
      cursor := FirstCursor(RowsIn(file), range.start.value - 2_592_000_000);
      CursorMeans(RowsIn(file), range.start.value - 2_592_000_000);
    }
  }
}
