/**
 Funding history with a resumable page cache (scripts/historical_backtest.py, class HistoricalFunding).

 The remote endpoint is a function from a page request to a response, so failures and malformed pages are
 ordinary values. A page URL differs from another only in its start time, which is what `source` records.
 */
module Funding {
  import opened Common
  import opened Candles

  const EIGHT_HOURS: int := 8 * 3_600_000
  const PAGE_LIMIT: int := 1000

  datatype Mark = NoMark | BadMark | MarkPrice(price: real)

  /** A raw row: None where the field is missing or unusable. */
  datatype Raw = Raw(time: Option<int>, rate: Option<real>, mark: Mark, source: Option<int>)

  datatype Funding = Funding(timestamp: int, rate: real, mark: Option<real>, source: int)

  datatype Response = Failure | NotAList | Page(rows: seq<Raw>)

  type Fetch = (string, int, int) -> Response

  datatype CacheFile =
    | Unreadable
    | Legacy(rows: seq<Raw>)
    | Versioned(listed: Option<seq<Raw>>, requestedStart: Option<int>, coverageEnd: Option<int>)

  function CachedRows(file: Option<CacheFile>): seq<Raw> {
    match file
    case Some(Legacy(rows)) => rows
    case Some(Versioned(Some(rows), _, _)) => rows
    case _ => []
  }

  predicate CoverageComplete(file: Option<CacheFile>, start: int, end: int) {
    match file
    case Some(Versioned(Some(_), requested, coverage)) =>
      requested == Some(start) && coverage.Some? && coverage.value >= end
    case _ => false
  }

  // ----- paging -----

  predicate Timed(rows: seq<Raw>) { forall r :: r in rows ==> r.time.Some? }

  /** max(timestamps, default=...) */
  function LastTime(rows: seq<Raw>, default: int): int {
    if rows == [] then default
    else
      var n := |rows| - 1;
      var earlier := LastTime(rows[..n], default);
      var t := rows[n].time.GetOr(default);
      if n == 0 || t > earlier then t else earlier
  }

  function Sourced(page: seq<Raw>, cursor: int): (r: seq<Raw>)
    ensures |r| == |page|
  {
    seq(|page|, i requires 0 <= i < |page| => page[i].(source := Some(cursor)))
  }

  /** The page loop; None as soon as a page is missing, malformed or does not advance. */
  function Paged(fetch: Fetch, symbol: string, cursor: int, end: int, rows: seq<Raw>): Option<seq<Raw>>
    decreases end - cursor
  {
    if cursor > end then Some(rows)
    else
      match fetch(symbol, cursor, end)
      case Failure => None
      case NotAList => None
      case Page(page) =>
        if page == [] then Some(rows)
        else if !Timed(page) then None
        else
          var last := LastTime(page, cursor);
          if last < cursor then None
          else if |page| < PAGE_LIMIT then Some(rows + Sourced(page, cursor))
          else Paged(fetch, symbol, last + 1, end, rows + Sourced(page, cursor))
  }

  function FirstCursor(rows: seq<Raw>, start: int): int {
    var next := LastTime(rows, start - 1) + 1;
    if next > start then next else start
  }

  /** Cached rows completed by paging. */
  function Completed(file: Option<CacheFile>, fetch: Fetch, symbol: string, start: int, end: int): Option<seq<Raw>> {
    var rows := CachedRows(file);
    if !Timed(rows) then None
    else if CoverageComplete(file, start, end) then Some(rows)
    else Paged(fetch, symbol, FirstCursor(rows, start), end, rows)
  }

  // ----- parsing -----

  function Normalize(row: Raw, start: int): Option<Funding> {
    if row.time.None? || row.rate.None? || row.time.value <= 0 then None
    else
      match row.mark
      case BadMark => None
      case NoMark => Some(Funding(row.time.value, row.rate.value, None, row.source.GetOr(start)))
      case MarkPrice(p) => if p <= 0.0 then None else Some(Funding(row.time.value, row.rate.value, Some(p), row.source.GetOr(start)))
  }

  function Find(rows: seq<Funding>, timestamp: int): Option<Funding> {
    if rows == [] then None
    else if rows[|rows| - 1].timestamp == timestamp then Some(rows[|rows| - 1])
    else Find(rows[..|rows| - 1], timestamp)
  }

  /** The dictionary of seen rows in insertion order; None on a malformed row or two different rows of one time. */
  function Seen(rows: seq<Raw>, start: int): Option<seq<Funding>> {
    if rows == [] then Some([])
    else
      var n := |rows| - 1;
      var before := Seen(rows[..n], start);
      var row := Normalize(rows[n], start);
      if before.None? || row.None? then None
      else
        match Find(before.value, row.value.timestamp)
        case None => Some(before.value + [row.value])
        case Some(previous) => if previous == row.value then before else None
  }

  predicate TimestampLe(a: Funding, b: Funding) { a.timestamp <= b.timestamp }

  /** An empty history is None, exactly as an unavailable one. */
  function Parsed(rows: seq<Raw>, start: int): Option<seq<Funding>> {
    var seen := Seen(rows, start);
    if seen.None? || seen.value == [] then None else Some(SortBy(seen.value, TimestampLe))
  }

  datatype Range = Range(start: Option<int>, end: Option<int>)

  function HistoryStart(range: Range): int
    requires range.start.Some?
  {
    range.start.value - 90 * EIGHT_HOURS
  }

  predicate Usable(range: Range) { range.start.Some? && range.end.Some? && range.start.value < range.end.value }

  /** What a first request for a symbol answers, given its cache file and the endpoint. */
  function History(range: Range, file: Option<CacheFile>, fetch: Fetch, symbol: string): Option<seq<Funding>> {
    if !Usable(range) then None
    else
      var start, end := HistoryStart(range), range.end.value;
      var rows := Completed(file, fetch, symbol, start, end);
      if rows.None? then None else Parsed(rows.value, start)
  }

  class HistoricalFunding {
    const range: Range
    var symbols: map<string, Option<seq<Funding>>>
    var files: map<string, CacheFile>

    constructor (range: Range, files: map<string, CacheFile>)
      ensures this.range == range && this.files == files && symbols == map[]
    {
      this.range := range;
      this.files := files;
      symbols := map[];
    }

    ghost function FileOf(symbol: string): Option<CacheFile>
      reads this
    {
      if symbol in files then Some(files[symbol]) else None
    }

    /** One network history per symbol; later requests answer from memory whatever the endpoint says by then. */
    method Rows(symbol: string, fetch: Fetch) returns (result: Option<seq<Funding>>)
      modifies this
      ensures result == if symbol in old(symbols) then old(symbols)[symbol] else History(range, old(FileOf(symbol)), fetch, symbol)
      ensures symbols == old(symbols)[symbol := result]
      ensures forall s :: s != symbol ==> FileOf(s) == old(FileOf(s))
      ensures files != old(files) ==>
        && Usable(range) && symbol in files
        && files[symbol].Versioned? && CoverageComplete(Some(files[symbol]), HistoryStart(range), range.end.value)
        && files[symbol].listed == Completed(old(FileOf(symbol)), fetch, symbol, HistoryStart(range), range.end.value)
    {
      if symbol in symbols {
        return symbols[symbol];
      }
      if range.start.None? || range.end.None? || range.start.value >= range.end.value {
        symbols := symbols[symbol := None];
        return None;
      }
      var start, end := HistoryStart(range), range.end.value;
      var file := if symbol in files then Some(files[symbol]) else None;
      var rows := CachedRows(file);
      if !Timed(rows) {
        symbols := symbols[symbol := None];
        return None;
      }
      if !CoverageComplete(file, start, end) {
        var completed := FetchPages(symbol, fetch, FirstCursor(rows, start), end, rows);
        if completed.None? {
          symbols := symbols[symbol := None];
          return None;
        }
        rows := completed.value;
        files := files[symbol := Versioned(Some(rows), Some(start), Some(end))];
      }
      result := ParseRows(rows, start);
      symbols := symbols[symbol := result];
    }
  }

  method FetchPages(symbol: string, fetch: Fetch, first: int, end: int, cached: seq<Raw>) returns (result: Option<seq<Raw>>)
    ensures result == Paged(fetch, symbol, first, end, cached)
  {
    var rows, cursor := cached, first;
    while cursor <= end
      invariant Paged(fetch, symbol, first, end, cached) == Paged(fetch, symbol, cursor, end, rows)
      decreases end - cursor
    {
      var response := fetch(symbol, cursor, end);
      if !response.Page? {
        return None;
      }
      var page := response.rows;
      if page == [] {
        return Some(rows);
      }
      if !Timed(page) {
        return None;
      }
      var last := LastTime(page, cursor);
      if last < cursor {
        return None;
      }
      rows := rows + Sourced(page, cursor);
      if |page| < PAGE_LIMIT {
        return Some(rows);
      }
      cursor := last + 1;
    }
    return Some(rows);
  }

  method ParseRows(rows: seq<Raw>, start: int) returns (result: Option<seq<Funding>>)
    ensures result == Parsed(rows, start)
  {
    var seen: seq<Funding> := [];
    for k := 0 to |rows|
      invariant Seen(rows[..k], start) == Some(seen)
    {
      assert rows[..k + 1][..k] == rows[..k];
      var row := Normalize(rows[k], start);
      if row.None? {
        SeenFails(rows, k + 1, start);
        return None;
      }
      var previous := Find(seen, row.value.timestamp);
      if previous.Some? && previous.value != row.value {
        SeenFails(rows, k + 1, start);
        return None;
      }
      if previous.None? {
        seen := seen + [row.value];
      }
    }
    assert rows[..|rows|] == rows;
    if seen == [] {
      return None;
    }
    return Some(SortBy(seen, TimestampLe));
  }

  lemma {:induction false} SeenFails(rows: seq<Raw>, k: nat, start: int)
    requires k <= |rows| && Seen(rows[..k], start) == None
    ensures Seen(rows, start) == None
    decreases |rows| - k
  {
    if k == |rows| {
      assert rows[..k] == rows;
    } else {
      assert rows[..k + 1][..k] == rows[..k];
      SeenFails(rows, k + 1, start);
    }
  }

  // ----- paging is complete -----

  /** Events an honest endpoint holds: usable, at positive and strictly increasing times. */
  ghost predicate GoodEvents(events: seq<Raw>) {
    && (forall i :: 0 <= i < |events| ==>
          events[i].time.Some? && events[i].time.value > 0 && events[i].rate.Some?
          && !events[i].mark.BadMark? && (events[i].mark.MarkPrice? ==> events[i].mark.price > 0.0))
    && (forall i, j :: 0 <= i < j < |events| ==> events[i].time.value < events[j].time.value)
  }

  predicate InRange(row: Raw, low: int, high: int) { row.time.Some? && low <= row.time.value <= high }

  function EventsIn(events: seq<Raw>, low: int, high: int): seq<Raw> {
    Filter(events, (r: Raw) => InRange(r, low, high))
  }

  function FirstPage(events: seq<Raw>): seq<Raw> {
    if |events| <= PAGE_LIMIT then events else events[..PAGE_LIMIT]
  }

  /** Answers every request with the first page of the events in the requested range, in order. */
  ghost predicate Honest(fetch: Fetch, symbol: string, events: seq<Raw>, end: int) {
    forall cursor :: fetch(symbol, cursor, end) == Page(FirstPage(EventsIn(events, cursor, end)))
  }

  /** Two rows describe the same event, whichever page they came from. */
  predicate SameEvent(a: Raw, b: Raw) { a.(source := b.source) == b }

  ghost predicate SameEvents(a: seq<Raw>, b: seq<Raw>) {
    |a| == |b| && forall i :: 0 <= i < |a| ==> SameEvent(a[i], b[i])
  }

  lemma {:induction false} EventsInGood(events: seq<Raw>, low: int, high: int)
    requires GoodEvents(events)
    ensures GoodEvents(EventsIn(events, low, high))
    ensures forall r :: r in EventsIn(events, low, high) ==> r in events && InRange(r, low, high)
  {
    if events != [] {
      var n := |events| - 1;
      var init := events[..n];
      EventsInGood(init, low, high);
      var before := EventsIn(init, low, high);
      forall i | 0 <= i < |before| ensures before[i].time.value < events[n].time.value {
        assert before[i] in init;
      }
    }
  }

  /** What remains from a cursor on is a suffix of the window. */
  lemma {:induction false} RemainingEvents(window: seq<Raw>, k: nat, cursor: int, end: int)
    requires GoodEvents(window) && k <= |window|
    requires forall i :: 0 <= i < k ==> window[i].time.value < cursor
    requires forall i :: k <= i < |window| ==> cursor <= window[i].time.value <= end
    ensures EventsIn(window, cursor, end) == window[k..]
  {
    if window != [] {
      var n := |window| - 1;
      if k <= n {
        RemainingEvents(window[..n], k, cursor, end);
        assert window[k..] == window[..n][k..] + [window[n]];
      } else {
        RemainingEvents(window[..n], n, cursor, end);
      }
    }
  }

  lemma {:induction false} LastTimeOfGood(rows: seq<Raw>, events: seq<Raw>, default: int)
    requires SameEvents(rows, events) && GoodEvents(events)
    ensures LastTime(rows, default) == if rows == [] then default else events[|events| - 1].time.value
    ensures Timed(rows)
  {
    if rows != [] {
      var n := |rows| - 1;
      assert SameEvent(rows[n], events[n]);
      LastTimeOfGood(rows[..n], events[..n], default);
      forall r | r in rows ensures r.time.Some? {
        var i :| 0 <= i < |rows| && rows[i] == r;
        assert SameEvent(rows[i], events[i]);
      }
    }
  }

  ghost predicate CursorAt(window: seq<Raw>, k: nat, cursor: int, start: int)
    requires k <= |window| && GoodEvents(window)
  {
    cursor == if k == 0 then start else window[k - 1].time.value + 1
  }

  /** The page an honest endpoint returns at a cursor: the next stretch of the window, short only at its end. */
  lemma HonestPage(fetch: Fetch, symbol: string, events: seq<Raw>, start: int, end: int, k: nat, cursor: int) returns (next: nat)
    requires GoodEvents(events) && Honest(fetch, symbol, events, end)
    requires GoodEvents(EventsIn(events, start, end)) && k <= |EventsIn(events, start, end)|
    requires CursorAt(EventsIn(events, start, end), k, cursor, start)
    ensures var window := EventsIn(events, start, end);
            && k <= next <= |window|
            && fetch(symbol, cursor, end) == Page(window[k..next])
            && (next - k < PAGE_LIMIT ==> next == |window|)
            && (cursor > end ==> k == |window|)
            && (k < next ==> cursor <= window[next - 1].time.value && Timed(window[k..next])
                             && LastTime(window[k..next], cursor) == window[next - 1].time.value)
  {
    var window := EventsIn(events, start, end);
    EventsAhead(events, start, end, k, cursor);
    RestOfWindow(events, start, end, k, cursor);
    hide EventsIn, GoodEvents, Timed, LastTime;
    next := k + |FirstPage(window[k..])|;
    assert FirstPage(window[k..]) == window[k..next];
    if k < next { PageTimes(window, k, next, cursor); }
  }

  lemma EventsAhead(events: seq<Raw>, start: int, end: int, k: nat, cursor: int)
    requires GoodEvents(events)
    requires GoodEvents(EventsIn(events, start, end)) && k <= |EventsIn(events, start, end)|
    requires CursorAt(EventsIn(events, start, end), k, cursor, start)
    ensures start <= cursor
    ensures var window := EventsIn(events, start, end);
            && (forall i :: 0 <= i < k ==> window[i].time.value < cursor)
            && (forall i :: k <= i < |window| ==> cursor <= window[i].time.value <= end)
  {
    var window := EventsIn(events, start, end);
    EventsInGood(events, start, end);
    if k > 0 { assert window[k - 1] in window; }
    forall i | k <= i < |window| ensures cursor <= window[i].time.value <= end {
      assert window[i] in window;
    }
  }

  lemma RestOfWindow(events: seq<Raw>, start: int, end: int, k: nat, cursor: int)
    requires GoodEvents(events)
    requires GoodEvents(EventsIn(events, start, end)) && k <= |EventsIn(events, start, end)|
    requires CursorAt(EventsIn(events, start, end), k, cursor, start)
    ensures EventsIn(events, cursor, end) == EventsIn(events, start, end)[k..]
  {
    EventsAhead(events, start, end, k, cursor);
    RemainingEvents(EventsIn(events, start, end), k, cursor, end);
    hide GoodEvents, CursorAt;
    FilterFilter(events, (r: Raw) => InRange(r, start, end), (r: Raw) => InRange(r, cursor, end), (r: Raw) => InRange(r, cursor, end));
  }

  lemma PageTimes(window: seq<Raw>, k: nat, next: nat, cursor: int)
    requires GoodEvents(window) && k < next <= |window|
    ensures Timed(window[k..next]) && LastTime(window[k..next], cursor) == window[next - 1].time.value
  {
    var page := window[k..next];
    LastTimeOfGood(page, page, cursor);
  }

  lemma PageExtends(rows: seq<Raw>, window: seq<Raw>, k: nat, next: nat, cursor: int)
    requires k <= next <= |window| && SameEvents(rows, window[..k])
    ensures SameEvents(rows + Sourced(window[k..next], cursor), window[..next])
  {
  }

  /** From any complete prefix the loop fetches exactly the rest of the window. */
  lemma {:induction false} PagesComplete(
    fetch: Fetch, symbol: string, events: seq<Raw>, start: int, end: int, k: nat, cursor: int, rows: seq<Raw>)
    requires GoodEvents(events) && Honest(fetch, symbol, events, end)
    requires GoodEvents(EventsIn(events, start, end)) && k <= |EventsIn(events, start, end)|
    requires CursorAt(EventsIn(events, start, end), k, cursor, start)
    requires SameEvents(rows, EventsIn(events, start, end)[..k])
    ensures var result := Paged(fetch, symbol, cursor, end, rows);
            result.Some? && SameEvents(result.value, EventsIn(events, start, end))
    decreases end - cursor
  {
    hide Honest, SameEvents, EventsIn, Timed, LastTime, Sourced;
    var window := EventsIn(events, start, end);
    var next := HonestPage(fetch, symbol, events, start, end, k, cursor);
    assert window[..|window|] == window;
    if next > k && cursor <= end {
      PageExtends(rows, window, k, next, cursor);
      if next - k >= PAGE_LIMIT {
        PagesComplete(fetch, symbol, events, start, end, next, window[next - 1].time.value + 1, rows + Sourced(window[k..next], cursor));
      }
    }
  }

  predicate Describes(f: Funding, row: Raw) {
    && row.time == Some(f.timestamp) && row.rate == Some(f.rate)
    && f.mark == (if row.mark.MarkPrice? then Some(row.mark.price) else None)
  }

  lemma {:induction false} FindAbsent(rows: seq<Funding>, timestamp: int)
    requires forall f :: f in rows ==> f.timestamp != timestamp
    ensures Find(rows, timestamp) == None
  {
    if rows != [] {
      assert rows[|rows| - 1] in rows;
      assert forall f :: f in rows[..|rows| - 1] ==> f in rows;
      FindAbsent(rows[..|rows| - 1], timestamp);
    }
  }

  lemma {:induction false} SeenGood(rows: seq<Raw>, events: seq<Raw>, start: int)
    requires SameEvents(rows, events) && GoodEvents(events)
    ensures var seen := Seen(rows, start);
            && seen.Some? && |seen.value| == |events|
            && (forall i :: 0 <= i < |events| ==> Describes(seen.value[i], events[i]))
  {
    if rows != [] {
      var n := |rows| - 1;
      SeenGood(rows[..n], events[..n], start);
      assert SameEvent(rows[n], events[n]);
      var before := Seen(rows[..n], start).value;
      forall f | f in before ensures f.timestamp != events[n].time.value {
        var i :| 0 <= i < |before| && before[i] == f;
        assert Describes(before[i], events[..n][i]);
      }
      FindAbsent(before, events[n].time.value);
    }
  }

  ghost predicate CompletePrefix(file: Option<CacheFile>, window: seq<Raw>, start: int, end: int) {
    var rows := CachedRows(file);
    && |rows| <= |window| && SameEvents(rows, window[..|rows|])
    && (CoverageComplete(file, start, end) ==> |rows| == |window|)
  }

  /**
   Against an honest endpoint, and from any cached complete prefix of the window, the history is exactly the events of
   the window, in strictly increasing time order; it is None only when the window holds no event.
   */
  lemma HistoryIsComplete(range: Range, file: Option<CacheFile>, fetch: Fetch, symbol: string, events: seq<Raw>)
    requires Usable(range) && GoodEvents(events) && Honest(fetch, symbol, events, range.end.value)
    requires CompletePrefix(file, EventsIn(events, HistoryStart(range), range.end.value), HistoryStart(range), range.end.value)
    ensures var window := EventsIn(events, HistoryStart(range), range.end.value);
            var result := History(range, file, fetch, symbol);
            && (result.None? <==> window == [])
            && (result.Some? ==>
                  && |result.value| == |window|
                  && (forall i :: 0 <= i < |window| ==> Describes(result.value[i], window[i]))
                  && (forall i, j :: 0 <= i < j < |window| ==> result.value[i].timestamp < result.value[j].timestamp))
  {
    var start, end := HistoryStart(range), range.end.value;
    var window := EventsIn(events, start, end);
    EventsInGood(events, start, end);
    CompletedIsWindow(file, fetch, symbol, events, start, end);
    hide EventsIn, Completed, GoodEvents, Honest, CompletePrefix;
    ParsedWindow(Completed(file, fetch, symbol, start, end).value, window, start);
  }

  lemma CompletedIsWindow(file: Option<CacheFile>, fetch: Fetch, symbol: string, events: seq<Raw>, start: int, end: int)
    requires GoodEvents(events) && Honest(fetch, symbol, events, end)
    requires CompletePrefix(file, EventsIn(events, start, end), start, end)
    ensures var rows := Completed(file, fetch, symbol, start, end);
            rows.Some? && SameEvents(rows.value, EventsIn(events, start, end))
  {
    var window, cached := EventsIn(events, start, end), CachedRows(file);
    EventsInGood(events, start, end);
    var k := |cached|;
    CachedTimes(cached, window, start);
    if CoverageComplete(file, start, end) {
      assert window[..k] == window;
    } else {
      if k > 0 { assert window[k - 1] in window; }
      hide SameEvents, EventsIn, GoodEvents, Honest, Timed, LastTime;
      PagesComplete(fetch, symbol, events, start, end, k, FirstCursor(cached, start), cached);
    }
  }

  lemma CachedTimes(cached: seq<Raw>, window: seq<Raw>, start: int)
    requires GoodEvents(window) && |cached| <= |window| && SameEvents(cached, window[..|cached|])
    ensures Timed(cached)
    ensures LastTime(cached, start - 1) == if cached == [] then start - 1 else window[|cached| - 1].time.value
  {
    assert GoodEvents(window[..|cached|]);
    LastTimeOfGood(cached, window[..|cached|], start - 1);
  }

  lemma ParsedWindow(rows: seq<Raw>, window: seq<Raw>, start: int)
    requires GoodEvents(window) && SameEvents(rows, window)
    ensures var result := Parsed(rows, start);
            && (result.None? <==> window == [])
            && (result.Some? ==>
                  && |result.value| == |window|
                  && (forall i :: 0 <= i < |window| ==> Describes(result.value[i], window[i]))
                  && (forall i, j :: 0 <= i < j < |window| ==> result.value[i].timestamp < result.value[j].timestamp))
  {
    SeenGood(rows, window, start);
    var seen := Seen(rows, start).value;
    forall i, j | 0 <= i < j < |seen| ensures seen[i].timestamp < seen[j].timestamp {
      assert Describes(seen[i], window[i]) && Describes(seen[j], window[j]);
    }
    SortBySorted(seen, TimestampLe);
  }

  // ----- queries -----

  ghost predicate Ascending(rows: seq<Funding>) {
    forall i, j :: 0 <= i < j < |rows| ==> rows[i].timestamp < rows[j].timestamp
  }

  function Positions(rows: seq<Funding>): seq<int> { Mapped(rows, (f: Funding) => f.timestamp) }

  datatype Observation = Observation(current: Funding, history: seq<Funding>)

  /** The last observation not after the timestamp and at most eight hours old, with ninety intervals of history. */
  function AtOrBefore(rows: Option<seq<Funding>>, timestamp: int): Option<Observation> {
    if rows.None? then None
    else
      var index := BisectRight(Positions(rows.value), timestamp);
      if index == 0 then None
      else
        var current := rows.value[index - 1];
        if timestamp - current.timestamp > EIGHT_HOURS then None
        else Some(Observation(current, Filter(rows.value[..index], (f: Funding) => f.timestamp >= timestamp - 90 * EIGHT_HOURS)))
  }

  datatype WindowError = WindowEndsBeforeEntry

  /** Charges after entry and no later than exit. */
  function ChargesBetween(rows: Option<seq<Funding>>, startExclusive: int, endInclusive: int): Result<Option<seq<Funding>>, WindowError> {
    if endInclusive < startExclusive then Err(WindowEndsBeforeEntry)
    else if rows.None? then Ok(None)
    else
      BisectMonotone(Positions(rows.value), startExclusive, endInclusive);
      Ok(Some(rows.value[BisectRight(Positions(rows.value), startExclusive)..BisectRight(Positions(rows.value), endInclusive)]))
  }

  lemma {:induction false} BisectMonotone(a: seq<int>, x: int, y: int)
    requires x <= y
    ensures BisectRight(a, x) <= BisectRight(a, y)
  {
    if a != [] && a[|a| - 1] > y {
      BisectMonotone(a[..|a| - 1], x, y);
    }
  }

  /** Bisecting strictly ascending times separates them at the bound. */
  lemma BisectSeparates(rows: seq<Funding>, x: int)
    requires Ascending(rows)
    ensures forall i :: 0 <= i < |rows| ==> (i < BisectRight(Positions(rows), x) <==> rows[i].timestamp <= x)
  {
    var p := Positions(rows);
    var k: int := BisectRight(p, x);
    forall i | 0 <= i < |rows| ensures i < k <==> rows[i].timestamp <= x {
      if k > 0 { assert p[k - 1] <= x; }
      assert p[i] == rows[i].timestamp;
      assert i < k - 1 ==> rows[i].timestamp < rows[k - 1].timestamp;
    }
  }

  /** Exactly the charges strictly after the start and not after the end. */
  lemma ChargesAreThoseBetween(rows: seq<Funding>, a: int, b: int, f: Funding)
    requires Ascending(rows) && a <= b
    ensures f in ChargesBetween(Some(rows), a, b).value.value <==> f in rows && a < f.timestamp <= b
  {
    BisectSeparates(rows, a);
    BisectSeparates(rows, b);
    BisectMonotone(Positions(rows), a, b);
    var i, j := BisectRight(Positions(rows), a), BisectRight(Positions(rows), b);
    if f in rows && a < f.timestamp <= b {
      var k :| 0 <= k < |rows| && rows[k] == f;
      assert rows[i..j][k - i] == f;
    }
  }

  /** Adjacent windows join without losing or repeating a charge. */
  lemma ChargesJoin(rows: Option<seq<Funding>>, a: int, b: int, c: int)
    requires a <= b <= c
    ensures var x, y, z := ChargesBetween(rows, a, b).value, ChargesBetween(rows, b, c).value, ChargesBetween(rows, a, c).value;
            match rows
            case None => x == y == z == None
            case Some(_) => z == Some(x.value + y.value)
  {
    if rows.Some? {
      var p := Positions(rows.value);
      BisectMonotone(p, a, b);
      BisectMonotone(p, b, c);
      var i, j, k := BisectRight(p, a), BisectRight(p, b), BisectRight(p, c);
      assert rows.value[i..k] == rows.value[i..j] + rows.value[j..k];
    }
  }

  /** Observations after the timestamp change neither the current rate nor its history. */
  lemma FundingIsCausal(rows: seq<Funding>, more: seq<Funding>, timestamp: int)
    requires Ascending(rows) && forall f :: f in more ==> f.timestamp > timestamp
    ensures AtOrBefore(Some(rows + more), timestamp) == AtOrBefore(Some(rows), timestamp)
    ensures var seen := AtOrBefore(Some(rows), timestamp);
            seen.Some? ==> seen.value.current.timestamp <= timestamp && forall f :: f in seen.value.history ==> f.timestamp <= timestamp
  {
    var all := rows + more;
    BisectSeparates(rows, timestamp);
    var j := BisectRight(Positions(rows), timestamp);
    forall i | 0 <= i < |all| ensures i < j <==> all[i].timestamp <= timestamp {
      if i >= |rows| { assert all[i] == more[i - |rows|]; }
    }
    BisectIs(all, timestamp, j);
    hide Ascending;
    assert all[..j] == rows[..j];
    FilterMembers(rows[..j], (f: Funding) => f.timestamp >= timestamp - 90 * EIGHT_HOURS);
  }

  lemma BisectIs(rows: seq<Funding>, x: int, k: nat)
    requires k <= |rows| && forall i :: 0 <= i < |rows| ==> (i < k <==> rows[i].timestamp <= x)
    ensures BisectRight(Positions(rows), x) == k
  {
    var p := Positions(rows);
    var r: int := BisectRight(p, x);
    if r > 0 { assert p[r - 1] == rows[r - 1].timestamp; }
    if r < |rows| { assert p[r] == rows[r].timestamp; }
    if k < |rows| { assert p[k] == rows[k].timestamp; }
    if k > 0 { assert p[k - 1] == rows[k - 1].timestamp; }
  }

  // ----- funding cost of a short, in R -----

  datatype FundingError = InvalidInput | IncompleteEvent | NotStrictlyOrdered

  predicate CompleteEvent(f: Funding) { f.timestamp > 0 && f.mark.Some? && f.mark.value > 0.0 }

  function Charge(f: Funding, entry: real): real
    requires entry > 0.0
  {
    f.rate * f.mark.GetOr(0.0) / entry
  }

  /** The unrounded contribution; a short receives positive funding. */
  function Contribution(events: seq<Funding>, entry: real): real
    requires entry > 0.0
  {
    if events == [] then 0.0 else Contribution(events[..|events| - 1], entry) + Charge(events[|events| - 1], entry)
  }

  /** Scanned left to right, so the first defect decides the error. */
  function FirstDefect(events: seq<Funding>): Option<FundingError> {
    if events == [] then None
    else
      var n := |events| - 1;
      var earlier := FirstDefect(events[..n]);
      if earlier.Some? then earlier
      else if !CompleteEvent(events[n]) then Some(IncompleteEvent)
      else if n > 0 && events[n].timestamp <= events[n - 1].timestamp then Some(NotStrictlyOrdered)
      else None
  }

  function ShortFundingR(events: seq<Funding>, entry: real, stopPct: real): Result<real, FundingError> {
    if entry <= 0.0 || stopPct <= 0.0 then Err(InvalidInput)
    else
      match FirstDefect(events)
      case Some(e) => Err(e)
      case None => Ok(Round(Contribution(events, entry) / (stopPct / 100.0), 10000000000.0))
  }

  method HistoricalShortFundingR(events: seq<Funding>, entry: real, stopPct: real) returns (result: Result<real, FundingError>)
    ensures result == ShortFundingR(events, entry, stopPct)
  {
    hide Charge;
    if entry <= 0.0 || stopPct <= 0.0 {
      return Err(InvalidInput);
    }
    var contribution := 0.0;
    var last: Option<int> := None;
    for k := 0 to |events|
      invariant contribution == Contribution(events[..k], entry)
      invariant FirstDefect(events[..k]) == None
      invariant last == if k == 0 then None else Some(events[k - 1].timestamp)
    {
      assert events[..k + 1][..k] == events[..k];
      var event := events[k];
      if !CompleteEvent(event) {
        DefectStays(events, k + 1);
        return Err(IncompleteEvent);
      }
      if last.Some? && event.timestamp <= last.value {
        DefectStays(events, k + 1);
        return Err(NotStrictlyOrdered);
      }
      last := Some(event.timestamp);
      contribution := contribution + Charge(event, entry);
    }
    assert events[..|events|] == events;
    return Ok(Round(contribution / (stopPct / 100.0), 10000000000.0));
  }

  lemma {:induction false} DefectStays(events: seq<Funding>, k: nat)
    requires k <= |events| && FirstDefect(events[..k]).Some?
    ensures FirstDefect(events) == FirstDefect(events[..k])
    decreases |events| - k
  {
    if k == |events| {
      assert events[..k] == events;
    } else {
      assert events[..k + 1][..k] == events[..k];
      DefectStays(events, k + 1);
    }
  }

  /** The unrounded funding of adjacent windows adds up to the funding of the joined window. */
  lemma {:induction false} ContributionAdds(a: seq<Funding>, b: seq<Funding>, entry: real)
    requires entry > 0.0
    ensures Contribution(a + b, entry) == Contribution(a, entry) + Contribution(b, entry)
  {
    hide Charge;
    if b == [] {
      assert a + b == a;
    } else {
      ContributionAdds(a, b[..|b| - 1], entry);
      assert (a + b)[..|a + b| - 1] == a + b[..|b| - 1];
    }
  }
}
