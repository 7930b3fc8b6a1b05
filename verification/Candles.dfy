/**
 Five-minute candles, their validation, and resampling to longer bars
 (scripts/historical_backtest.py).

 Resample fills a dictionary of buckets and then walks the sorted keys, as the code does. Streamed is the
 simple form: a bar appears with the candle that completes it. On contiguous candles the two agree, which
 is what makes every bar seen at a close time a function of the candles closed by then.
 */
module Candles {
  import opened Common

  const FIVE_MINUTES: int := 300_000

  datatype Candle = Candle(
    ts: int, open: real, high: real, low: real, close: real, volume: real, quote: Option<real>)

  function CloseTime(c: Candle): int { c.ts + FIVE_MINUTES }

  predicate WellFormed(c: Candle) {
    && c.ts > 0
    && c.open > 0.0 && c.high > 0.0 && c.low > 0.0 && c.close > 0.0 && c.volume >= 0.0
    && c.high >= c.open && c.high >= c.close && c.low <= c.open && c.low <= c.close
  }

  ghost predicate Contiguous(rows: seq<Candle>) {
    forall i :: 0 <= i < |rows| ==> rows[i].ts == rows[0].ts + i * FIVE_MINUTES
  }

  /** One failing row or gap rejects the whole window, and so does a short window. */
  function ValidCandles(rows: seq<Candle>, start: int, end: int, requireQuote: bool): (r: Option<seq<Candle>>)
    ensures r.Some? ==> |r.value| >= 100 && Contiguous(r.value)
    ensures r.Some? ==> forall c :: c in r.value <==> c in rows && start <= c.ts && CloseTime(c) <= end
    ensures r.Some? ==> forall c :: c in r.value ==> WellFormed(c) && (requireQuote ==> c.quote.Some? && c.quote.value >= 0.0)
  {
    var inside := (c: Candle) => start <= c.ts && CloseTime(c) <= end;
    var kept := Filter(rows, inside);
    FilterMembers(rows, inside);
    if |kept| < 100 || (exists i :: 0 <= i < |kept| - 1 && kept[i + 1].ts - kept[i].ts != FIVE_MINUTES) then None
    else if exists c :: c in kept && (!WellFormed(c) || (requireQuote && (c.quote.None? || c.quote.value < 0.0))) then None
    else StepsAreContiguous(kept); Some(kept)
  }

  lemma {:induction false} StepsAreContiguous(rows: seq<Candle>)
    requires forall i :: 0 <= i < |rows| - 1 ==> rows[i + 1].ts - rows[i].ts == FIVE_MINUTES
    ensures Contiguous(rows)
  {
    if |rows| > 0 {
      var n := |rows| - 1;
      StepsAreContiguous(rows[..n]);
      if n > 0 { assert rows[(n - 1) + 1].ts - rows[n - 1].ts == FIVE_MINUTES; }
    }
  }

  // ----- the dictionary form -----

  function Bucket(ts: int, period: int): int
    requires period > 0
  {
    ts - ts % period
  }

  function Group(rows: seq<Candle>, period: int, start: int): seq<Candle>
    requires period > 0
  {
    Filter(rows, (c: Candle) => Bucket(c.ts, period) == start)
  }

  /** Bucket keys in the order a dictionary first meets them. */
  function Keys(rows: seq<Candle>, period: int): seq<int>
    requires period > 0
  {
    if rows == [] then []
    else
      var n := |rows| - 1;
      var before := Keys(rows[..n], period);
      var key := Bucket(rows[n].ts, period);
      if key in before then before else before + [key]
  }

  predicate Complete(group: seq<Candle>, start: int, multiplier: nat) {
    && |group| == multiplier > 0
    && group[0].ts == start
    && forall i :: 0 <= i < |group| - 1 ==> group[i + 1].ts - group[i].ts == FIVE_MINUTES
  }

  function Highest(group: seq<Candle>): real
    requires group != []
  {
    if |group| == 1 then group[0].high else Max(Highest(group[..|group| - 1]), group[|group| - 1].high)
  }

  function Lowest(group: seq<Candle>): real
    requires group != []
  {
    if |group| == 1 then group[0].low
    else
      var rest := Lowest(group[..|group| - 1]);
      if group[|group| - 1].low < rest then group[|group| - 1].low else rest
  }

  function Volume(group: seq<Candle>): real {
    if group == [] then 0.0 else Volume(group[..|group| - 1]) + group[|group| - 1].volume
  }

  function Bar(group: seq<Candle>, start: int): Candle
    requires group != []
  {
    Candle(start, group[0].open, Highest(group), Lowest(group), group[|group| - 1].close, Volume(group), None)
  }

  function Collect(rows: seq<Candle>, starts: seq<int>, multiplier: nat): seq<Candle>
    requires multiplier > 0
  {
    if starts == [] then []
    else
      var start := starts[|starts| - 1];
      var before := Collect(rows, starts[..|starts| - 1], multiplier);
      var group := Group(rows, FIVE_MINUTES * multiplier, start);
      if Complete(group, start, multiplier) then before + [Bar(group, start)] else before
  }

  predicate IntLe(a: int, b: int) { a <= b }

  function Resampled(rows: seq<Candle>, multiplier: nat): seq<Candle>
    requires multiplier > 0
  {
    Collect(rows, SortBy(Keys(rows, FIVE_MINUTES * multiplier), IntLe), multiplier)
  }

  method Resample(rows: seq<Candle>, multiplier: nat) returns (result: seq<Candle>)
    requires multiplier > 0
    ensures result == Resampled(rows, multiplier)
  {
    var period := FIVE_MINUTES * multiplier;
    var buckets: map<int, seq<Candle>>, order: seq<int> := map[], [];
    for k := 0 to |rows|
      invariant order == Keys(rows[..k], period)
      invariant buckets.Keys == set key | key in order
      invariant forall key :: key in buckets ==> buckets[key] == Group(rows[..k], period, key)
    {
      hide Bucket;
      var row := rows[k];
      var key := Bucket(row.ts, period);
      SeenSnoc(rows, k, period);
      if key in buckets {
        buckets := buckets[key := buckets[key] + [row]];
      } else {
        NoGroup(rows[..k], period, key);
        buckets := buckets[key := [row]];
        order := order + [key];
      }
    }
    assert rows[..|rows|] == rows;
    var starts := SortBy(order, IntLe);
    SortBySpec(order, IntLe);
    result := [];
    for k := 0 to |starts|
      invariant result == Collect(rows, starts[..k], multiplier)
    {
      assert starts[..k + 1][..k] == starts[..k];
      assert starts[k] in order;
      var group := buckets[starts[k]];
      if Complete(group, starts[k], multiplier) {
        result := result + [Bar(group, starts[k])];
      }
    }
    assert starts[..|starts|] == starts;
  }

  lemma SeenSnoc(rows: seq<Candle>, k: nat, period: int)
    requires period > 0 && k < |rows|
    ensures rows[..k + 1][..k] == rows[..k]
    ensures forall key :: Group(rows[..k + 1], period, key) ==
                          Group(rows[..k], period, key) + (if Bucket(rows[k].ts, period) == key then [rows[k]] else [])
  {
    hide Bucket;
    GroupSnoc(rows[..k], rows[k], period);
    assert rows[..k + 1] == rows[..k] + [rows[k]];
  }

  lemma GroupSnoc(rows: seq<Candle>, c: Candle, period: int)
    requires period > 0
    ensures forall key :: Group(rows + [c], period, key) ==
                          Group(rows, period, key) + (if Bucket(c.ts, period) == key then [c] else [])
  {
    forall key {
      FilterSnoc(rows, c, (r: Candle) => Bucket(r.ts, period) == key);
    }
  }

  lemma {:induction false} NoGroup(rows: seq<Candle>, period: int, key: int)
    requires period > 0
    requires key !in Keys(rows, period)
    ensures Group(rows, period, key) == []
  {
    hide Bucket;
    if rows != [] {
      NoGroup(rows[..|rows| - 1], period, key);
    }
  }

  // ----- the streaming form -----

  /** The last `multiplier` candles are exactly one aligned bucket. */
  predicate Completes(rows: seq<Candle>, multiplier: nat)
    requires multiplier > 0
  {
    && |rows| >= multiplier
    && var first := rows[|rows| - multiplier].ts; Bucket(first, FIVE_MINUTES * multiplier) == first
  }

  function Streamed(rows: seq<Candle>, multiplier: nat): seq<Candle>
    requires multiplier > 0
  {
    if rows == [] then []
    else
      var before := Streamed(rows[..|rows| - 1], multiplier);
      if Completes(rows, multiplier)
      then var group := rows[|rows| - multiplier..]; before + [Bar(group, group[0].ts)]
      else before
  }

  lemma BucketBounds(ts: int, period: int)
    requires period > 0
    ensures Bucket(ts, period) <= ts < Bucket(ts, period) + period
    ensures Bucket(ts, period) == ts / period * period
  {
  }

  lemma LessFactor(x: int, y: int, period: int)
    requires period > 0 && x * period < y * period
    ensures x < y
  {
  }

  lemma MultiplyLe(x: int, y: int, period: int)
    requires period > 0 && x <= y
    ensures x * period <= y * period
  {
  }

  /** Buckets are aligned, so a later bucket starts at least one period later. */
  lemma BucketStep(a: int, b: int, period: int)
    requires period > 0 && a <= b
    ensures Bucket(a, period) <= Bucket(b, period)
    ensures Bucket(a, period) == Bucket(b, period) || Bucket(a, period) + period <= Bucket(b, period) <= b
  {
    BucketBounds(a, period);
    BucketBounds(b, period);
    var x, y := a / period, b / period;
    assert x * period < (y + 1) * period;
    LessFactor(x, y + 1, period);
    if x < y {
      MultiplyLe(x + 1, y, period);
    }
  }

  lemma BucketOfBucket(ts: int, period: int)
    requires period > 0
    ensures Bucket(Bucket(ts, period), period) == Bucket(ts, period)
  {
    BucketBounds(ts, period);
    BucketStep(Bucket(ts, period), ts, period);
    BucketBounds(Bucket(ts, period), period);
    var k, q := ts / period, Bucket(ts, period) / period;
    assert k * period < (q + 1) * period;
    LessFactor(k, q + 1, period);
    assert q * period < (k + 1) * period;
    LessFactor(q, k + 1, period);
  }

  lemma ContiguousPrefix(rows: seq<Candle>, k: nat)
    requires Contiguous(rows) && k <= |rows|
    ensures Contiguous(rows[..k])
  {
  }

  /** On contiguous candles the bucket of the newest candle is a suffix of the rows. */
  lemma {:induction false} LastGroup(rows: seq<Candle>, multiplier: nat)
    requires multiplier > 0 && rows != [] && Contiguous(rows)
    ensures var period := FIVE_MINUTES * multiplier;
            var last := rows[|rows| - 1].ts;
            var start := Bucket(last, period);
            var group := Group(rows, period, start);
            && 0 < |group| <= |rows|
            && group == rows[|rows| - |group|..]
            && group[0].ts >= start
            && (|group| < |rows| ==> group[0].ts < start + FIVE_MINUTES)
  {
    var period := FIVE_MINUTES * multiplier;
    var n := |rows| - 1;
    var last := rows[n];
    var start := Bucket(last.ts, period);
    var init := rows[..n];
    assert rows == init + [last];
    GroupSnoc(init, last, period);
    BucketBounds(last.ts, period);
    if n == 0 {
      assert Group(init, period, start) == [];
    } else {
      assert init[n - 1].ts == last.ts - FIVE_MINUTES;
      BucketStep(init[n - 1].ts, last.ts, period);
      if Bucket(init[n - 1].ts, period) == start {
        LastGroup(init, multiplier);
        var g := Group(init, period, start);
        assert rows[|rows| - (|g| + 1)..] == init[n - |g|..] + [last];
      } else {
        forall c | c in init ensures Bucket(c.ts, period) != start {
          var j :| 0 <= j < n && init[j] == c;
          assert init[j].ts == init[n - 1].ts - (n - 1 - j) * FIVE_MINUTES;
          BucketStep(init[j].ts, init[n - 1].ts, period);
        }
        FilterNone(init, (c: Candle) => Bucket(c.ts, period) == start);
        BucketBounds(init[n - 1].ts, period);
        assert rows[n..] == [last];
      }
    }
  }

  lemma SuffixTimes(rows: seq<Candle>, g: nat)
    requires Contiguous(rows) && g <= |rows|
    ensures var suffix := rows[|rows| - g..];
            forall i :: 0 <= i < g ==> suffix[i].ts == rows[|rows| - 1].ts - (g - 1 - i) * FIVE_MINUTES
  {
  }

  /** When the streaming form emits a bar, the newest candle's bucket holds exactly that many candles. */
  lemma CompletingGroup(rows: seq<Candle>, multiplier: nat)
    requires multiplier > 0 && rows != [] && Contiguous(rows) && Completes(rows, multiplier)
    ensures var start := Bucket(rows[|rows| - 1].ts, FIVE_MINUTES * multiplier);
            && Group(rows, FIVE_MINUTES * multiplier, start) == rows[|rows| - multiplier..]
            && rows[|rows| - multiplier].ts == start
  {
    var period, last := FIVE_MINUTES * multiplier, rows[|rows| - 1].ts;
    LastGroup(rows, multiplier);
    SuffixTimes(rows, multiplier);
    var group := Group(rows, period, Bucket(last, period));
    SuffixTimes(rows, |group|);
    var first := rows[|rows| - multiplier..][0].ts;
    BucketStep(first, last, period);
    hide Bucket, Group, Contiguous;
    assert group[0].ts == last - (|group| - 1) * FIVE_MINUTES;
  }

  /** The bucket of the newest candle is complete exactly when the streaming form emits a bar. */
  lemma CompleteIffCompletes(rows: seq<Candle>, multiplier: nat)
    requires multiplier > 0 && rows != [] && Contiguous(rows)
    ensures var period := FIVE_MINUTES * multiplier;
            var start := Bucket(rows[|rows| - 1].ts, period);
            var group := Group(rows, period, start);
            && (Complete(group, start, multiplier) <==> Completes(rows, multiplier))
            && (Complete(group, start, multiplier) ==> group == rows[|rows| - multiplier..] && group[0].ts == start)
  {
    hide Bucket, Group, Contiguous;
    var period, last := FIVE_MINUTES * multiplier, rows[|rows| - 1].ts;
    LastGroup(rows, multiplier);
    BucketOfBucket(last, period);
    if Completes(rows, multiplier) {
      CompletingGroup(rows, multiplier);
      SuffixTimes(rows, multiplier);
    }
  }

  lemma {:induction false} CollectAgrees(rows: seq<Candle>, more: seq<Candle>, starts: seq<int>, multiplier: nat)
    requires multiplier > 0
    requires forall s :: s in starts ==> Group(rows, FIVE_MINUTES * multiplier, s) == Group(more, FIVE_MINUTES * multiplier, s)
    ensures Collect(rows, starts, multiplier) == Collect(more, starts, multiplier)
  {
    if starts != [] {
      CollectAgrees(rows, more, starts[..|starts| - 1], multiplier);
    }
  }

  ghost predicate Increasing(keys: seq<int>) {
    forall i, j :: 0 <= i < j < |keys| ==> keys[i] < keys[j]
  }

  /** Keys of contiguous candles arrive in increasing order. */
  lemma {:induction false} KeysIncrease(rows: seq<Candle>, period: int)
    requires period > 0 && Contiguous(rows)
    ensures Increasing(Keys(rows, period))
    ensures rows != [] ==> var keys := Keys(rows, period);
                           keys != [] && keys[|keys| - 1] == Bucket(rows[|rows| - 1].ts, period)
  {
    hide Bucket;
    if rows != [] {
      var n := |rows| - 1;
      ContiguousPrefix(rows, n);
      KeysIncrease(rows[..n], period);
      if n > 0 {
        assert rows[n - 1].ts <= rows[n].ts;
        BucketStep(rows[n - 1].ts, rows[n].ts, period);
      }
    }
  }

  lemma KeysSorted(rows: seq<Candle>, period: int)
    requires period > 0 && Contiguous(rows)
    ensures SortBy(Keys(rows, period), IntLe) == Keys(rows, period)
  {
    KeysIncrease(rows, period);
    SortBySorted(Keys(rows, period), IntLe);
  }

  /** The newest candle opens a new bucket or extends the last one. */
  lemma NextKey(rows: seq<Candle>, period: int)
    requires period > 0 && |rows| > 0 && Contiguous(rows)
    ensures var n := |rows| - 1;
            var before, start := Keys(rows[..n], period), Bucket(rows[n].ts, period);
            && Increasing(before)
            && (start in before ==> before[|before| - 1] == start && n > 0 && Bucket(rows[n - 1].ts, period) == start)
  {
    var n := |rows| - 1;
    var before := Keys(rows[..n], period);
    ContiguousPrefix(rows, n);
    KeysIncrease(rows[..n], period);
    KeysIncrease(rows, period);
  }

  /** On contiguous candles the dictionary form and the streaming form give the same bars. */
  lemma {:induction false} ResampledIsStreamed(rows: seq<Candle>, multiplier: nat)
    requires multiplier > 0 && Contiguous(rows)
    ensures Resampled(rows, multiplier) == Streamed(rows, multiplier)
  {
    hide Bucket, Bar, Complete, Completes, Contiguous;
    var period := FIVE_MINUTES * multiplier;
    KeysSorted(rows, period);
    if rows != [] {
      var n := |rows| - 1;
      var init, start := rows[..n], Bucket(rows[n].ts, period);
      var before := Keys(init, period);
      ContiguousPrefix(rows, n);
      ResampledIsStreamed(init, multiplier);
      KeysSorted(init, period);
      CompleteIffCompletes(rows, multiplier);
      NextKey(rows, period);
      if start in before {
        var m := |before| - 1;
        CompleteIffCompletes(init, multiplier);
        PartialBucket(rows, multiplier);
        OlderGroups(rows, period, before[..m]);
        CollectAgrees(init, rows, before[..m], multiplier);
      } else {
        assert (before + [start])[..|before|] == before;
        OlderGroups(rows, period, before);
        CollectAgrees(init, rows, before, multiplier);
      }
    }
  }

  lemma OlderGroups(rows: seq<Candle>, period: int, starts: seq<int>)
    requires period > 0 && rows != []
    requires Bucket(rows[|rows| - 1].ts, period) !in starts
    ensures forall s :: s in starts ==> Group(rows[..|rows| - 1], period, s) == Group(rows, period, s)
  {
    hide Bucket;
    var n := |rows| - 1;
    assert rows == rows[..n] + [rows[n]];
    GroupSnoc(rows[..n], rows[n], period);
  }

  /** While the next candle still falls into the same bucket, that bucket is not complete. */
  lemma PartialBucket(rows: seq<Candle>, multiplier: nat)
    requires multiplier > 0 && |rows| > 1 && Contiguous(rows)
    requires var period := FIVE_MINUTES * multiplier;
             Bucket(rows[|rows| - 1].ts, period) == Bucket(rows[|rows| - 2].ts, period)
    ensures !Completes(rows[..|rows| - 1], multiplier)
  {
    var period := FIVE_MINUTES * multiplier;
    var n := |rows| - 1;
    if n >= multiplier {
      var first := rows[n - multiplier].ts;
      assert rows[n].ts == first + period && rows[n - 1].ts == first + period - FIVE_MINUTES;
      assert rows[..n][n - multiplier].ts == first;
      BucketStep(first, rows[n].ts, period);
      BucketBounds(rows[n - 1].ts, period);
      BucketBounds(rows[n].ts, period);
    }
  }

  // ----- what is visible at a close time -----

  /** bisect_right over an ascending list: how many leading entries are not greater than x. */
  function BisectRight(a: seq<int>, x: int): (r: nat)
    ensures r <= |a|
    ensures r > 0 ==> a[r - 1] <= x
    ensures forall i :: r <= i < |a| ==> a[i] > x
  {
    if a == [] then 0
    else if a[|a| - 1] <= x then |a|
    else BisectRight(a[..|a| - 1], x)
  }

  function CloseTimes(bars: seq<Candle>, multiplier: nat): (r: seq<int>)
    ensures |r| == |bars|
  {
    seq(|bars|, i requires 0 <= i < |bars| => bars[i].ts + FIVE_MINUTES * multiplier)
  }

  /** The newest candle adds at most one bar, which closes when it does. */
  lemma StreamedStep(rows: seq<Candle>, multiplier: nat)
    requires multiplier > 0 && Contiguous(rows) && rows != []
    ensures var before, all := Streamed(rows[..|rows| - 1], multiplier), Streamed(rows, multiplier);
            || all == before
            || (exists b :: all == before + [b] && b.ts + FIVE_MINUTES * multiplier == CloseTime(rows[|rows| - 1]))
  {
    hide Bucket;
    if Completes(rows, multiplier) {
      var group := rows[|rows| - multiplier..];
      var b := Bar(group, group[0].ts);
      assert b.ts + FIVE_MINUTES * multiplier == CloseTime(rows[|rows| - 1]);
    }
  }

  /** Streaming bars of a prefix are the bars that close no later than its last candle; the rest close with later candles. */
  lemma {:induction false} StreamedPrefix(rows: seq<Candle>, k: nat, multiplier: nat)
    requires multiplier > 0 && Contiguous(rows) && k <= |rows|
    ensures var all, seen := Streamed(rows, multiplier), Streamed(rows[..k], multiplier);
            && |seen| <= |all| && all[..|seen|] == seen
            && (forall b :: b in seen ==> k > 0 && b.ts + FIVE_MINUTES * multiplier <= CloseTime(rows[k - 1]))
            && (forall i :: |seen| <= i < |all| ==> k < |rows| && all[i].ts + FIVE_MINUTES * multiplier >= CloseTime(rows[k]))
  {
    hide Streamed;
    if rows == [] {
      assert rows[..k] == rows;
      NoBars(multiplier);
    } else if k == |rows| {
      assert rows[..k] == rows;
      ContiguousPrefix(rows, k - 1);
      StreamedPrefix(rows[..k - 1], k - 1, multiplier);
      assert rows[..k - 1][..k - 1] == rows[..k - 1];
      StreamedStep(rows, multiplier);
    } else {
      var n := |rows| - 1;
      ContiguousPrefix(rows, n);
      StreamedPrefix(rows[..n], k, multiplier);
      assert rows[..n][..k] == rows[..k];
      StreamedStep(rows, multiplier);
    }
  }

  lemma NoBars(multiplier: nat)
    requires multiplier > 0
    ensures Streamed([], multiplier) == []
  {
  }

  /** The first k candles are exactly those closed by time x. */
  ghost predicate ClosedBy(rows: seq<Candle>, k: nat, x: int) {
    && k <= |rows|
    && (forall i :: 0 <= i < k ==> CloseTime(rows[i]) <= x)
    && (forall i :: k <= i < |rows| ==> CloseTime(rows[i]) > x)
  }

  /** The bars found by bisecting close times at x are the bars of the candles closed by x, alone. */
  lemma VisibleBars(rows: seq<Candle>, k: nat, x: int, multiplier: nat)
    requires multiplier > 0 && Contiguous(rows) && ClosedBy(rows, k, x)
    ensures var bars := Resampled(rows, multiplier);
            var endpoint := BisectRight(CloseTimes(bars, multiplier), x);
            bars[..endpoint] == Resampled(rows[..k], multiplier)
  {
    ContiguousPrefix(rows, k);
    ResampledIsStreamed(rows, multiplier);
    ResampledIsStreamed(rows[..k], multiplier);
    StreamedPrefix(rows, k, multiplier);
    var all, seen := Streamed(rows, multiplier), Streamed(rows[..k], multiplier);
    var times := CloseTimes(all, multiplier);
    var endpoint := BisectRight(times, x);
    if seen != [] {
      assert all[|seen| - 1] in seen;
      assert times[|seen| - 1] <= x;
    }
    if endpoint > 0 {
      assert times[endpoint - 1] <= x;
    }
    assert endpoint == |seen|;
  }
}
