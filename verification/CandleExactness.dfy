/** What a resampled bar is, in terms of the five-minute candles (scripts/historical_backtest.py, resample). */
module CandleExactness {
  import opened Common
  import opened Candles

  /** Open, extremes, close and volume of a block of candles. */
  ghost predicate Describes(b: Candle, block: seq<Candle>) {
    && block != [] && b.ts == block[0].ts && b.open == block[0].open && b.close == block[|block| - 1].close
    && (forall c :: c in block ==> b.low <= c.low && c.high <= b.high)
    && (exists c :: c in block && c.high == b.high) && (exists c :: c in block && c.low == b.low)
    && b.volume == Sum(Mapped(block, (c: Candle) => c.volume))
  }

  lemma {:induction false} ExtremesMean(block: seq<Candle>)
    requires block != []
    ensures forall c :: c in block ==> Lowest(block) <= c.low && c.high <= Highest(block)
    ensures exists c :: c in block && c.high == Highest(block)
    ensures exists c :: c in block && c.low == Lowest(block)
  {
    var n := |block| - 1;
    assert block[n] in block;
    if n > 0 {
      ExtremesMean(block[..n]);
      assert forall c :: c in block <==> c in block[..n] || c == block[n];
    }
  }

  lemma {:induction false} VolumeMeans(block: seq<Candle>)
    ensures Volume(block) == Sum(Mapped(block, (c: Candle) => c.volume))
  {
    if block != [] {
      var n := |block| - 1;
      VolumeMeans(block[..n]);
      hide Mapped;
      assert Mapped(block, (c: Candle) => c.volume)[..n] == Mapped(block[..n], (c: Candle) => c.volume);
    }
  }

  lemma BarDescribes(block: seq<Candle>)
    requires block != []
    ensures Describes(Bar(block, block[0].ts), block)
  {
    hide Highest, Lowest, Volume, Sum, Mapped;
    ExtremesMean(block);
    VolumeMeans(block);
  }

  /** Candle k starts a whole block of m candles on a multiple of its length. */
  ghost predicate StartsBlock(rows: seq<Candle>, m: nat, k: int)
    requires m > 0
  {
    0 <= k && k + m <= |rows| && rows[k].ts % (300_000 * m) == 0
  }

  ghost predicate BarAt(b: Candle, rows: seq<Candle>, m: nat, k: int)
    requires m > 0
  {
    StartsBlock(rows, m, k) && Describes(b, rows[k..k + m])
  }

  /** In time order, the bars are those of the whole aligned blocks, each once. */
  ghost predicate BarsOf(bars: seq<Candle>, rows: seq<Candle>, m: nat)
    requires m > 0
  {
    && (forall i, j :: 0 <= i < j < |bars| ==> bars[i].ts < bars[j].ts)
    && (forall b :: b in bars ==> exists k :: BarAt(b, rows, m, k))
    && forall k :: StartsBlock(rows, m, k) ==> exists b :: b in bars && BarAt(b, rows, m, k)
  }

  lemma CompletesMeans(rows: seq<Candle>, m: nat)
    requires m > 0
    ensures Completes(rows, m) <==> StartsBlock(rows, m, |rows| - m)
  {
    if |rows| >= m {
      var t := rows[|rows| - m].ts;
      assert Bucket(t, FIVE_MINUTES * m) == t - t % (FIVE_MINUTES * m);
      assert FIVE_MINUTES * m == 300_000 * m;
    }
  }

  lemma EarlierBlocks(rows: seq<Candle>, m: nat, k: int)
    requires m > 0 && rows != []
    ensures StartsBlock(rows[..|rows| - 1], m, k) <==> StartsBlock(rows, m, k) && k != |rows| - m
    ensures StartsBlock(rows[..|rows| - 1], m, k) ==> rows[..|rows| - 1][k..k + m] == rows[k..k + m]
  {
  }

  lemma {:induction false} StreamedMeans(rows: seq<Candle>, m: nat)
    requires m > 0 && Contiguous(rows)
    ensures BarsOf(Streamed(rows, m), rows, m)
  {
    hide Describes, BarsOf, Completes;
    if rows == [] {
      NoBlocks(m);
    } else {
      var init := rows[..|rows| - 1];
      ContiguousPrefix(rows, |rows| - 1);
      StreamedMeans(init, m);
      CompletesMeans(rows, m);
      hide Contiguous;
      if Completes(rows, m) {
        var block := rows[|rows| - m..];
        BarDescribes(block);
        assert rows[|rows| - m..|rows| - m + m] == block;
        OneMore(Streamed(init, m), Bar(block, block[0].ts), rows, m);
      } else {
        SameBlocks(Streamed(init, m), rows, m);
      }
    }
  }

  lemma NoBlocks(m: nat)
    requires m > 0
    ensures BarsOf([], [], m)
  {
  }

  lemma SameAt(b: Candle, rows: seq<Candle>, m: nat, k: int)
    requires m > 0 && rows != [] && !StartsBlock(rows, m, |rows| - m)
    ensures BarAt(b, rows[..|rows| - 1], m, k) <==> BarAt(b, rows, m, k)
  {
    hide StartsBlock, Describes;
    EarlierBlocks(rows, m, k);
  }

  lemma SameBlocks(bars: seq<Candle>, rows: seq<Candle>, m: nat)
    requires m > 0 && rows != [] && BarsOf(bars, rows[..|rows| - 1], m) && !StartsBlock(rows, m, |rows| - m)
    ensures BarsOf(bars, rows, m)
  {
    hide StartsBlock, BarAt;
    var init := rows[..|rows| - 1];
    forall k | StartsBlock(rows, m, k) ensures exists b :: b in bars && BarAt(b, rows, m, k) {
      EarlierBlocks(rows, m, k);
      var b :| b in bars && BarAt(b, init, m, k);
      SameAt(b, rows, m, k);
    }
    forall b | b in bars ensures exists k :: BarAt(b, rows, m, k) {
      var k :| BarAt(b, init, m, k);
      SameAt(b, rows, m, k);
    }
  }

  lemma BarTime(b: Candle, rows: seq<Candle>, m: nat, k: int)
    requires m > 0 && BarAt(b, rows, m, k)
    ensures 0 <= k < |rows| && k + m <= |rows| && b.ts == rows[k].ts
  {
  }

  lemma OneMore(bars: seq<Candle>, bar: Candle, rows: seq<Candle>, m: nat)
    requires m > 0 && rows != [] && Contiguous(rows) && BarsOf(bars, rows[..|rows| - 1], m) && BarAt(bar, rows, m, |rows| - m)
    ensures BarsOf(bars + [bar], rows, m)
  {
    hide Contiguous, StartsBlock, BarAt;
    var init, all := rows[..|rows| - 1], bars + [bar];
    assert bar in all;
    forall b | b in bars ensures b.ts < bar.ts {
      var k :| BarAt(b, init, m, k);
      LaterBar(b, bar, rows, m, k);
    }
    forall b | b in all ensures exists k :: BarAt(b, rows, m, k) {
      if b in bars {
        var k :| BarAt(b, init, m, k);
        StaysAt(b, rows, m, k);
      } else {
        assert b == bar;
      }
    }
    forall k | StartsBlock(rows, m, k) ensures exists b :: b in all && BarAt(b, rows, m, k) {
      EarlierBlocks(rows, m, k);
      if k != |rows| - m {
        var b :| b in bars && BarAt(b, init, m, k);
        StaysAt(b, rows, m, k);
        assert b in all;
      }
    }
    forall i, j | 0 <= i < j < |all| ensures all[i].ts < all[j].ts {
      assert i < |bars| && all[i] in bars;
    }
  }

  lemma StaysAt(b: Candle, rows: seq<Candle>, m: nat, k: int)
    requires m > 0 && rows != [] && BarAt(b, rows[..|rows| - 1], m, k)
    ensures BarAt(b, rows, m, k)
  {
    hide StartsBlock, Describes;
    EarlierBlocks(rows, m, k);
  }

  lemma LaterBar(b: Candle, bar: Candle, rows: seq<Candle>, m: nat, k: int)
    requires m > 0 && rows != [] && Contiguous(rows) && BarAt(b, rows[..|rows| - 1], m, k) && BarAt(bar, rows, m, |rows| - m)
    ensures b.ts < bar.ts
  {
    hide StartsBlock, Describes, BarAt;
    BarTime(b, rows[..|rows| - 1], m, k);
    BarTime(bar, rows, m, |rows| - m);
  }

  /**
   Resampling a contiguous history gives, in time order, one bar for every block of candles that is whole and starts on a
   multiple of its length, with the block's open, extremes, close and volume, and no other bar.
   */
  lemma ResampledMeans(rows: seq<Candle>, m: nat)
    requires m > 0 && Contiguous(rows)
    ensures BarsOf(Resampled(rows, m), rows, m)
  {
    hide BarsOf;
    ResampledIsStreamed(rows, m);
    StreamedMeans(rows, m);
  }

  // ----- download validation -----

  /** Positive prices with the extremes outermost, a volume, and a quoted one where it is asked for. */
  ghost predicate Sound(c: Candle, requireQuote: bool) {
    && c.ts > 0 && c.low > 0.0 && c.volume >= 0.0 && c.low <= c.open <= c.high && c.low <= c.close <= c.high
    && (requireQuote ==> c.quote.Some? && c.quote.value >= 0.0)
  }

  /** The candles that open and close inside the window. */
  ghost function InWindow(rows: seq<Candle>, start: int, end: int): seq<Candle> {
    Filter(rows, (c: Candle) => start <= c.ts && c.ts + 300_000 <= end)
  }

  lemma SoundMeans(c: Candle, requireQuote: bool)
    ensures Sound(c, requireQuote) <==> WellFormed(c) && !(requireQuote && (c.quote.None? || c.quote.value < 0.0))
  {
  }

  /** A download is accepted, as its candles in the window, exactly when at least a hundred sound ones follow each other by five minutes. */
  lemma ValidCandlesMean(rows: seq<Candle>, start: int, end: int, requireQuote: bool)
    ensures var inside := InWindow(rows, start, end);
            ValidCandles(rows, start, end, requireQuote) ==
            if && |inside| >= 100
               && (forall i :: 0 <= i < |inside| - 1 ==> inside[i + 1].ts == inside[i].ts + 300_000)
               && (forall c :: c in inside ==> Sound(c, requireQuote))
            then Some(inside) else None
  {
    hide WellFormed, Sound, Filter;
    FilterSame(rows, (c: Candle) => start <= c.ts && CloseTime(c) <= end, (c: Candle) => start <= c.ts && c.ts + 300_000 <= end);
    forall c: Candle ensures Sound(c, requireQuote) <==> WellFormed(c) && !(requireQuote && (c.quote.None? || c.quote.value < 0.0)) {
      SoundMeans(c, requireQuote);
    }
  }
}
