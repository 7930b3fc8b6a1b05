/**
 First-touch settlement of a short position on five-minute candles (scripts/historical_backtest.py).

 The scan only sees open, high, low and close. Inside a candle the price follows some unknown path of ticks,
 and the theorems compare the recorded R with the R of the first tick that reaches a level, for every path
 consistent with the candles.
 */
module Settlement {
  import opened Common
  import opened Candles

  datatype Verdict = Win | Loss | Timeout
  datatype ExitReason = SameCandleConservativeLoss | StopHit | TargetHit | HorizonMarkToMarket
  datatype Resolution = Resolution(
    verdict: Verdict, r: real, exitPrice: real, exitTs: int, fundingCutoff: int, reason: ExitReason)
  datatype SettleError = EmptyHorizon | EntryOutside

  function StopPrice(entry: real, stopPct: real): real { entry * (1.0 + stopPct / 100.0) }

  function TargetPrice(entry: real, targetPct: real): real { entry * (1.0 - targetPct / 100.0) }

  function MarkToMarket(entry: real, close: real, stopPct: real): real
    requires entry != 0.0 && stopPct != 0.0
  {
    (entry - close) / entry / (stopPct / 100.0)
  }

  predicate HitsStop(c: Candle, stop: real) { c.high >= stop }

  predicate HitsTarget(c: Candle, target: real) { c.low <= target }

  predicate Touches(c: Candle, stop: real, target: real) { HitsStop(c, stop) || HitsTarget(c, target) }

  /** What the first touching candle settles to. */
  function TouchResolution(c: Candle, stop: real, target: real, targetR: real): Resolution
    requires Touches(c, stop, target)
  {
    if HitsStop(c, stop) && HitsTarget(c, target)
    then Resolution(Loss, -1.0, stop, CloseTime(c), c.ts, SameCandleConservativeLoss)
    else if HitsStop(c, stop) then Resolution(Loss, -1.0, stop, CloseTime(c), c.ts, StopHit)
    else Resolution(Win, targetR, target, CloseTime(c), c.ts, TargetHit)
  }

  function HorizonResolution(entry: real, last: Candle, stopPct: real): Resolution
    requires entry != 0.0 && stopPct != 0.0
  {
    Resolution(Timeout, MarkToMarket(entry, last.close, stopPct), last.close, CloseTime(last), CloseTime(last), HorizonMarkToMarket)
  }

  /** The candles an open position can see: at most `horizon` of them, starting at the entry candle. */
  function Held(rows: seq<Candle>, entryIndex: int, horizon: int): seq<Candle>
    requires 0 <= entryIndex < |rows| && horizon >= 1
  {
    if horizon <= |rows| - entryIndex then rows[entryIndex..entryIndex + horizon] else rows[entryIndex..]
  }

  /** Settlement of a held window: the first touching candle decides, else the last close does. */
  function SettleHeld(held: seq<Candle>, entry: real, stopPct: real, targetPct: real): Resolution
    requires held != [] && entry != 0.0 && stopPct != 0.0
  {
    var stop, target := StopPrice(entry, stopPct), TargetPrice(entry, targetPct);
    if Touches(held[0], stop, target) then TouchResolution(held[0], stop, target, targetPct / stopPct)
    else if |held| == 1 then HorizonResolution(entry, held[0], stopPct)
    else SettleHeld(held[1..], entry, stopPct, targetPct)
  }

  function Settle(rows: seq<Candle>, entryIndex: int, stopPct: real, targetPct: real, horizon: int): Result<Resolution, SettleError>
    requires stopPct > 0.0
    requires 0 <= entryIndex < |rows| ==> rows[entryIndex].open != 0.0
  {
    if horizon < 1 then Err(EmptyHorizon)
    else if entryIndex < 0 || entryIndex >= |rows| then Err(EntryOutside)
    else Ok(SettleHeld(Held(rows, entryIndex, horizon), rows[entryIndex].open, stopPct, targetPct))
  }

  method OutcomeDetails(rows: seq<Candle>, entryIndex: int, stopPct: real, targetPct: real, horizon: int)
    returns (result: Result<Resolution, SettleError>)
    requires stopPct > 0.0
    requires 0 <= entryIndex < |rows| ==> rows[entryIndex].open != 0.0
    ensures result == Settle(rows, entryIndex, stopPct, targetPct, horizon)
  {
    if horizon < 1 {
      return Err(EmptyHorizon);
    }
    if entryIndex < 0 || entryIndex >= |rows| {
      return Err(EntryOutside);
    }
    var available := if horizon < |rows| - entryIndex then horizon else |rows| - entryIndex;
    var entry := rows[entryIndex].open;
    var stop, target := StopPrice(entry, stopPct), TargetPrice(entry, targetPct);
    var held := rows[entryIndex..entryIndex + available];
    assert held == Held(rows, entryIndex, horizon);
    for k := 0 to available
      invariant k < available ==> SettleHeld(held, entry, stopPct, targetPct) == SettleHeld(held[k..], entry, stopPct, targetPct)
      invariant k == available ==>
        SettleHeld(held, entry, stopPct, targetPct) == HorizonResolution(entry, held[available - 1], stopPct)
    {
      var row := held[k];
      assert held[k..][0] == row;
      if row.high >= stop && row.low <= target {
        return Ok(Resolution(Loss, -1.0, stop, CloseTime(row), row.ts, SameCandleConservativeLoss));
      }
      if row.high >= stop {
        return Ok(Resolution(Loss, -1.0, stop, CloseTime(row), row.ts, StopHit));
      }
      if row.low <= target {
        return Ok(Resolution(Win, targetPct / stopPct, target, CloseTime(row), row.ts, TargetHit));
      }
      assert held[k..][1..] == held[k + 1..];
    }
    var last := rows[entryIndex + available - 1];
    return Ok(Resolution(Timeout, (entry - last.close) / entry / (stopPct / 100.0), last.close,
                         CloseTime(last), CloseTime(last), HorizonMarkToMarket));
  }

  /** Which candle decides, and that nothing before it touched a level. */
  lemma {:induction false} FirstTouchDecides(held: seq<Candle>, entry: real, stopPct: real, targetPct: real) returns (j: nat)
    requires held != [] && entry != 0.0 && stopPct != 0.0
    ensures j < |held|
    ensures var stop, target := StopPrice(entry, stopPct), TargetPrice(entry, targetPct);
            var result := SettleHeld(held, entry, stopPct, targetPct);
            && (forall i :: 0 <= i < j ==> !Touches(held[i], stop, target))
            && result == (if Touches(held[j], stop, target) then TouchResolution(held[j], stop, target, targetPct / stopPct)
                          else HorizonResolution(entry, held[j], stopPct))
            && (!Touches(held[j], stop, target) ==> j == |held| - 1)
  {
    var stop, target := StopPrice(entry, stopPct), TargetPrice(entry, targetPct);
    if Touches(held[0], stop, target) || |held| == 1 {
      j := 0;
    } else {
      j := FirstTouchDecides(held[1..], entry, stopPct, targetPct);
      assert forall i :: 0 < i < j + 1 ==> held[i] == held[1..][i - 1];
      j := j + 1;
    }
  }

  /** Every trade is out of the market within its holding horizon. */
  lemma ExitsWithinHorizon(rows: seq<Candle>, entryIndex: nat, stopPct: real, targetPct: real, horizon: nat)
    requires Contiguous(rows) && entryIndex < |rows| && horizon >= 1 && stopPct > 0.0 && rows[entryIndex].open != 0.0
    ensures var result := Settle(rows, entryIndex, stopPct, targetPct, horizon);
            && result.Ok?
            && rows[entryIndex].ts < result.value.exitTs <= rows[entryIndex].ts + horizon * FIVE_MINUTES
            && rows[entryIndex].ts <= result.value.fundingCutoff <= result.value.exitTs
  {
    var held := Held(rows, entryIndex, horizon);
    var j := FirstTouchDecides(held, rows[entryIndex].open, stopPct, targetPct);
    assert held[j] == rows[entryIndex + j];
    assert held[j].ts == rows[entryIndex].ts + j * FIVE_MINUTES;
  }

  // ----- tick paths -----

  /** A path of ticks that could have produced the candle. */
  ghost predicate Consistent(c: Candle, ticks: seq<real>) {
    && ticks != [] && ticks[0] == c.open && ticks[|ticks| - 1] == c.close
    && c.low in ticks && c.high in ticks
    && forall t :: t in ticks ==> c.low <= t <= c.high
  }

  ghost predicate ConsistentAll(held: seq<Candle>, paths: seq<seq<real>>) {
    |held| == |paths| && forall i :: 0 <= i < |held| ==> Consistent(held[i], paths[i])
  }

  function Flatten(paths: seq<seq<real>>): seq<real> {
    if paths == [] then [] else paths[0] + Flatten(paths[1..])
  }

  /** R of the first tick that reaches a level, filled at the level; None when no tick does. */
  function FirstTouchR(ticks: seq<real>, stop: real, target: real, targetR: real): Option<real> {
    if ticks == [] then None
    else if ticks[0] >= stop then Some(-1.0)
    else if ticks[0] <= target then Some(targetR)
    else FirstTouchR(ticks[1..], stop, target, targetR)
  }

  /** The R a trader filled exactly at the first level reached would have earned. */
  function TrueR(held: seq<Candle>, paths: seq<seq<real>>, entry: real, stopPct: real, targetPct: real): real
    requires held != [] && entry != 0.0 && stopPct != 0.0
  {
    FirstTouchR(Flatten(paths), StopPrice(entry, stopPct), TargetPrice(entry, targetPct), targetPct / stopPct)
    .GetOr(MarkToMarket(entry, held[|held| - 1].close, stopPct))
  }

  lemma {:induction false} UntouchedTicks(ticks: seq<real>, rest: seq<real>, stop: real, target: real, targetR: real)
    requires forall t :: t in ticks ==> target < t < stop
    ensures FirstTouchR(ticks + rest, stop, target, targetR) == FirstTouchR(rest, stop, target, targetR)
  {
    if ticks == [] {
      assert ticks + rest == rest;
    } else {
      assert ticks[0] in ticks;
      assert forall t :: t in ticks[1..] ==> t in ticks;
      UntouchedTicks(ticks[1..], rest, stop, target, targetR);
      assert (ticks + rest)[1..] == ticks[1..] + rest;
    }
  }

  lemma {:induction false} StopOnlyTicks(ticks: seq<real>, rest: seq<real>, hit: real, stop: real, target: real, targetR: real)
    requires hit in ticks && hit >= stop
    requires forall t :: t in ticks ==> target < t
    ensures FirstTouchR(ticks + rest, stop, target, targetR) == Some(-1.0)
  {
    assert ticks[0] in ticks;
    if ticks[0] < stop {
      assert forall t :: t in ticks[1..] ==> t in ticks;
      StopOnlyTicks(ticks[1..], rest, hit, stop, target, targetR);
      assert (ticks + rest)[1..] == ticks[1..] + rest;
    }
  }

  lemma {:induction false} TargetOnlyTicks(ticks: seq<real>, rest: seq<real>, hit: real, stop: real, target: real, targetR: real)
    requires hit in ticks && hit <= target
    requires forall t :: t in ticks ==> t < stop
    ensures FirstTouchR(ticks + rest, stop, target, targetR) == Some(targetR)
  {
    assert ticks[0] in ticks;
    if ticks[0] > target {
      assert forall t :: t in ticks[1..] ==> t in ticks;
      TargetOnlyTicks(ticks[1..], rest, hit, stop, target, targetR);
      assert (ticks + rest)[1..] == ticks[1..] + rest;
    }
  }

  lemma {:induction false} SomeTouch(ticks: seq<real>, rest: seq<real>, hit: real, stop: real, target: real, targetR: real)
    requires hit in ticks && (hit <= target || hit >= stop)
    ensures FirstTouchR(ticks + rest, stop, target, targetR) in {Some(-1.0), Some(targetR)}
  {
    if target < ticks[0] < stop {
      SomeTouch(ticks[1..], rest, hit, stop, target, targetR);
      assert (ticks + rest)[1..] == ticks[1..] + rest;
    }
  }

  /** For every tick path the recorded R is at most the true one, and equal unless one candle spanned both levels. */
  lemma {:induction false} ConservativeSettlement(held: seq<Candle>, paths: seq<seq<real>>, entry: real, stopPct: real, targetPct: real)
    requires held != [] && entry > 0.0 && stopPct > 0.0 && targetPct >= -stopPct
    requires ConsistentAll(held, paths)
    ensures var recorded := SettleHeld(held, entry, stopPct, targetPct);
            && recorded.r <= TrueR(held, paths, entry, stopPct, targetPct)
            && (recorded.reason != SameCandleConservativeLoss ==> recorded.r == TrueR(held, paths, entry, stopPct, targetPct))
  {
    var stop, target, targetR := StopPrice(entry, stopPct), TargetPrice(entry, targetPct), targetPct / stopPct;
    RewardAtLeastLoss(stopPct, targetPct);
    var c, ticks, rest := held[0], paths[0], Flatten(paths[1..]);
    assert Consistent(c, ticks);
    if HitsStop(c, stop) && HitsTarget(c, target) {
      SomeTouch(ticks, rest, c.low, stop, target, targetR);
    } else if HitsStop(c, stop) {
      StopOnlyTicks(ticks, rest, c.high, stop, target, targetR);
    } else if HitsTarget(c, target) {
      TargetOnlyTicks(ticks, rest, c.low, stop, target, targetR);
    } else {
      UntouchedTicks(ticks, rest, stop, target, targetR);
      if |held| > 1 {
        forall i | 0 <= i < |held[1..]| ensures Consistent(held[1..][i], paths[1..][i]) {
          assert Consistent(held[i + 1], paths[i + 1]);
        }
        ConservativeSettlement(held[1..], paths[1..], entry, stopPct, targetPct);
      } else {
        assert paths[1..] == [];
      }
    }
  }

  lemma RewardAtLeastLoss(stopPct: real, targetPct: real)
    requires stopPct > 0.0 && targetPct >= -stopPct
    ensures targetPct / stopPct >= -1.0
  {
    DivideLe(-stopPct, targetPct, stopPct);
  }

  // ----- exactly when the recorded R understates a path -----

  /** A candle that spans both levels without already opening at or above the stop. */
  predicate SpansBelowStop(c: Candle, stop: real, target: real) { HitsStop(c, stop) && HitsTarget(c, target) && c.open < stop }

  /** The first candle to touch a level is such a candle. */
  predicate Understated(held: seq<Candle>, entry: real, stopPct: real, targetPct: real) {
    var stop, target := StopPrice(entry, stopPct), TargetPrice(entry, targetPct);
    exists j :: 0 <= j < |held| && SpansBelowStop(held[j], stop, target) && forall i :: 0 <= i < j ==> !Touches(held[i], stop, target)
  }

  lemma UnderstatedStep(held: seq<Candle>, entry: real, stopPct: real, targetPct: real)
    requires held != []
    ensures var stop, target := StopPrice(entry, stopPct), TargetPrice(entry, targetPct);
            Understated(held, entry, stopPct, targetPct) <==>
            if Touches(held[0], stop, target) then SpansBelowStop(held[0], stop, target)
            else Understated(held[1..], entry, stopPct, targetPct)
  {
    var stop, target := StopPrice(entry, stopPct), TargetPrice(entry, targetPct);
    hide StopPrice, TargetPrice;
    if Understated(held, entry, stopPct, targetPct) {
      var j :| 0 <= j < |held| && SpansBelowStop(held[j], stop, target) && forall i :: 0 <= i < j ==> !Touches(held[i], stop, target);
      if j > 0 {
        assert held[1..][j - 1] == held[j];
        assert forall i :: 0 <= i < j - 1 ==> held[1..][i] == held[i + 1];
      }
    }
    if Understated(held[1..], entry, stopPct, targetPct) && !Touches(held[0], stop, target) {
      var j :| 0 <= j < |held[1..]| && SpansBelowStop(held[1..][j], stop, target)
               && forall i :: 0 <= i < j ==> !Touches(held[1..][i], stop, target);
      assert held[j + 1] == held[1..][j];
      forall i | 0 <= i < j + 1
        ensures !Touches(held[i], stop, target)
      {
        if i > 0 { assert held[i] == held[1..][i - 1]; }
      }
    }
  }

  lemma TargetBelowStop(entry: real, stopPct: real, targetPct: real)
    requires entry > 0.0 && stopPct > 0.0 && targetPct > -stopPct
    ensures TargetPrice(entry, targetPct) < StopPrice(entry, stopPct) && targetPct / stopPct > -1.0
  {
    assert StopPrice(entry, stopPct) - TargetPrice(entry, targetPct) == entry * ((stopPct + targetPct) / 100.0);
    assert entry * ((stopPct + targetPct) / 100.0) > 0.0;
    assert (targetPct / stopPct + 1.0) * stopPct == targetPct + stopPct;
  }

  /** Straight to the low, then to the high: the path that favours a short. */
  function LowFirst(c: Candle): seq<real> { [c.open, c.low, c.high, c.close] }

  lemma LowFirstIsConsistent(c: Candle)
    requires WellFormed(c)
    ensures Consistent(c, LowFirst(c))
  {
    var ticks := LowFirst(c);
    assert ticks[1] == c.low && ticks[2] == c.high;
  }

  lemma LowFirstWins(c: Candle, rest: seq<real>, stop: real, target: real, targetR: real)
    requires SpansBelowStop(c, stop, target) && target < stop
    ensures FirstTouchR(LowFirst(c) + rest, stop, target, targetR) == Some(targetR)
  {
    var ticks := LowFirst(c) + rest;
    assert ticks[0] == c.open && ticks[1..][0] == c.low;
    assert FirstTouchR(ticks[1..], stop, target, targetR) == Some(targetR);
  }

  function LowFirstPaths(held: seq<Candle>): (paths: seq<seq<real>>)
    ensures |paths| == |held|
  {
    seq(|held|, i requires 0 <= i < |held| => LowFirst(held[i]))
  }

  /** When the first touching candle spans both levels from below the stop, the low-first paths win the full target. */
  lemma {:induction false} LowFirstPathsWin(held: seq<Candle>, entry: real, stopPct: real, targetPct: real)
    requires held != [] && entry > 0.0 && stopPct > 0.0 && targetPct > -stopPct
    requires forall c :: c in held ==> WellFormed(c)
    requires Understated(held, entry, stopPct, targetPct)
    ensures TrueR(held, LowFirstPaths(held), entry, stopPct, targetPct) == targetPct / stopPct
    ensures SettleHeld(held, entry, stopPct, targetPct).r == -1.0
  {
    var stop, target, targetR := StopPrice(entry, stopPct), TargetPrice(entry, targetPct), targetPct / stopPct;
    TargetBelowStop(entry, stopPct, targetPct);
    UnderstatedStep(held, entry, stopPct, targetPct);
    var paths, rest := LowFirstPaths(held), LowFirstPaths(held[1..]);
    assert paths[1..] == rest && paths[0] == LowFirst(held[0]);
    hide StopPrice, TargetPrice, Understated;
    if Touches(held[0], stop, target) {
      LowFirstWins(held[0], Flatten(rest), stop, target, targetR);
    } else {
      assert held[1..] != [] by { if held[1..] == [] { NeverUnderstated(entry, stopPct, targetPct); } }
      LowFirstPathsWin(held[1..], entry, stopPct, targetPct);
      LowFirstIsConsistent(held[0]);
      UntouchedTicks(LowFirst(held[0]), Flatten(rest), stop, target, targetR);
    }
  }

  lemma NeverUnderstated(entry: real, stopPct: real, targetPct: real)
    ensures !Understated([], entry, stopPct, targetPct)
  {
  }

  /** Otherwise every consistent family of paths earns exactly the recorded R. */
  lemma {:induction false} OtherwiseExact(held: seq<Candle>, paths: seq<seq<real>>, entry: real, stopPct: real, targetPct: real)
    requires held != [] && entry > 0.0 && stopPct > 0.0 && targetPct > -stopPct
    requires ConsistentAll(held, paths) && !Understated(held, entry, stopPct, targetPct)
    ensures TrueR(held, paths, entry, stopPct, targetPct) == SettleHeld(held, entry, stopPct, targetPct).r
  {
    var stop, target, targetR := StopPrice(entry, stopPct), TargetPrice(entry, targetPct), targetPct / stopPct;
    UnderstatedStep(held, entry, stopPct, targetPct);
    var c, ticks, rest := held[0], paths[0], Flatten(paths[1..]);
    assert Consistent(c, ticks);
    hide StopPrice, TargetPrice, Understated;
    if HitsStop(c, stop) && HitsTarget(c, target) {
      assert (ticks + rest)[0] == c.open;
    } else if Touches(c, stop, target) {
      ConservativeSettlement(held, paths, entry, stopPct, targetPct);
    } else {
      UntouchedTicks(ticks, rest, stop, target, targetR);
      if |held| > 1 {
        forall i | 0 <= i < |held[1..]| ensures Consistent(held[1..][i], paths[1..][i]) {
          assert Consistent(held[i + 1], paths[i + 1]);
        }
        OtherwiseExact(held[1..], paths[1..], entry, stopPct, targetPct);
      } else {
        assert paths[1..] == [];
      }
    }
  }

  /**
   The recorded R differs from the true one on some consistent family of paths exactly when the first candle to touch a
   level spans both and opens below the stop; on the low-first family it is then the full target against a full loss.
   */
  lemma UnderstatesExactly(held: seq<Candle>, entry: real, stopPct: real, targetPct: real)
    requires held != [] && entry > 0.0 && stopPct > 0.0 && targetPct > -stopPct
    requires forall c :: c in held ==> WellFormed(c)
    ensures (exists paths :: ConsistentAll(held, paths)
                             && TrueR(held, paths, entry, stopPct, targetPct) != SettleHeld(held, entry, stopPct, targetPct).r)
            <==> Understated(held, entry, stopPct, targetPct)
    ensures Understated(held, entry, stopPct, targetPct) ==>
              && ConsistentAll(held, LowFirstPaths(held))
              && TrueR(held, LowFirstPaths(held), entry, stopPct, targetPct) == targetPct / stopPct
              && SettleHeld(held, entry, stopPct, targetPct).r == -1.0
  {
    hide Understated, TrueR, SettleHeld;
    TargetBelowStop(entry, stopPct, targetPct);
    if Understated(held, entry, stopPct, targetPct) {
      LowFirstPathsWin(held, entry, stopPct, targetPct);
      forall i | 0 <= i < |held|
        ensures Consistent(held[i], LowFirstPaths(held)[i])
      {
        LowFirstIsConsistent(held[i]);
      }
      assert ConsistentAll(held, LowFirstPaths(held));
    } else {
      forall paths | ConsistentAll(held, paths)
        ensures TrueR(held, paths, entry, stopPct, targetPct) == SettleHeld(held, entry, stopPct, targetPct).r
      {
        OtherwiseExact(held, paths, entry, stopPct, targetPct);
      }
    }
  }

  // ----- range of the recorded R -----

  /** A close strictly between the two levels marks to strictly between the two settled results. */
  lemma MarkBetween(entry: real, close: real, stopPct: real, targetPct: real)
    requires entry > 0.0 && stopPct > 0.0
    requires TargetPrice(entry, targetPct) < close < StopPrice(entry, stopPct)
    ensures -1.0 < MarkToMarket(entry, close, stopPct) < targetPct / stopPct
  {
    var s, t := stopPct / 100.0, targetPct / 100.0;
    var x := (entry - close) / entry;
    assert x * entry == entry - close;
    assert entry * (1.0 + s) == entry + entry * s && entry * (1.0 - t) == entry - entry * t;
    assert (x + s) * entry > 0.0 && (t - x) * entry > 0.0;
    assert x > -s && x < t;
    QuotientBounds(x, s, t);
    assert t / s == targetPct / stopPct by { ScaledQuotient(targetPct, stopPct); }
  }

  lemma QuotientBounds(x: real, s: real, t: real)
    requires s > 0.0 && -s < x < t
    ensures -1.0 < x / s < t / s
  {
    assert (x / s) * s == x && (t / s) * s == t;
    assert (x / s + 1.0) * s > 0.0 && (t / s - x / s) * s > 0.0;
  }

  lemma ScaledQuotient(a: real, b: real)
    requires b != 0.0
    ensures (a / 100.0) / (b / 100.0) == a / b
  {
    assert (a / b) * (b / 100.0) == a / 100.0;
  }

  /** Every recorded R lies between a full loss and the full reward, before and after rounding to six digits. */
  lemma RecordedRange(held: seq<Candle>, entry: real, stopPct: real, targetPct: real)
    requires held != [] && entry > 0.0 && stopPct > 0.0 && targetPct >= -stopPct
    requires forall c :: c in held ==> WellFormed(c)
    ensures var r := SettleHeld(held, entry, stopPct, targetPct).r;
            && -1.0 <= r <= targetPct / stopPct
            && -1.0 <= Round(r, 1000000.0) <= Round(targetPct / stopPct, 1000000.0)
  {
    var j := FirstTouchDecides(held, entry, stopPct, targetPct);
    var stop, target := StopPrice(entry, stopPct), TargetPrice(entry, targetPct);
    RewardAtLeastLoss(stopPct, targetPct);
    var r := SettleHeld(held, entry, stopPct, targetPct).r;
    if !Touches(held[j], stop, target) {
      assert WellFormed(held[j]);
      MarkBetween(entry, held[j].close, stopPct, targetPct);
    }
    RoundMonotone(-1.0, r, 1000000.0);
    RoundMonotone(r, targetPct / stopPct, 1000000.0);
    assert Round(-1.0, 1000000.0) == -1.0;
  }
}
