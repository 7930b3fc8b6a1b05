/**
 The bounded recovery controller (scripts/verify_production_cutover.py, maybe_recover), over whole runs of checks.

 The clock never goes back, checks are serial, and the state file is read back as it was written.
 */
module Recovery {
  import opened Common

  const FAILURES_BEFORE_RECOVERY: int := 3
  const RECOVERY_COOLDOWN_SECONDS: real := 600.0
  const MAX_RECOVERIES_PER_HOUR: nat := 3
  const HOUR: real := 3600.0

  datatype State = State(failures: int, recoveries: seq<real>, lastRecoveryAt: real)

  /** What is read when there is no state file yet. */
  const INITIAL: State := State(0, [], 0.0)

  /** One invocation: the time, the health seen, and how the outside world would answer. */
  datatype Check = Check(now: real, healthy: bool, guardFree: bool, composeOk: bool, healthyAfter: bool)

  datatype Verdict =
    | Healthy | Failing(count: int) | Cooldown | BudgetExhausted | DeploymentInProgress | CommandFailed
    | Recovered | RecoveryUnhealthy

  predicate IsRecent(now: real, at: real) { now - at < HOUR }

  function Recent(times: seq<real>, now: real): seq<real> { Filter(times, at => IsRecent(now, at)) }

  function Judge(s: State, c: Check): Verdict {
    if c.healthy then Healthy
    else if s.failures + 1 < FAILURES_BEFORE_RECOVERY then Failing(s.failures + 1)
    else if c.now - s.lastRecoveryAt < RECOVERY_COOLDOWN_SECONDS then Cooldown
    else if |Recent(s.recoveries, c.now)| >= MAX_RECOVERIES_PER_HOUR then BudgetExhausted
    else if !c.guardFree then DeploymentInProgress
    else if !c.composeOk then CommandFailed
    else if c.healthyAfter then Recovered
    else RecoveryUnhealthy
  }

  predicate Success(v: Verdict) { v.Recovered? || v.RecoveryUnhealthy? }

  /** The compose command was run, whatever it returned. */
  predicate Attempt(v: Verdict) { Success(v) || v.CommandFailed? }

  function Next(s: State, c: Check): State {
    var kept := Recent(s.recoveries, c.now);
    if c.healthy then s.(failures := 0, recoveries := kept)
    else if Success(Judge(s, c)) then State(0, kept + [c.now], c.now)
    else s.(failures := s.failures + 1, recoveries := kept)
  }

  class StateFile {
    var failures: int
    var recoveries: seq<real>
    var lastRecoveryAt: real

    function Contents(): State
      reads this
    {
      State(failures, recoveries, lastRecoveryAt)
    }

    constructor ()
      ensures Contents() == INITIAL
    {
      failures, recoveries, lastRecoveryAt := 0, [], 0.0;
    }

    method MaybeRecover(c: Check) returns (healthy: bool, verdict: Verdict)
      modifies this
      ensures verdict == Judge(old(Contents()), c) && Contents() == Next(old(Contents()), c)
      ensures healthy <==> verdict in {Healthy, Recovered}
    {
      recoveries := KeepRecent(recoveries, c.now);
      if c.healthy {
        failures := 0;
        return true, Healthy;
      }
      failures := failures + 1;
      if failures < FAILURES_BEFORE_RECOVERY {
        return false, Failing(failures);
      }
      if c.now - lastRecoveryAt < RECOVERY_COOLDOWN_SECONDS {
        return false, Cooldown;
      }
      if |recoveries| >= MAX_RECOVERIES_PER_HOUR {
        return false, BudgetExhausted;
      }
      if !c.guardFree {
        return false, DeploymentInProgress;
      }
      if !c.composeOk {
        return false, CommandFailed;
      }
      recoveries := recoveries + [c.now];
      failures, lastRecoveryAt := 0, c.now;
      return c.healthyAfter, if c.healthyAfter then Recovered else RecoveryUnhealthy;
    }
  }

  method KeepRecent(times: seq<real>, now: real) returns (kept: seq<real>)
    ensures kept == Recent(times, now)
  {
    kept := [];
    for k := 0 to |times|
      invariant kept == Recent(times[..k], now)
    {
      RecentSnoc(times, k, now);
      if IsRecent(now, times[k]) {
        kept := kept + [times[k]];
      }
    }
    assert times[..|times|] == times;
  }

  lemma RecentSnoc(times: seq<real>, k: nat, now: real)
    requires k < |times|
    ensures Recent(times[..k + 1], now) == Recent(times[..k], now) + (if IsRecent(now, times[k]) then [times[k]] else [])
  {
    assert times[..k + 1][..k] == times[..k];
  }

  // ----- whole runs -----

  predicate ClockRuns(checks: seq<Check>) { forall i, j :: 0 <= i < j < |checks| ==> checks[i].now <= checks[j].now }

  function StateAfter(checks: seq<Check>, n: nat): State
    requires n <= |checks|
  {
    if n == 0 then INITIAL else Next(StateAfter(checks, n - 1), checks[n - 1])
  }

  function VerdictAt(checks: seq<Check>, i: nat): Verdict
    requires i < |checks|
  {
    Judge(StateAfter(checks, i), checks[i])
  }

  predicate Succeeds(checks: seq<Check>, i: nat)
    requires i < |checks|
  {
    Success(VerdictAt(checks, i))
  }

  /** The history a reader of the run sees: unhealthy checks since the last healthy one or the last recovery. */
  function Streak(checks: seq<Check>, n: nat): nat
    requires n <= |checks|
  {
    if n == 0 || checks[n - 1].healthy || Succeeds(checks, n - 1) then 0 else Streak(checks, n - 1) + 1
  }

  /** The times of all recoveries so far. */
  function Times(checks: seq<Check>, n: nat): seq<real>
    requires n <= |checks|
  {
    if n == 0 then []
    else if Succeeds(checks, n - 1) then Times(checks, n - 1) + [checks[n - 1].now]
    else Times(checks, n - 1)
  }

  function LastTime(times: seq<real>): real { if times == [] then 0.0 else times[|times| - 1] }

  /** Forgetting what is already too old changes no later answer. */
  lemma {:induction false} RecentRecent(times: seq<real>, then_: real, now: real)
    requires then_ <= now
    ensures Recent(Recent(times, then_), now) == Recent(times, now)
  {
    FilterFilter(times, at => IsRecent(then_, at), at => IsRecent(now, at), at => IsRecent(now, at));
  }

  lemma RecentAppend(a: seq<real>, b: seq<real>, now: real)
    ensures Recent(a + b, now) == Recent(a, now) + Recent(b, now)
  {
    FilterAppend(a, b, at => IsRecent(now, at));
  }

  lemma PruneAndAdd(file: seq<real>, history: seq<real>, added: seq<real>, at: real, now: real)
    requires at <= now && Recent(file, now) == Recent(history, now)
    ensures Recent(Recent(file, at) + added, now) == Recent(history + added, now)
  {
    hide Recent;
    RecentRecent(file, at, now);
    RecentAppend(Recent(file, at), added, now);
    RecentAppend(history, added, now);
  }

  lemma NextCases(s: State, c: Check)
    ensures Success(Judge(s, c)) ==> !c.healthy && Next(s, c) == State(0, Recent(s.recoveries, c.now) + [c.now], c.now)
    ensures !Success(Judge(s, c)) ==>
              Next(s, c) == State(if c.healthy then 0 else s.failures + 1, Recent(s.recoveries, c.now), s.lastRecoveryAt)
  {
    hide Recent;
  }

  /** The pruned file content answers every later check as the full history would. */
  lemma {:induction false} FileIsHistory(checks: seq<Check>, n: nat, now: real)
    requires ClockRuns(checks) && n <= |checks| && (n > 0 ==> checks[n - 1].now <= now)
    ensures StateAfter(checks, n).failures == Streak(checks, n)
    ensures StateAfter(checks, n).lastRecoveryAt == LastTime(Times(checks, n))
    ensures Recent(StateAfter(checks, n).recoveries, now) == Recent(Times(checks, n), now)
  {
    hide Recent, Judge, Next, Success;
    if n > 0 {
      var s, c, history := StateAfter(checks, n - 1), checks[n - 1], Times(checks, n - 1);
      FileIsHistory(checks, n - 1, now);
      NextCases(s, c);
      if Succeeds(checks, n - 1) {
        PruneAndAdd(s.recoveries, history, [c.now], c.now, now);
      } else {
        RecentRecent(s.recoveries, c.now, now);
      }
    }
  }

  /** What maybe_recover decides, in terms of the history alone. */
  predicate MayRecover(checks: seq<Check>, i: nat)
    requires i < |checks|
  {
    && !checks[i].healthy && Streak(checks, i) + 1 >= FAILURES_BEFORE_RECOVERY
    && checks[i].now - LastTime(Times(checks, i)) >= RECOVERY_COOLDOWN_SECONDS
    && |Recent(Times(checks, i), checks[i].now)| < MAX_RECOVERIES_PER_HOUR
    && checks[i].guardFree
  }

  /** The compose command runs exactly when the history allows it, and counts as a recovery exactly when it succeeds. */
  lemma RecoversExactly(checks: seq<Check>, i: nat)
    requires ClockRuns(checks) && i < |checks|
    ensures Attempt(VerdictAt(checks, i)) <==> MayRecover(checks, i)
    ensures Succeeds(checks, i) <==> MayRecover(checks, i) && checks[i].composeOk
  {
    FileIsHistory(checks, i, checks[i].now);
    hide Recent, Times, Streak, StateAfter;
  }

  /** The streak counts the checks since the last healthy one or the last recovery, none of which is either. */
  lemma {:induction false} StreakMeans(checks: seq<Check>, n: nat)
    requires n <= |checks|
    ensures var k := Streak(checks, n);
            && k <= n && (forall i :: n - k <= i < n ==> !checks[i].healthy && !Succeeds(checks, i))
            && (k < n ==> checks[n - k - 1].healthy || Succeeds(checks, n - k - 1))
  {
    hide Succeeds;
    if n > 0 && Streak(checks, n) > 0 {
      StreakMeans(checks, n - 1);
    }
  }

  /** Every verdict, in terms of the run alone: its streak, its last recovery and its recoveries within the hour. */
  lemma VerdictMeans(checks: seq<Check>, i: nat)
    requires ClockRuns(checks) && i < |checks|
    ensures var c, count := checks[i], Streak(checks, i) + 1;
            VerdictAt(checks, i) ==
            if c.healthy then Healthy
            else if count <= 2 then Failing(count)
            else if c.now - LastTime(Times(checks, i)) < 600.0 then Cooldown
            else if |SuccessesIn(checks, i, c.now - 3600.0)| > 2 then BudgetExhausted
            else if !c.guardFree then DeploymentInProgress
            else if !c.composeOk then CommandFailed
            else if c.healthyAfter then Recovered
            else RecoveryUnhealthy
  {
    hide Recent, Times, Streak, StateAfter, SuccessesIn, Succeeds;
    FileIsHistory(checks, i, checks[i].now);
    RecentCounts(checks, i, checks[i].now);
  }

  // ----- the budget -----

  /** The latest recovery is no older than any recovery of the run. */
  lemma {:induction false} LastIsLatest(checks: seq<Check>, i: nat, n: nat)
    requires ClockRuns(checks) && i < n <= |checks| && Succeeds(checks, i)
    ensures Times(checks, n) != [] && LastTime(Times(checks, n)) >= checks[i].now
  {
    hide Succeeds;
    if i < n - 1 {
      LastIsLatest(checks, i, n - 1);
    }
  }

  /** Two recoveries are at least the cooldown apart. */
  lemma RecoveriesAreSpaced(checks: seq<Check>, i: nat, j: nat)
    requires ClockRuns(checks) && i < j < |checks| && Succeeds(checks, i) && Succeeds(checks, j)
    ensures checks[j].now - checks[i].now >= RECOVERY_COOLDOWN_SECONDS
  {
    hide VerdictAt, Streak, Recent, Times;
    RecoversExactly(checks, j);
    LastIsLatest(checks, i, j);
  }

  /** Each recovery ends a streak of at least three unhealthy checks without a recovery among the earlier ones. */
  lemma RecoveriesAreEarned(checks: seq<Check>, i: nat)
    requires ClockRuns(checks) && i < |checks| && Succeeds(checks, i)
    ensures i >= 2 && forall k :: i - 2 <= k <= i ==> !checks[k].healthy && (k < i ==> !Succeeds(checks, k))
  {
    RecoversExactly(checks, i);
    hide VerdictAt, Recent, Times;
    assert Streak(checks, i) >= 2;
  }

  function SuccessesIn(checks: seq<Check>, n: nat, from: real): set<nat>
    requires n <= |checks|
  {
    set i: nat | i < n && Succeeds(checks, i) && checks[i].now > from
  }

  lemma SuccessesStep(checks: seq<Check>, n: nat, from: real)
    requires 0 < n <= |checks|
    ensures SuccessesIn(checks, n, from) ==
            SuccessesIn(checks, n - 1, from) + (if Succeeds(checks, n - 1) && checks[n - 1].now > from then {n - 1} else {})
  {
    hide Succeeds;
  }

  /** Recoveries less than an hour old, counted in the run and in the history. */
  lemma {:induction false} RecentCounts(checks: seq<Check>, n: nat, now: real)
    requires n <= |checks|
    ensures |SuccessesIn(checks, n, now - HOUR)| == |Recent(Times(checks, n), now)|
  {
    hide Succeeds, Recent;
    EmptyRecent(now);
    if n > 0 {
      RecentCounts(checks, n - 1, now);
      SuccessesStep(checks, n, now - HOUR);
      assert n - 1 !in SuccessesIn(checks, n - 1, now - HOUR);
      RecentAppend(Times(checks, n - 1), [checks[n - 1].now], now);
      RecentOfOne(checks[n - 1].now, now);
    }
  }

  lemma EmptyRecent(now: real)
    ensures Recent([], now) == []
  {
  }

  lemma RecentOfOne(at: real, now: real)
    ensures Recent([at], now) == if IsRecent(now, at) then [at] else []
  {
    assert [at][..0] == [];
  }

  /** The recoveries in a window that starts at `start`. */
  function Window(checks: seq<Check>, n: nat, start: real): set<nat>
    requires n <= |checks|
  {
    set i: nat | i < n && Succeeds(checks, i) && start <= checks[i].now < start + HOUR
  }

  lemma WindowStep(checks: seq<Check>, n: nat, start: real)
    requires 0 < n <= |checks|
    ensures Window(checks, n, start) ==
            if Succeeds(checks, n - 1) && start <= checks[n - 1].now < start + HOUR then Window(checks, n - 1, start) + {n - 1}
            else Window(checks, n - 1, start)
  {
    hide Succeeds;
  }

  lemma WindowIsRecent(checks: seq<Check>, n: nat, start: real)
    requires n < |checks| && checks[n].now < start + HOUR
    ensures Window(checks, n, start) <= SuccessesIn(checks, n, checks[n].now - HOUR)
  {
    hide Succeeds;
  }

  /** Over any run, no half-open window of an hour contains more than three recoveries. */
  lemma {:induction false} BudgetHolds(checks: seq<Check>, n: nat, start: real)
    requires ClockRuns(checks) && n <= |checks|
    ensures |Window(checks, n, start)| <= MAX_RECOVERIES_PER_HOUR
  {
    hide Succeeds, Recent, Times, Streak, VerdictAt, SuccessesIn;
    if n > 0 {
      var last := n - 1;
      BudgetHolds(checks, last, start);
      WindowStep(checks, n, start);
      if Succeeds(checks, last) && start <= checks[last].now < start + HOUR {
        RecoversExactly(checks, last);
        RecentCounts(checks, last, checks[last].now);
        WindowIsRecent(checks, last, start);
        hide Window;
        SubsetSize(Window(checks, last, start), SuccessesIn(checks, last, checks[last].now - HOUR));
      }
    }
  }

  lemma {:induction false} SubsetSize(a: set<nat>, b: set<nat>)
    requires a <= b
    ensures |a| <= |b|
  {
    if a != {} {
      var x :| x in a;
      SubsetSize(a - {x}, b - {x});
    }
  }

  // ----- what the budget does not cover -----

  /** From check `from` on nothing is healthy, no deployment runs and the command always fails. */
  predicate FailingFrom(checks: seq<Check>, from: nat) {
    forall k :: from <= k < |checks| ==> !checks[k].healthy && checks[k].guardFree && !checks[k].composeOk
  }

  /** A failing spell adds to the streak and leaves the recorded recoveries as they were. */
  lemma {:induction false} SpellKeepsHistory(checks: seq<Check>, from: nat, i: nat)
    requires FailingFrom(checks, from) && from <= i <= |checks|
    ensures Times(checks, i) == Times(checks, from) && Streak(checks, i) >= i - from
  {
    hide Succeeds;
    if from < i {
      SpellKeepsHistory(checks, from, i - 1);
      FailedIsNoSuccess(checks, i - 1);
    }
  }

  lemma FailedIsNoSuccess(checks: seq<Check>, i: nat)
    requires i < |checks| && !checks[i].composeOk
    ensures !Succeeds(checks, i)
  {
    hide StateAfter, Recent;
  }

  /**
   A command that fails is not budgeted. In a failing spell, whatever the run before it, the command runs at every check
   from the third on, once the last recovery has cooled down and the hour before it holds fewer than three.
   */
  lemma FailingComposeIsUnbounded(checks: seq<Check>, from: nat, i: nat)
    requires ClockRuns(checks) && FailingFrom(checks, from) && from + 2 <= i < |checks|
    ensures VerdictAt(checks, i) == CommandFailed
            <==> && checks[i].now - LastTime(Times(checks, from)) >= RECOVERY_COOLDOWN_SECONDS
                 && |Recent(Times(checks, from), checks[i].now)| < MAX_RECOVERIES_PER_HOUR
  {
    SpellKeepsHistory(checks, from, i);
    UncountedExactly(checks, i);
    hide Recent, Times, Streak, VerdictAt;
  }

  /** A whole run of failing checks runs the command at every check from the third on, however many fall into one hour. */
  lemma EveryFailingCheckRunsTheCommand(checks: seq<Check>, i: nat)
    requires ClockRuns(checks) && FailingFrom(checks, 0) && 2 <= i < |checks| && checks[i].now >= RECOVERY_COOLDOWN_SECONDS
    ensures VerdictAt(checks, i) == CommandFailed
  {
    FailingComposeIsUnbounded(checks, 0, i);
    EmptyRecent(checks[i].now);
    hide Recent, VerdictAt;
  }

  /** An attempt goes uncounted exactly when the history allows it and the command fails. */
  lemma UncountedExactly(checks: seq<Check>, i: nat)
    requires ClockRuns(checks) && i < |checks|
    ensures VerdictAt(checks, i) == CommandFailed <==> MayRecover(checks, i) && !checks[i].composeOk
  {
    RecoversExactly(checks, i);
    hide MayRecover, StateAfter, Recent;
  }

  function AttemptsIn(checks: seq<Check>, n: nat, start: real): set<nat>
    requires n <= |checks|
  {
    set i: nat | i < n && Attempt(VerdictAt(checks, i)) && start <= checks[i].now < start + HOUR
  }

  function FailedIn(checks: seq<Check>, n: nat, start: real): set<nat>
    requires n <= |checks|
  {
    set i: nat | i < n && VerdictAt(checks, i) == CommandFailed && start <= checks[i].now < start + HOUR
  }

  /** An hour holds at most three attempts besides the failed ones, so at most three when every attempt succeeds. */
  lemma AttemptsAreBoundedByFailures(checks: seq<Check>, n: nat, start: real)
    requires ClockRuns(checks) && n <= |checks|
    ensures |AttemptsIn(checks, n, start)| <= MAX_RECOVERIES_PER_HOUR + |FailedIn(checks, n, start)|
    ensures (forall i :: i in AttemptsIn(checks, n, start) ==> Succeeds(checks, i))
            ==> |AttemptsIn(checks, n, start)| <= MAX_RECOVERIES_PER_HOUR
  {
    BudgetHolds(checks, n, start);
    hide VerdictAt;
    var window, failed := Window(checks, n, start), FailedIn(checks, n, start);
    assert AttemptsIn(checks, n, start) == window + failed;
    assert window !! failed;
    if forall i :: i in AttemptsIn(checks, n, start) ==> Succeeds(checks, i) {
      assert AttemptsIn(checks, n, start) <= window;
      SubsetSize(AttemptsIn(checks, n, start), window);
    }
  }
}
