/** What the trigger calibration keeps, refuses and selects (scripts/calibrate_waterfall.py). */
module TriggerExactness {
  import opened Common
  import opened Trades
  import opened Metrics
  import opened Replay
  import opened WalkForward
  import opened CalibrationExactness
  import opened WalkForwardExactness
  import Trigger = CalibrateWaterfall

  // ----- pools -----

  ghost function HoursMs(hours: Option<real>): real { if hours.Some? && hours.value > 0.0 then hours.value * 3600000.0 else 0.0 }

  lemma CooldownMeans(hours: Option<real>)
    ensures CooldownMs(hours) == HoursMs(hours)
  {
  }

  /** Configuration k is the last one of its name. */
  ghost predicate LastNamed(configurations: seq<Trigger.Configuration>, k: nat, name: string) {
    k < |configurations| && configurations[k].name == name && forall j :: k < j < |configurations| ==> configurations[j].name != name
  }

  lemma {:induction false} PoolOfName(trades: seq<Trade>, cooldown: real, configurations: seq<Trigger.Configuration>, k: nat, name: string)
    requires LastNamed(configurations, k, name)
    ensures name in Trigger.ByConfiguration(trades, cooldown, configurations)
    ensures Trigger.ByConfiguration(trades, cooldown, configurations)[name] == Trigger.ConfigurationTrades(trades, cooldown, configurations[k])
  {
    hide Trigger.ConfigurationTrades;
    var n := |configurations| - 1;
    if k < n { PoolOfName(trades, cooldown, configurations[..n], k, name); }
  }

  /** Trades of one symbol are at least the cooldown apart, none at a negative time. */
  ghost predicate Apart(kept: seq<Trade>, cooldown: real) {
    && (forall t :: t in kept ==> t.timestamp >= 0)
    && forall i, j :: 0 <= i < j < |kept| && kept[i].symbol == kept[j].symbol ==>
         kept[i].timestamp as real + cooldown <= kept[j].timestamp as real
  }

  lemma PoolIsApart(passing: seq<Trade>, cooldown: real)
    requires cooldown >= 0.0
    ensures Apart(ReplayPool(passing, cooldown), cooldown)
  {
    hide Replay.Run, SortBy;
    KeptAreSpaced(SortBy(passing, TimeSymbolLe), cooldown);
  }

  /**
   Of a name the calibration keeps pool trades whose required flags are all recorded true, a cooldown apart by symbol, and
   drops such a trade only for a negative time or within the cooldown of a kept one.
   */
  lemma KeptExactly(report: Trigger.Report, configurations: seq<Trigger.Configuration>, k: nat, name: string, t: Trade)
    requires LastNamed(configurations, k, name)
    ensures var kept, cooldown := Kept(report, configurations, name), HoursMs(report.cooldownHours);
            && Apart(kept, cooldown)
            && (t in kept ==> t in report.trades && Fires(t, configurations[k]))
            && (t in report.trades && Fires(t, configurations[k]) && t !in kept ==>
                  t.timestamp < 0 || exists u :: u in kept && Blocks(u, t, cooldown))
  {
    hide Trigger.ByConfiguration, Fires, Blocks, Apart, Replay.ReplayPool;
    CooldownMeans(report.cooldownHours);
    PoolOfName(report.trades, CooldownMs(report.cooldownHours), configurations, k, name);
    KeptMeans(report.trades, CooldownMs(report.cooldownHours), configurations[k], t);
    PoolIsApart(Trigger.Passing(report.trades, configurations[k].requirements), CooldownMs(report.cooldownHours));
  }

  // ----- refusals -----

  /**
   The calibration refuses, in order, an empty window or an incomplete pool, a report without the guardrail, a report
   without a hold of at least an hour, development too short to split, and folds no longer than the hold; nothing else.
   */
  lemma RefusesExactly(report: Trigger.Report, configurations: seq<Trigger.Configuration>, minimumValidation: int, minimumFold: int)
    returns (first: int, width: int)
    ensures Divides(report.start, HoldoutStart(report.start, report.end), 3, 0.5, first, width)
    ensures var result, end := Trigger.Calibrated(report, configurations, minimumValidation, minimumFold), HoldoutStart(report.start, report.end);
            if report.start >= report.end || !report.candidatePoolComplete then result == Err(Trigger.NotACompletePool)
            else if report.promotionPermitted != Some(false) then result == Err(Trigger.NoGuardrail)
            else if report.holdHours.None? || report.holdHours.value < 1 then result == Err(Trigger.NoHorizon)
            else if end == report.start then
              result == if configurations == [] then Err(Trigger.BadWindows(InvalidWindow)) else Err(Trigger.BadSplit(InvalidResearchWindow))
            else if width <= report.holdHours.value * 3_600_000 then result == Err(Trigger.BadWindows(FoldsTooShort))
            else result.Ok?
  {
    hide Trigger.ByConfiguration, Trigger.Reports, Trigger.Entries, Trigger.Rejections, Trigger.InnerFrom, WalkForwardOf, Windows, Divides,
      Trigger.HoldoutOf, Trigger.Agreement;
    var end := HoldoutStart(report.start, report.end);
    var horizon := if report.holdHours.Some? then report.holdHours.value * 3_600_000 else 0;
    first, width := WindowsMean(report.start, end, horizon, 3, 0.5);
    WalkForwardWindows(Trigger.ByConfiguration(report.trades, CooldownMs(report.cooldownHours), configurations),
                       Trigger.Items(configurations), report.start, end, horizon, 3, minimumFold);
  }

  // ----- inner validation -----

  /** What ranks a configuration in inner validation. */
  ghost function InnerStanding(report: Trigger.Report, configurations: seq<Trigger.Configuration>, c: Trigger.Configuration): Candidate
    requires report.holdHours.Some?
  {
    Candidate(1, 1, ValidationOf(report, configurations, c.name), c.complexity)
  }

  ghost predicate Qualified(report: Trigger.Report, configurations: seq<Trigger.Configuration>, minimum: int, c: Trigger.Configuration)
    requires report.holdHours.Some?
  {
    c in configurations && Profitable(ValidationOf(report, configurations, c.name), minimum)
  }

  /** Configuration c is profitable in validation, and no profitable one stands better; equals go by name. */
  ghost predicate InnerBest(report: Trigger.Report, configurations: seq<Trigger.Configuration>, minimum: int, c: Trigger.Configuration)
    requires report.holdHours.Some?
  {
    && Qualified(report, configurations, minimum, c)
    && forall d :: Qualified(report, configurations, minimum, d) ==>
         BeatsOrTies(InnerStanding(report, configurations, c), c.name, InnerStanding(report, configurations, d), d.name)
  }

  lemma JudgeRank(validation: seq<Trade>, c: Trigger.Configuration, minimum: int)
    ensures Trigger.Judge(validation, c, minimum).Kept? ==>
              Trigger.Judge(validation, c, minimum).entry.ranked ==
              Ranked(SelectionKey(Candidate(1, 1, NetPerformance(validation), c.complexity)), c.name)
  {
    hide PerformanceOf, SelectionKey;
  }

  /** A configuration's entry, when it has one, is its validation figures under its standing. */
  ghost predicate EntryOf(
    report: Trigger.Report, configurations: seq<Trigger.Configuration>, minimum: int, c: Trigger.Configuration, e: Trigger.Entry)
    requires report.holdHours.Some?
  {
    && Qualified(report, configurations, minimum, c) && e.performance == ValidationOf(report, configurations, c.name)
    && e.ranked == Ranked(SelectionKey(InnerStanding(report, configurations, c)), c.name)
  }

  ghost predicate Divisible(report: Trigger.Report) {
    report.holdHours.Some? && report.holdHours.value >= 0 && report.start < HoldoutStart(report.start, report.end)
  }

  lemma VerdictMeans(report: Trigger.Report, configurations: seq<Trigger.Configuration>, minimum: int, c: Trigger.Configuration)
    requires Divisible(report) && c in configurations
    ensures var byName := Trigger.ByConfiguration(report.trades, CooldownMs(report.cooldownHours), configurations);
            var verdict := Trigger.JudgeNamed(byName, c, report.start, HoldoutStart(report.start, report.end),
                                              report.holdHours.value * 3_600_000, minimum);
            var v := ValidationOf(report, configurations, c.name);
            && (verdict.Kept? <==> Profitable(v, minimum))
            && (verdict.Kept? ==> EntryOf(report, configurations, minimum, c, verdict.entry))
            && (verdict.Rejected? ==>
                  verdict.reason == if v.Unavailable? || v.sampleSize < minimum then Trigger.InsufficientSample else Trigger.NotPositive)
  {
    hide Trigger.ByConfiguration, SplitsOf, PerformanceOf, SelectionKey, Inside;
    var byName := Trigger.ByConfiguration(report.trades, CooldownMs(report.cooldownHours), configurations);
    var start, end, horizon := report.start, HoldoutStart(report.start, report.end), report.holdHours.value * 3_600_000;
    ValidationMeans(TradesOf(byName, c.name), start, end, horizon);
    JudgeRank(SplitsOf(TradesOf(byName, c.name), start, end, horizon).validation, c, minimum);
  }

  lemma {:induction false} EntriesMean(
    report: Trigger.Report, configurations: seq<Trigger.Configuration>, given: seq<Trigger.Configuration>, minimum: int, e: Trigger.Entry)
    requires Divisible(report) && forall c :: c in given ==> c in configurations
    ensures var byName := Trigger.ByConfiguration(report.trades, CooldownMs(report.cooldownHours), configurations);
            e in Trigger.Entries(byName, given, report.start, HoldoutStart(report.start, report.end),
                                 report.holdHours.value * 3_600_000, minimum) <==>
            exists c :: c in given && EntryOf(report, configurations, minimum, c, e)
  {
    hide Trigger.ByConfiguration, Trigger.JudgeNamed, EntryOf, ValidationOf, Profitable, HoldoutStart;
    if given != [] {
      var n := |given| - 1;
      assert given[n] in given;
      EntriesMean(report, configurations, given[..n], minimum, e);
      VerdictMeans(report, configurations, minimum, given[n]);
      assert forall c :: c in given <==> c in given[..n] || c == given[n];
      OneEntry(report, configurations, minimum, given[n]);
    }
  }

  lemma OneEntry(report: Trigger.Report, configurations: seq<Trigger.Configuration>, minimum: int, c: Trigger.Configuration)
    requires report.holdHours.Some?
    ensures forall e, f :: EntryOf(report, configurations, minimum, c, e) && EntryOf(report, configurations, minimum, c, f) ==> e == f
    ensures forall e :: EntryOf(report, configurations, minimum, c, e) ==>
              Profitable(ValidationOf(report, configurations, c.name), minimum) && e.ranked.name == c.name
  {
    hide ValidationOf, SelectionKey, Profitable;
  }

  lemma EntryExists(report: Trigger.Report, configurations: seq<Trigger.Configuration>, minimum: int, c: Trigger.Configuration)
    returns (e: Trigger.Entry)
    requires report.holdHours.Some? && Qualified(report, configurations, minimum, c)
    ensures EntryOf(report, configurations, minimum, c, e)
  {
    hide ValidationOf, SelectionKey, Profitable;
    var v := ValidationOf(report, configurations, c.name);
    e := Trigger.Entry(Ranked(SelectionKey(InnerStanding(report, configurations, c)), c.name), v);
  }

  lemma ProfitableIsUsable(p: Performance, minimum: int, complexity: int)
    ensures Profitable(p, minimum) ==> Usable(Candidate(1, 1, p, complexity))
  {
  }

  lemma EntryBeats(
    report: Trigger.Report, configurations: seq<Trigger.Configuration>, minimum: int,
    c: Trigger.Configuration, d: Trigger.Configuration, e: Trigger.Entry, f: Trigger.Entry)
    requires report.holdHours.Some? && EntryOf(report, configurations, minimum, c, e) && EntryOf(report, configurations, minimum, d, f)
    requires RankedLe(e.ranked, f.ranked)
    ensures BeatsOrTies(InnerStanding(report, configurations, c), c.name, InnerStanding(report, configurations, d), d.name)
  {
    hide ValidationOf, SelectionKey, Profitable, RankedLe, Better, Usable, StringLe;
    ProfitableIsUsable(ValidationOf(report, configurations, c.name), minimum, c.complexity);
    ProfitableIsUsable(ValidationOf(report, configurations, d.name), minimum, d.complexity);
    LowerIsNotBetter(InnerStanding(report, configurations, c), InnerStanding(report, configurations, d), c.name, d.name);
  }

  lemma FirstIsLeast(entries: seq<Trigger.Entry>)
    requires entries != []
    ensures |SortBy(entries, Trigger.EntryLe)| > 0 && SortBy(entries, Trigger.EntryLe)[0] in entries
    ensures forall e :: e in entries ==> RankedLe(SortBy(entries, Trigger.EntryLe)[0].ranked, e.ranked)
  {
    hide RankedLe;
    OrderByRank(Trigger.EntryLe, (e: Trigger.Entry) => e.ranked);
    SortBySpec(entries, Trigger.EntryLe);
    var sorted := SortBy(entries, Trigger.EntryLe);
    forall e | e in entries ensures RankedLe(sorted[0].ranked, e.ranked) {
      assert e in sorted;
      var i :| 0 <= i < |sorted| && sorted[i] == e;
      assert Trigger.EntryLe(sorted[0], sorted[i]);
    }
  }

  lemma {:induction false} RejectionsMean(
    report: Trigger.Report, configurations: seq<Trigger.Configuration>, given: seq<Trigger.Configuration>, minimum: int, name: string)
    requires Divisible(report) && forall c :: c in given ==> c in configurations
    ensures var byName := Trigger.ByConfiguration(report.trades, CooldownMs(report.cooldownHours), configurations);
            var rejected := Trigger.Rejections(byName, given, report.start, HoldoutStart(report.start, report.end),
                                               report.holdHours.value * 3_600_000, minimum);
            var v := ValidationOf(report, configurations, name);
            && (name in rejected <==> (exists c :: c in given && c.name == name) && !Profitable(v, minimum))
            && (name in rejected ==>
                  rejected[name] == if v.Unavailable? || v.sampleSize < minimum then Trigger.InsufficientSample else Trigger.NotPositive)
  {
    hide Trigger.ByConfiguration, Trigger.JudgeNamed, EntryOf, ValidationOf, Profitable, HoldoutStart;
    if given != [] {
      var n := |given| - 1;
      assert given[n] in given;
      RejectionsMean(report, configurations, given[..n], minimum, name);
      VerdictMeans(report, configurations, minimum, given[n]);
      assert forall c :: c in given <==> c in given[..n] || c == given[n];
    }
  }

  lemma CalibratedIsDivisible(report: Trigger.Report, configurations: seq<Trigger.Configuration>, minimumValidation: int, minimumFold: int)
    requires Trigger.Calibrated(report, configurations, minimumValidation, minimumFold).Ok?
    ensures Divisible(report)
  {
    var first, width := RefusesExactly(report, configurations, minimumValidation, minimumFold);
    hide Trigger.Calibrated;
    HoldoutStartInside(report.start, report.end);
  }

  lemma HoldoutStartInside(start: int, end: int)
    requires start < end
    ensures start <= HoldoutStart(start, end) < end
  {
  }

  /** Inner validation names the best profitable configuration, and says of every other name why it was rejected. */
  lemma InnerExactly(report: Trigger.Report, configurations: seq<Trigger.Configuration>, minimumValidation: int, minimumFold: int)
    requires Trigger.Calibrated(report, configurations, minimumValidation, minimumFold).Ok?
    ensures report.holdHours.Some?
    ensures var inner := Trigger.Calibrated(report, configurations, minimumValidation, minimumFold).value.inner;
            && (inner.selectedName.None? ==> forall c :: !Qualified(report, configurations, minimumValidation, c))
            && (inner.selectedName.Some? ==>
                  exists c: Trigger.Configuration :: c.name == inner.selectedName.value && InnerBest(report, configurations, minimumValidation, c))
            && forall name :: var v := ValidationOf(report, configurations, name);
                 && (name in inner.rejected <==> (exists c :: c in configurations && c.name == name) && !Profitable(v, minimumValidation))
                 && (name in inner.rejected ==>
                       inner.rejected[name] ==
                       if v.Unavailable? || v.sampleSize < minimumValidation then Trigger.InsufficientSample else Trigger.NotPositive)
  {
    hide WalkForwardOf, Trigger.ByConfiguration, Trigger.Reports, Trigger.Entries, Trigger.Rejections, ValidationOf, Profitable, InnerBest,
      EntryOf, SortBy, RankedLe;
    CalibratedIsDivisible(report, configurations, minimumValidation, minimumFold);
    var inner := Trigger.Calibrated(report, configurations, minimumValidation, minimumFold).value.inner;
    forall name
      ensures var v := ValidationOf(report, configurations, name);
              && (name in inner.rejected <==> (exists c :: c in configurations && c.name == name) && !Profitable(v, minimumValidation))
              && (name in inner.rejected ==>
                    inner.rejected[name] ==
                    if v.Unavailable? || v.sampleSize < minimumValidation then Trigger.InsufficientSample else Trigger.NotPositive)
    {
      RejectionsMean(report, configurations, configurations, minimumValidation, name);
    }
    var byName := Trigger.ByConfiguration(report.trades, CooldownMs(report.cooldownHours), configurations);
    var entries := Trigger.Entries(byName, configurations, report.start, HoldoutStart(report.start, report.end),
                                   report.holdHours.value * 3_600_000, minimumValidation);
    InnerFirst(report, configurations, minimumValidation, entries);
  }

  lemma InnerFirst(report: Trigger.Report, configurations: seq<Trigger.Configuration>, minimum: int, entries: seq<Trigger.Entry>)
    requires Divisible(report)
    requires var byName := Trigger.ByConfiguration(report.trades, CooldownMs(report.cooldownHours), configurations);
             entries == Trigger.Entries(byName, configurations, report.start, HoldoutStart(report.start, report.end),
                                        report.holdHours.value * 3_600_000, minimum)
    ensures entries == [] ==> forall c :: !Qualified(report, configurations, minimum, c)
    ensures entries != [] ==>
              && |SortBy(entries, Trigger.EntryLe)| > 0
              && exists c :: InnerBest(report, configurations, minimum, c) && c.name == SortBy(entries, Trigger.EntryLe)[0].ranked.name
  {
    hide Trigger.ByConfiguration, Trigger.Entries, ValidationOf, Profitable, EntryOf, SortBy, RankedLe, BeatsOrTies, InnerStanding, Divisible,
      Qualified;
    assert Divisible(report) ==> report.holdHours.Some? by { DivisibleHasHold(report); }
    forall e ensures e in entries <==> exists c :: c in configurations && EntryOf(report, configurations, minimum, c, e) {
      EntriesMean(report, configurations, configurations, minimum, e);
    }
    forall c | Qualified(report, configurations, minimum, c)
      ensures exists e :: e in entries && EntryOf(report, configurations, minimum, c, e)
    {
      var e := EntryExists(report, configurations, minimum, c);
      QualifiedIsGiven(report, configurations, minimum, c);
    }
    if entries != [] {
      FirstIsLeast(entries);
      var first := SortBy(entries, Trigger.EntryLe)[0];
      var c :| c in configurations && EntryOf(report, configurations, minimum, c, first);
      OneEntry(report, configurations, minimum, c);
      forall d | Qualified(report, configurations, minimum, d)
        ensures BeatsOrTies(InnerStanding(report, configurations, c), c.name, InnerStanding(report, configurations, d), d.name)
      {
        var e :| e in entries && EntryOf(report, configurations, minimum, d, e);
        EntryBeats(report, configurations, minimum, c, d, first, e);
      }
      EntryIsQualified(report, configurations, minimum, c, first);
      assert InnerBest(report, configurations, minimum, c);
    }
  }

  lemma DivisibleHasHold(report: Trigger.Report)
    ensures Divisible(report) ==> report.holdHours.Some?
  {
  }

  lemma QualifiedIsGiven(report: Trigger.Report, configurations: seq<Trigger.Configuration>, minimum: int, c: Trigger.Configuration)
    requires report.holdHours.Some? && Qualified(report, configurations, minimum, c)
    ensures c in configurations
  {
    hide ValidationOf, Profitable;
  }

  lemma EntryIsQualified(report: Trigger.Report, configurations: seq<Trigger.Configuration>, minimum: int, c: Trigger.Configuration, e: Trigger.Entry)
    requires report.holdHours.Some? && EntryOf(report, configurations, minimum, c, e)
    ensures Qualified(report, configurations, minimum, c)
  {
    hide ValidationOf, Profitable, SelectionKey;
  }

  // ----- the selection -----

  /** Two bests have one name. */
  lemma InnerBestIsUnique(
    report: Trigger.Report, configurations: seq<Trigger.Configuration>, minimum: int, c: Trigger.Configuration, d: Trigger.Configuration)
    requires report.holdHours.Some? && InnerBest(report, configurations, minimum, c) && InnerBest(report, configurations, minimum, d)
    ensures c.name == d.name
  {
    hide ValidationOf, Profitable, Qualified, InnerStanding;
    EachBeats(InnerStanding(report, configurations, c), c.name, InnerStanding(report, configurations, d), d.name);
  }

  lemma EachBeats(a: Candidate, x: string, b: Candidate, y: string)
    requires BeatsOrTies(a, x, b, y) && BeatsOrTies(b, y, a, x)
    ensures x == y
  {
    hide StringLe;
    if StringLe(x, y) && StringLe(y, x) { StringLeAntisymmetric(x, y); }
  }

  /**
   A name is selected exactly when it is the best of inner validation and the walk-forward choice, and exactly then both
   selectors are said to agree; the packet, requirements and complexity reported of a name are those of its last configuration.
   */
  lemma SelectsExactly(report: Trigger.Report, configurations: seq<Trigger.Configuration>, minimumValidation: int, minimumFold: int, name: string)
    requires Trigger.Calibrated(report, configurations, minimumValidation, minimumFold).Ok?
    ensures report.holdHours.Some?
    ensures var c := Trigger.Calibrated(report, configurations, minimumValidation, minimumFold).value;
            && (c.selectedName == Some(name) <==>
                  && c.walkForward.selectedName == Some(name)
                  && exists x: Trigger.Configuration :: x.name == name && InnerBest(report, configurations, minimumValidation, x))
            && (c.agreed <==> c.selectedName.Some?)
  {
    hide WalkForwardOf, Trigger.ByConfiguration, Trigger.Reports, Trigger.InnerOf, ValidationOf, Profitable, InnerBest, Qualified, Trigger.HoldoutOf;
    InnerExactly(report, configurations, minimumValidation, minimumFold);
    var inner := Trigger.Calibrated(report, configurations, minimumValidation, minimumFold).value.inner;
    if exists x: Trigger.Configuration :: x.name == name && InnerBest(report, configurations, minimumValidation, x) {
      var x: Trigger.Configuration :| x.name == name && InnerBest(report, configurations, minimumValidation, x);
      BestIsQualified(report, configurations, minimumValidation, x);
      var y: Trigger.Configuration :| y.name == inner.selectedName.value && InnerBest(report, configurations, minimumValidation, y);
      InnerBestIsUnique(report, configurations, minimumValidation, x, y);
    }
  }

  lemma BestIsQualified(report: Trigger.Report, configurations: seq<Trigger.Configuration>, minimum: int, c: Trigger.Configuration)
    requires report.holdHours.Some? && InnerBest(report, configurations, minimum, c)
    ensures Qualified(report, configurations, minimum, c)
  {
    hide Qualified, BeatsOrTies;
  }

  /** The walk-forward choice is made over three folds of the second half of development, a hold short of their ends. */
  lemma WalkForwardExactly(
    report: Trigger.Report, configurations: seq<Trigger.Configuration>, minimumValidation: int, minimumFold: int, k: nat, name: string)
    returns (windows: seq<Window>)
    requires Trigger.Calibrated(report, configurations, minimumValidation, minimumFold).Ok? && LastNamed(configurations, k, name)
    ensures report.holdHours.Some?
    ensures Windows(report.start, HoldoutStart(report.start, report.end), report.holdHours.value * 3_600_000, 3, 0.5) == Ok(windows)
    ensures var c := Trigger.Calibrated(report, configurations, minimumValidation, minimumFold).value;
            var byName := Trigger.ByConfiguration(report.trades, CooldownMs(report.cooldownHours), configurations);
            && name in c.walkForward.packets
            && PacketShown(c.walkForward.packets[name], Kept(report, configurations, name), windows, minimumFold, configurations[k].complexity)
            && (c.walkForward.selectedName.Some? <==>
                  exists i :: i in Trigger.Items(configurations) && Stable(TradesOf(byName, i.name), windows, minimumFold))
            && (c.walkForward.selectedName.Some? ==> exists best: Item ::
                  best.name == c.walkForward.selectedName.value && BestStanding(byName, Trigger.Items(configurations), windows, minimumFold, best))
            && name in c.all && c.all[name].walkForward == Some(c.walkForward.packets[name])
            && c.all[name].requirements == configurations[k].requirements && c.all[name].complexity == configurations[k].complexity
  {
    hide WalkForwardOf, Trigger.ByConfiguration, Trigger.Reports, Trigger.InnerOf, Windows, PacketShown, BestStanding, Stable, Mapped;
    var end, horizon := HoldoutStart(report.start, report.end), report.holdHours.value * 3_600_000;
    var byName, items := Trigger.ByConfiguration(report.trades, CooldownMs(report.cooldownHours), configurations), Trigger.Items(configurations);
    WalkForwardMeans(byName, items, report.start, end, horizon, 3, minimumFold, name);
    SelectedMeans(byName, items, report.start, end, horizon, 3, minimumFold);
    windows := Windows(report.start, end, horizon, 3, 0.5).value;
    ItemsMean(configurations, k, name);
    ReportedAs(byName, configurations, end, Trigger.Calibrated(report, configurations, minimumValidation, minimumFold).value.walkForward, k, name);
    BestIsStable(byName, items, windows, minimumFold);
  }

  lemma BestIsStable(byName: map<string, seq<Trade>>, items: seq<Item>, windows: seq<Window>, minimum: int)
    ensures forall best: Item :: BestStanding(byName, items, windows, minimum, best) ==>
              best in items && Stable(TradesOf(byName, best.name), windows, minimum)
  {
    hide Stable, BeatsOrTies;
  }

  lemma ItemsMean(configurations: seq<Trigger.Configuration>, k: nat, name: string)
    requires LastNamed(configurations, k, name)
    ensures LastItem(Trigger.Items(configurations), k, name) && Trigger.Items(configurations)[k].complexity == configurations[k].complexity
  {
  }

  lemma {:induction false} ReportedAs(
    byName: map<string, seq<Trade>>, configurations: seq<Trigger.Configuration>, end: int, walkForward: Assessment, k: nat, name: string)
    requires LastNamed(configurations, k, name) && name in walkForward.packets
    ensures var all := Trigger.Reports(byName, configurations, end, walkForward);
            && name in all && all[name].walkForward == Some(walkForward.packets[name])
            && all[name].requirements == configurations[k].requirements && all[name].complexity == configurations[k].complexity
  {
    hide PerformanceOf, Visible;
    var n := |configurations| - 1;
    if k < n { ReportedAs(byName, configurations[..n], end, walkForward, k, name); }
  }
}
