/**
 The resume decision of the mission store (scripts/wfh_mission.py, resume_guard and its gates).

 All six gates run before any answer is looked at, so an error raised by a later gate wins over an earlier refusal.
 */
module Resume {
  import opened Common
  import opened MissionState
  import opened MissionStore
  import opened CrashSafety

  /** What the caller observed; None when an observation is unavailable. */
  datatype Observed = Observed(
    main: Option<string>, production: Option<string>, head: Option<string>, branch: Option<string>,
    worktree: Option<string>, dirty: Option<bool>)

  datatype Reason =
    | InterruptedStep | StateFileContractIncomplete | StateFileMissing | UncheckpointedChange | UncommittedChanges
    | CleanlinessChanged | ObservationContractIncomplete | ObservationUnavailable | CapabilityContractIncomplete
    | CapabilityUnavailable | PreconditionInvalid | PreconditionUnmet

  datatype Gate = Pass | Blocked(reason: Reason) | Reconcile(reason: Reason) | Raises

  datatype Guarded =
    | NotLoaded(why: LoadReason) | Failed | Stopped(gate: Gate) | DriftDetected
    | ResumeReady(pointer: PointerFile, checkpoint: Checkpoint)

  // ----- values as the source compares them -----

  /** Truth values equal the numbers one and zero, at any depth. */
  function Norm(j: Json): Json {
    match j
    case Bool(b) => Num(if b then 1 else 0)
    case Arr(items) => Arr(seq(|items|, i requires 0 <= i < |items| => Norm(items[i])))
    case Obj(fields) => Obj(map k | k in fields :: Norm(fields[k]))
    case _ => j
  }

  predicate Same(a: Json, b: Json) { Norm(a) == Norm(b) }

  /** Lists and objects cannot be looked up in a dictionary. */
  predicate Unhashable(j: Json) { j.Arr? || j.Obj? }

  function AsJson(text: Option<string>): Json { if text.Some? then Str(text.value) else Null }

  /** What was observed for a scope, Null when nothing was. */
  function View(o: Observed, scope: string): Json {
    if scope == "repository_main" then AsJson(o.main)
    else if scope == "production_revision" then AsJson(o.production)
    else if scope == "branch_head" then AsJson(o.head)
    else if scope == "active_branch" then AsJson(o.branch)
    else if scope == "active_worktree" then AsJson(o.worktree)
    else if o.dirty.Some? then Bool(o.dirty.value) else Null
  }

  const REVISION_SCOPES: seq<string> :=
    ["repository_main", "production_revision", "branch_head", "active_branch", "active_worktree"]

  function Expected(state: State, scope: string): Json
    requires scope in OBSERVATION_KEYS
  {
    Get(state, OBSERVATION_KEYS[scope])
  }

  lemma RevisionScopes(scope: string)
    ensures scope in OBSERVATION_KEYS <==> scope in REVISION_SCOPES || scope == "worktree_cleanliness"
  {
  }

  // ----- interrupted steps -----

  predicate AllObjects(steps: seq<Json>) { forall i :: 0 <= i < |steps| ==> steps[i].Obj? }

  predicate AnyOpen(steps: seq<Json>) { exists i :: 0 <= i < |steps| && InProgress(steps[i]) }

  function InterruptedGate(env: Env, durable: map<string, string>, c: Checkpoint): Gate {
    match JournalSteps(env, durable)
    case None => Raises
    case Some(live) =>
      if !AllObjects(live) then Raises
      else if AnyOpen(live) then Reconcile(InterruptedStep)
      else if !AllObjects(c.steps) then Raises
      else if AnyOpen(c.steps) then Reconcile(InterruptedStep)
      else Pass
  }

  // ----- durable files -----

  predicate CoversDurableFiles(c: Checkpoint) {
    c.stateFiles.Some? && forall name :: name in DURABLE_FILES ==> name in c.stateFiles.value
  }

  /** The recorded hashes whose file is gone, and those whose file differs or has appeared. */
  predicate IsMissing(files: map<string, Option<Digest>>, durable: map<string, string>, name: string)
    requires name in files
  {
    files[name].Some? && name !in durable
  }

  predicate IsChanged(files: map<string, Option<Digest>>, durable: map<string, string>, name: string)
    requires name in files
  {
    name in durable && files[name] != Some(Sha256(Text(durable[name])))
  }

  predicate AnyMissing(files: map<string, Option<Digest>>, durable: map<string, string>) {
    exists name :: name in files && IsMissing(files, durable, name)
  }

  predicate AnyChanged(files: map<string, Option<Digest>>, durable: map<string, string>) {
    exists name :: name in files && IsChanged(files, durable, name)
  }

  function ChangedAmong(files: map<string, Option<Digest>>, durable: map<string, string>, names: set<string>): set<string>
    requires names <= files.Keys
  {
    set name | name in names && IsChanged(files, durable, name)
  }

  function MissingAmong(files: map<string, Option<Digest>>, durable: map<string, string>, names: set<string>): set<string>
    requires names <= files.Keys
  {
    set name | name in names && IsMissing(files, durable, name)
  }

  lemma ExtendFiles(files: map<string, Option<Digest>>, durable: map<string, string>, names: set<string>, name: string)
    requires names <= files.Keys && name in files.Keys
    ensures ChangedAmong(files, durable, names + {name})
            == ChangedAmong(files, durable, names) + (if IsChanged(files, durable, name) then {name} else {})
    ensures MissingAmong(files, durable, names + {name})
            == MissingAmong(files, durable, names) + (if IsMissing(files, durable, name) then {name} else {})
  {
    hide IsChanged, IsMissing;
  }

  method LiveStateFileChanges(files: map<string, Option<Digest>>, durable: map<string, string>)
    returns (changed: set<string>, missing: set<string>)
    ensures changed == ChangedAmong(files, durable, files.Keys)
    ensures missing == MissingAmong(files, durable, files.Keys)
  {
    hide ChangedAmong, MissingAmong;
    changed, missing := {}, {};
    var remaining := files.Keys;
    NothingAmong(files, durable);
    assert files.Keys - remaining == {};
    while remaining != {}
      invariant remaining <= files.Keys
      invariant changed == ChangedAmong(files, durable, files.Keys - remaining)
      invariant missing == MissingAmong(files, durable, files.Keys - remaining)
      decreases |remaining|
    {
      var name :| name in remaining;
      ExtendFiles(files, durable, files.Keys - remaining, name);
      assert files.Keys - (remaining - {name}) == files.Keys - remaining + {name};
      remaining := remaining - {name};
      if files[name].None? {
        if name in durable {
          changed := changed + {name};
        }
      } else if name !in durable {
        missing := missing + {name};
      } else if Sha256(Text(durable[name])) != files[name].value {
        changed := changed + {name};
      }
    }
    assert files.Keys - remaining == files.Keys;
  }

  lemma NothingAmong(files: map<string, Option<Digest>>, durable: map<string, string>)
    ensures ChangedAmong(files, durable, {}) == {} && MissingAmong(files, durable, {}) == {}
  {
  }

  lemma AnyAmong(files: map<string, Option<Digest>>, durable: map<string, string>)
    ensures AnyChanged(files, durable) <==> ChangedAmong(files, durable, files.Keys) != {}
    ensures AnyMissing(files, durable) <==> MissingAmong(files, durable, files.Keys) != {}
  {
    hide IsChanged, IsMissing;
    if AnyChanged(files, durable) {
      var name :| name in files && IsChanged(files, durable, name);
      assert name in ChangedAmong(files, durable, files.Keys);
    }
    if AnyMissing(files, durable) {
      var name :| name in files && IsMissing(files, durable, name);
      assert name in MissingAmong(files, durable, files.Keys);
    }
  }

  function StateFilesGate(durable: map<string, string>, c: Checkpoint): Gate {
    if !CoversDurableFiles(c) then Blocked(StateFileContractIncomplete)
    else if AnyMissing(c.stateFiles.value, durable) then Blocked(StateFileMissing)
    else if AnyChanged(c.stateFiles.value, durable) then Reconcile(UncheckpointedChange)
    else Pass
  }

  method CheckStateFiles(durable: map<string, string>, c: Checkpoint) returns (gate: Gate)
    ensures gate == StateFilesGate(durable, c)
  {
    if !CoversDurableFiles(c) {
      return Blocked(StateFileContractIncomplete);
    }
    var changed, missing := LiveStateFileChanges(c.stateFiles.value, durable);
    AnyAmong(c.stateFiles.value, durable);
    return
      if missing != {} then Blocked(StateFileMissing)
      else if changed != {} then Reconcile(UncheckpointedChange)
      else Pass;
  }

  // ----- observations -----

  function WorktreeGate(state: State, dirty: Option<bool>): Gate {
    if dirty == Some(true) then Reconcile(UncommittedChanges)
    else if dirty == Some(false) && IsTrue(state, "active_worktree_dirty") then Reconcile(CleanlinessChanged)
    else Pass
  }

  function ObservationGate(state: State, o: Observed): Gate {
    if exists scope :: scope in OBSERVATION_KEYS && Expected(state, scope).Null? then Blocked(ObservationContractIncomplete)
    else if exists scope :: scope in OBSERVATION_KEYS && View(o, scope).Null? then Blocked(ObservationUnavailable)
    else Pass
  }

  predicate Drifted(state: State, o: Observed) {
    exists scope :: scope in REVISION_SCOPES && !View(o, scope).Null? && !Get(state, OBSERVATION_KEYS[scope]).Null?
                    && View(o, scope) != Get(state, OBSERVATION_KEYS[scope])
  }

  // ----- capabilities -----

  /** Iterating a list, the characters of a text or the keys of an object; None when there is nothing to iterate. */
  function CapabilityNames(state: State): Option<set<Json>> {
    if "required_capabilities" !in state then Some({})
    else
      match state["required_capabilities"]
      case Arr(items) => Some(set i | 0 <= i < |items| :: items[i])
      case Str(text) => Some(set i | 0 <= i < |text| :: Str([text[i]]))
      case Obj(fields) => Some(set k | k in fields :: Str(k))
      case _ => None
  }

  /** The rank of an observed capability; unknown and unusable states have none. */
  function ObservedRank(capabilities: map<string, string>, name: Json): Option<int> {
    if name.Str? && name.s in capabilities then Rank(capabilities[name.s]) else None
  }

  function Minimum(minimums: State, name: Json): Json { if name.Str? then Get(minimums, name.s) else Null }

  predicate Suffices(capabilities: map<string, string>, minimums: State, name: Json) {
    && ObservedRank(capabilities, name).Some? && Minimum(minimums, name).Str? && Rank(Minimum(minimums, name).s).Some?
    && ObservedRank(capabilities, name).value >= Rank(Minimum(minimums, name).s).value
  }

  predicate CapabilityRaises(capabilities: map<string, string>, minimums: State, name: Json) {
    Unhashable(name) || (ObservedRank(capabilities, name).Some? && Unhashable(Minimum(minimums, name)))
  }

  predicate AnyRaises(capabilities: map<string, string>, minimums: State, names: set<Json>) {
    exists name :: name in names && CapabilityRaises(capabilities, minimums, name)
  }

  predicate AllSuffice(capabilities: map<string, string>, minimums: State, names: set<Json>) {
    forall name :: name in names ==> Suffices(capabilities, minimums, name)
  }

  function CapabilityGate(state: State, capabilities: map<string, string>): Gate {
    match Get(state, "required_capability_states")
    case Obj(minimums) =>
      (match CapabilityNames(state)
       case None => Raises
       case Some(names) =>
         if AnyRaises(capabilities, minimums, names) then Raises
         else if AllSuffice(capabilities, minimums, names) then Pass
         else Blocked(CapabilityUnavailable))
    case _ => Blocked(CapabilityContractIncomplete)
  }

  method CheckCapabilities(state: State, capabilities: map<string, string>) returns (gate: Gate)
    ensures gate == CapabilityGate(state, capabilities)
  {
    if !Get(state, "required_capability_states").Obj? {
      return Blocked(CapabilityContractIncomplete);
    }
    var minimums, names := Get(state, "required_capability_states").fields, CapabilityNames(state);
    hide CapabilityNames, Get;
    if names.None? {
      return Raises;
    }
    var remaining, unavailable, insufficient := names.value, {}, {};
    while remaining != {}
      invariant remaining <= names.value
      invariant !AnyRaises(capabilities, minimums, names.value - remaining)
      invariant unavailable == {} && insufficient == {} <==> AllSuffice(capabilities, minimums, names.value - remaining)
      decreases |remaining|
    {
      var name :| name in remaining;
      assert names.value - (remaining - {name}) == names.value - remaining + {name};
      ExtendNames(capabilities, minimums, names.value - remaining, name);
      remaining := remaining - {name};
      if CapabilityRaises(capabilities, minimums, name) {
        RaisesSomewhere(capabilities, minimums, names.value, name);
        return Raises;
      }
      if ObservedRank(capabilities, name).None? {
        unavailable := unavailable + {name};
      } else if !Minimum(minimums, name).Str? || Rank(Minimum(minimums, name).s).None? {
        insufficient := insufficient + {name};
      } else if ObservedRank(capabilities, name).value < Rank(Minimum(minimums, name).s).value {
        insufficient := insufficient + {name};
      }
    }
    assert names.value - remaining == names.value;
    return if unavailable == {} && insufficient == {} then Pass else Blocked(CapabilityUnavailable);
  }

  lemma RaisesSomewhere(capabilities: map<string, string>, minimums: State, names: set<Json>, name: Json)
    requires name in names && CapabilityRaises(capabilities, minimums, name)
    ensures AnyRaises(capabilities, minimums, names)
  {
  }

  lemma ExtendNames(capabilities: map<string, string>, minimums: State, names: set<Json>, name: Json)
    ensures AnyRaises(capabilities, minimums, names + {name})
            <==> AnyRaises(capabilities, minimums, names) || CapabilityRaises(capabilities, minimums, name)
    ensures AllSuffice(capabilities, minimums, names + {name})
            <==> AllSuffice(capabilities, minimums, names) && Suffices(capabilities, minimums, name)
  {
    hide CapabilityRaises, Suffices;
    assert name in names + {name};
    if AllSuffice(capabilities, minimums, names + {name}) {
      forall n | n in names
        ensures Suffices(capabilities, minimums, n)
      {
        assert n in names + {name};
      }
    }
  }

  // ----- next-action preconditions -----

  datatype Verdict = Met | Unmet | Invalid | Raising

  function Evaluate(env: Env, state: State, o: Observed, item: Json): Verdict {
    if !item.Obj? then Invalid
    else if Get(item.fields, "kind") == Str("state_equals") then
      var field := Get(item.fields, "field");
      if Same(Get(state, if field.Str? then field.s else env.show(field)), Get(item.fields, "expected")) then Met else Unmet
    else if Get(item.fields, "kind") != Str("observation_equals") then Invalid
    else
      var scope := Get(item.fields, "scope");
      if Unhashable(scope) then Raising
      else if !scope.Str? || scope.s !in OBSERVATION_KEYS then Invalid
      else
        var written := Get(item.fields, "expected");
        var expected := if written == Str("checkpoint") then Expected(state, scope.s) else written;
        if Same(View(o, scope.s), expected) then Met else Unmet
  }

  /** The first invalid or raising item decides; otherwise a single unmet one blocks. */
  function ScanPreconditions(env: Env, state: State, o: Observed, items: seq<Json>): Gate {
    if items == [] then Pass
    else
      var before := ScanPreconditions(env, state, o, items[..|items| - 1]);
      if before == Raises || before == Blocked(PreconditionInvalid) then before
      else
        match Evaluate(env, state, o, items[|items| - 1])
        case Met => before
        case Unmet => Blocked(PreconditionUnmet)
        case Invalid => Blocked(PreconditionInvalid)
        case Raising => Raises
  }

  function PreconditionGate(env: Env, state: State, o: Observed): Gate {
    match Preconditions(state)
    case Arr(items) => ScanPreconditions(env, state, o, items)
    case _ => Blocked(PreconditionInvalid)
  }

  predicate AllMet(env: Env, state: State, o: Observed, items: seq<Json>) {
    forall i :: 0 <= i < |items| ==> Evaluate(env, state, o, items[i]) == Met
  }

  lemma {:induction false} ScanPasses(env: Env, state: State, o: Observed, items: seq<Json>)
    ensures ScanPreconditions(env, state, o, items) == Pass <==> AllMet(env, state, o, items)
  {
    hide Evaluate;
    if items != [] {
      ScanPasses(env, state, o, items[..|items| - 1]);
    }
  }

  /** A stopping prefix decides for the whole list. */
  lemma {:induction false} ScanStops(env: Env, state: State, o: Observed, items: seq<Json>, k: nat)
    requires k <= |items|
    requires ScanPreconditions(env, state, o, items[..k]) in {Raises, Blocked(PreconditionInvalid)}
    ensures ScanPreconditions(env, state, o, items) == ScanPreconditions(env, state, o, items[..k])
  {
    hide Evaluate;
    if k < |items| {
      var init := items[..|items| - 1];
      assert init[..k] == items[..k];
      ScanStops(env, state, o, init, k);
    } else {
      assert items[..k] == items;
    }
  }

  lemma ScanSnoc(env: Env, state: State, o: Observed, items: seq<Json>, k: nat)
    requires k < |items|
    requires ScanPreconditions(env, state, o, items[..k]) !in {Raises, Blocked(PreconditionInvalid)}
    ensures ScanPreconditions(env, state, o, items[..k + 1]) ==
            match Evaluate(env, state, o, items[k])
            case Met => ScanPreconditions(env, state, o, items[..k])
            case Unmet => Blocked(PreconditionUnmet)
            case Invalid => Blocked(PreconditionInvalid)
            case Raising => Raises
  {
    hide Evaluate;
    assert items[..k + 1][..k] == items[..k];
  }

  method CheckPreconditions(env: Env, state: State, o: Observed) returns (gate: Gate)
    ensures gate == PreconditionGate(env, state, o)
  {
    hide Evaluate, ScanPreconditions;
    if !Preconditions(state).Arr? {
      return Blocked(PreconditionInvalid);
    }
    var items := Preconditions(state).items;
    hide Preconditions;
    EmptyScan(env, state, o);
    assert items[..0] == [];
    var unmet: seq<nat> := [];
    for k := 0 to |items|
      invariant ScanPreconditions(env, state, o, items[..k]) == if unmet == [] then Pass else Blocked(PreconditionUnmet)
    {
      ScanSnoc(env, state, o, items, k);
      var verdict := Evaluate(env, state, o, items[k]);
      if verdict.Invalid? || verdict.Raising? {
        ScanStops(env, state, o, items, k + 1);
        return if verdict.Invalid? then Blocked(PreconditionInvalid) else Raises;
      }
      if verdict.Unmet? {
        unmet := unmet + [k];
      }
    }
    assert items[..|items|] == items;
    return if unmet == [] then Pass else Blocked(PreconditionUnmet);
  }

  lemma EmptyScan(env: Env, state: State, o: Observed)
    ensures ScanPreconditions(env, state, o, []) == Pass
  {
  }

  // ----- the guard -----

  /** The six gates in the order their answers are looked at, on the journal and the files as their gates read them. */
  function Gates(
    env: Env, journal: map<string, string>, files: map<string, string>, c: Checkpoint, o: Observed, capabilities: map<string, string>)
    : seq<Gate>
  {
    [InterruptedGate(env, journal, c), StateFilesGate(files, c), WorktreeGate(c.state, o.dirty), ObservationGate(c.state, o),
     CapabilityGate(c.state, capabilities), PreconditionGate(env, c.state, o)]
  }

  function FirstStop(gates: seq<Gate>): Gate {
    if gates == [] then Pass else if gates[0] != Pass then gates[0] else FirstStop(gates[1..])
  }

  function Decide(gates: seq<Gate>, drifted: bool, p: PointerFile, c: Checkpoint): Guarded {
    if Raises in gates then Failed
    else if FirstStop(gates) != Pass then Stopped(FirstStop(gates))
    else if drifted then DriftDetected
    else ResumeReady(p, c)
  }

  ghost function GuardFrom(
    env: Env, store: Store, journal: map<string, string>, files: map<string, string>, o: Observed, capabilities: map<string, string>)
    : Guarded
  {
    match Load(store)
    case LoadBlocked(reason) => NotLoaded(reason)
    case LoadReady(p, c) => Decide(Gates(env, journal, files, c, o, capabilities), Drifted(c.state, o), p, c)
  }

  /** The guard on files that hold still. */
  ghost function Guard(env: Env, store: Store, o: Observed, capabilities: map<string, string>): Guarded {
    GuardFrom(env, store, store.durable, store.durable, o, capabilities)
  }

  lemma GatesReadOnlyTheirFiles(env: Env, durable: map<string, string>, c: Checkpoint)
    ensures InterruptedGate(env, Seen(durable, [JOURNAL_FILE]), c) == InterruptedGate(env, durable, c)
    ensures c.stateFiles.Some? ==> StateFilesGate(Restricted(durable, c.stateFiles.value.Keys), c) == StateFilesGate(durable, c)
  {
    ParseSeen(env, durable, [JOURNAL_FILE], JOURNAL_FILE);
    CalmJournal(env, durable);
    if c.stateFiles.Some? {
      var files, read := c.stateFiles.value, Restricted(durable, c.stateFiles.value.Keys);
      forall name | name in files
        ensures IsMissing(files, read, name) == IsMissing(files, durable, name)
        ensures IsChanged(files, read, name) == IsChanged(files, durable, name)
      {
      }
      hide IsMissing, IsChanged;
    }
    hide Seen, JournalSteps, ParseObject;
  }

  /**
   resume_guard. The mission lock keeps the checkpoints and the latest-checkpoint file still; the durable files may be
   edited from outside at any moment, so the journal and every hashed file are what their own reads saw.
   */
  method ResumeGuard(dir: MissionDirectory, o: Observed, capabilities: map<string, string>, calm: bool)
    returns (result: Guarded, ghost journal: map<string, string>, ghost files: map<string, string>)
    modifies dir`durable
    ensures result == GuardFrom(dir.env, dir.Files(), journal, files, o, capabilities)
    ensures calm ==> dir.durable == old(dir.durable) && result == Guard(dir.env, dir.Files(), o, capabilities)
  {
    hide Load, InterruptedGate, StateFilesGate, WorktreeGate, ObservationGate, CapabilityGate, PreconditionGate, Drifted, FirstStop,
      Seen, Restricted;
    journal, files := map[], map[];
    ghost var before := dir.Files();
    var loaded := dir.LoadLatestCheckpoint();
    if loaded.LoadBlocked? {
      return NotLoaded(loaded.reason), journal, files;
    }
    var c := loaded.checkpoint;
    GatesReadOnlyTheirFiles(dir.env, dir.durable, c);
    var journalText := dir.ReadFiles([JOURNAL_FILE], calm);
    var interrupted := InterruptedGate(dir.env, journalText, c);
    var fileTexts: map<string, string> := map[];
    if c.stateFiles.Some? {
      fileTexts := dir.ReadNamed(c.stateFiles.value.Keys, calm);
    }
    journal, files := journalText, fileTexts;
    LoadIgnoresDurable(before, dir.durable);
    if c.stateFiles.None? {
      NoFilesNoContract(fileTexts, dir.durable, c);
    }
    var stateFiles := CheckStateFiles(fileTexts, c);
    var worktree := WorktreeGate(c.state, o.dirty);
    var observation := ObservationGate(c.state, o);
    var capability := CheckCapabilities(c.state, capabilities);
    var precondition := CheckPreconditions(dir.env, c.state, o);
    var gates := [interrupted, stateFiles, worktree, observation, capability, precondition];
    if Raises in gates {
      return Failed, journal, files;
    }
    var stop := StoppingGate(gates);
    if stop != Pass {
      return Stopped(stop), journal, files;
    }
    return if Drifted(c.state, o) then DriftDetected else ResumeReady(loaded.pointer, c), journal, files;
  }

  method StoppingGate(gates: seq<Gate>) returns (stop: Gate)
    ensures stop == FirstStop(gates)
  {
    hide FirstStop;
    for k := 0 to |gates|
      invariant FirstStop(gates) == FirstStop(gates[k..])
    {
      StopUnfolds(gates[k..]);
      assert gates[k..][1..] == gates[k + 1..];
      if gates[k] != Pass {
        return gates[k];
      }
    }
    StopUnfolds(gates[|gates|..]);
    return Pass;
  }

  lemma LoadIgnoresDurable(store: Store, durable: map<string, string>)
    ensures Load(store.(durable := durable)) == Load(store)
  {
  }

  lemma NoFilesNoContract(a: map<string, string>, b: map<string, string>, c: Checkpoint)
    requires c.stateFiles.None?
    ensures StateFilesGate(a, c) == StateFilesGate(b, c)
  {
  }

  lemma StopUnfolds(gates: seq<Gate>)
    ensures gates == [] ==> FirstStop(gates) == Pass
    ensures gates != [] ==> FirstStop(gates) == if gates[0] != Pass then gates[0] else FirstStop(gates[1..])
  {
  }

  // ----- what readiness means -----

  predicate NoOpenStep(env: Env, journal: map<string, string>, c: Checkpoint) {
    && JournalSteps(env, journal).Some?
    && AllObjects(JournalSteps(env, journal).value) && !AnyOpen(JournalSteps(env, journal).value)
    && AllObjects(c.steps) && !AnyOpen(c.steps)
  }

  /** Every recorded file, the seven durable ones among them, has exactly the recorded hash or is absent as recorded. */
  predicate FilesIdentical(durable: map<string, string>, c: Checkpoint) {
    CoversDurableFiles(c) && forall name :: name in c.stateFiles.value ==> HashOf(durable, name) == c.stateFiles.value[name]
  }

  predicate RevisionsMatch(state: State, o: Observed) {
    forall scope :: scope in REVISION_SCOPES ==>
      !View(o, scope).Null? && View(o, scope) == Get(state, OBSERVATION_KEYS[scope])
  }

  predicate CleanWorktree(state: State, o: Observed) {
    o.dirty == Some(false) && Get(state, "active_worktree_dirty") !in {Null, Bool(true)}
  }

  predicate CapabilitiesHeld(state: State, capabilities: map<string, string>) {
    && Get(state, "required_capability_states").Obj? && CapabilityNames(state).Some?
    && AllSuffice(capabilities, Get(state, "required_capability_states").fields, CapabilityNames(state).value)
  }

  predicate PreconditionsMet(env: Env, state: State, o: Observed) {
    Preconditions(state).Arr? && AllMet(env, state, o, Preconditions(state).items)
  }

  predicate ResumableFrom(
    env: Env, journal: map<string, string>, files: map<string, string>, c: Checkpoint, o: Observed, capabilities: map<string, string>)
  {
    && NoOpenStep(env, journal, c)
    && FilesIdentical(files, c)
    && RevisionsMatch(c.state, o) && CleanWorktree(c.state, o)
    && CapabilitiesHeld(c.state, capabilities)
    && PreconditionsMet(env, c.state, o)
  }

  lemma FilesGatePasses(durable: map<string, string>, c: Checkpoint)
    ensures StateFilesGate(durable, c) == Pass <==> FilesIdentical(durable, c)
  {
    if CoversDurableFiles(c) {
      forall name | name in c.stateFiles.value
        ensures HashOf(durable, name) == c.stateFiles.value[name]
                <==> !IsMissing(c.stateFiles.value, durable, name) && !IsChanged(c.stateFiles.value, durable, name)
      {
      }
    }
  }

  lemma ObservationsPass(state: State, o: Observed)
    ensures WorktreeGate(state, o.dirty) == Pass && ObservationGate(state, o) == Pass && !Drifted(state, o)
            <==> RevisionsMatch(state, o) && CleanWorktree(state, o)
  {
    hide Get, AsJson;
    assert "worktree_cleanliness" in OBSERVATION_KEYS;
    forall scope: string
      ensures scope in OBSERVATION_KEYS <==> scope in REVISION_SCOPES || scope == "worktree_cleanliness"
    {
      RevisionScopes(scope);
    }
  }

  lemma CapabilityGatePasses(state: State, capabilities: map<string, string>)
    ensures CapabilityGate(state, capabilities) == Pass <==> CapabilitiesHeld(state, capabilities)
  {
    hide CapabilityNames, Rank, Get;
  }

  lemma PreconditionGatePasses(env: Env, state: State, o: Observed)
    ensures PreconditionGate(env, state, o) == Pass <==> PreconditionsMet(env, state, o)
  {
    hide Evaluate, ScanPreconditions, AllMet;
    if Preconditions(state).Arr? {
      ScanPasses(env, state, o, Preconditions(state).items);
    }
  }

  lemma DecideReady(gates: seq<Gate>, drifted: bool, p: PointerFile, c: Checkpoint)
    ensures Decide(gates, drifted, p, c).ResumeReady? <==> !drifted && forall i :: 0 <= i < |gates| ==> gates[i] == Pass
    ensures Decide(gates, drifted, p, c).ResumeReady? ==> Decide(gates, drifted, p, c) == ResumeReady(p, c)
  {
    StopsNowhere(gates);
  }

  lemma {:induction false} StopsNowhere(gates: seq<Gate>)
    ensures FirstStop(gates) == Pass <==> forall i :: 0 <= i < |gates| ==> gates[i] == Pass
  {
    if gates != [] {
      StopsNowhere(gates[1..]);
      assert forall i :: 0 < i < |gates| ==> gates[i] == gates[1..][i - 1];
    }
  }

  predicate Resumable(env: Env, durable: map<string, string>, c: Checkpoint, o: Observed, capabilities: map<string, string>) {
    ResumableFrom(env, durable, durable, c, o, capabilities)
  }

  /**
   The guard answers ready exactly when the latest checkpoint loads and everything it recorded holds of the journal and
   the files as they were read.
   */
  lemma ReadyFromReadsExactly(
    env: Env, store: Store, journal: map<string, string>, files: map<string, string>, o: Observed, capabilities: map<string, string>)
    ensures GuardFrom(env, store, journal, files, o, capabilities).ResumeReady?
            <==> Load(store).LoadReady? && ResumableFrom(env, journal, files, Load(store).checkpoint, o, capabilities)
    ensures GuardFrom(env, store, journal, files, o, capabilities).ResumeReady?
            ==> GuardFrom(env, store, journal, files, o, capabilities) == ResumeReady(Load(store).pointer, Load(store).checkpoint)
  {
    hide Load, StateFilesGate, FilesIdentical, WorktreeGate, ObservationGate, Drifted, RevisionsMatch, CleanWorktree,
      CapabilityGate, CapabilitiesHeld, PreconditionGate, PreconditionsMet, Decide, JournalSteps, AnyOpen, AllObjects;
    if Load(store).LoadReady? {
      var c := Load(store).checkpoint;
      FilesGatePasses(files, c);
      ObservationsPass(c.state, o);
      CapabilityGatePasses(c.state, capabilities);
      PreconditionGatePasses(env, c.state, o);
      var gates := Gates(env, journal, files, c, o, capabilities);
      DecideReady(gates, Drifted(c.state, o), Load(store).pointer, c);
      assert gates[0] == InterruptedGate(env, journal, c);
      assert (forall i :: 0 <= i < |gates| ==> gates[i] == Pass) <==>
        gates[0] == Pass && gates[1] == Pass && gates[2] == Pass && gates[3] == Pass && gates[4] == Pass && gates[5] == Pass;
    }
  }

  /** The same on files that hold still. */
  lemma ReadyExactly(env: Env, store: Store, o: Observed, capabilities: map<string, string>)
    ensures Guard(env, store, o, capabilities).ResumeReady?
            <==> Load(store).LoadReady? && Resumable(env, store.durable, Load(store).checkpoint, o, capabilities)
    ensures Guard(env, store, o, capabilities).ResumeReady?
            ==> Guard(env, store, o, capabilities) == ResumeReady(Load(store).pointer, Load(store).checkpoint)
  {
    hide Load, ResumableFrom, GuardFrom;
    ReadyFromReadsExactly(env, store, store.durable, store.durable, o, capabilities);
  }

  // ----- soundness in the terms of the files -----

  /** A loaded checkpoint is never behind; it is the newest exactly when a file carries its number. */
  lemma LoadedIsNewest(store: Store)
    requires Load(store).LoadReady? && Load(store).checkpoint.id > 0
    ensures Load(store).checkpoint.id >= Highest(store.checkpoints.Keys)
    ensures Load(store).checkpoint.id == Highest(store.checkpoints.Keys) <==> Load(store).checkpoint.id in store.checkpoints
  {
  }

  /** In every store a safe run can reach, readiness is about the highest-numbered checkpoint file. */
  lemma ReadyMeansNewest(env: Env, w: World, o: Observed, capabilities: map<string, string>)
    requires Safe(w) && Guard(env, w.store, o, capabilities).ResumeReady?
    ensures var c := Guard(env, w.store, o, capabilities).checkpoint;
            c.id == Highest(w.store.checkpoints.Keys) && c.id in w.store.checkpoints && w.store.checkpoints[c.id] == Doc(c)
  {
    ReadyExactly(env, w.store, o, capabilities);
  }

  lemma {:induction false} HashesAt(durable: map<string, string>, names: seq<string>, name: string)
    ensures name in HashesOf(durable, names) <==> name in names
    ensures name in names ==> HashesOf(durable, names)[name] == HashOf(durable, name)
  {
    if names != [] {
      HashesAt(durable, names[..|names| - 1], name);
      assert names == names[..|names| - 1] + [names[|names| - 1]];
    }
  }

  lemma IdenticalToCaptured(captured: map<string, string>, durable: map<string, string>, c: Checkpoint)
    requires c.stateFiles == Some(HashesOf(captured, DURABLE_FILES))
    ensures FilesIdentical(durable, c) <==> forall name :: name in DURABLE_FILES ==> HashOf(durable, name) == HashOf(captured, name)
  {
    forall name: string
      ensures name in c.stateFiles.value <==> name in DURABLE_FILES
      ensures name in DURABLE_FILES ==> c.stateFiles.value[name] == HashOf(captured, name)
    {
      HashesAt(captured, DURABLE_FILES, name);
    }
    hide HashesOf, HashOf;
  }

  lemma SameHashSameText(a: map<string, string>, b: map<string, string>, name: string)
    requires HashOf(a, name) == HashOf(b, name) && name in a
    ensures name in b && a[name] == b[name]
  {
  }

  /**
   Ready means all seven files were read with exactly the contents that were hashed into the checkpoint, even when they
   were edited while it was being built or while the guard was reading, so that neither side is of one moment.
   */
  lemma ReadyMeansUnchanged(
    env: Env, store: Store, journal: map<string, string>, files: map<string, string>, o: Observed, capabilities: map<string, string>,
    hashed: map<string, string>)
    requires Load(store).LoadReady? && Load(store).checkpoint.stateFiles == Some(HashesOf(hashed, DURABLE_FILES))
    requires forall name :: name in DURABLE_FILES ==> name in hashed
    requires GuardFrom(env, store, journal, files, o, capabilities).ResumeReady?
    ensures forall name :: name in DURABLE_FILES ==> name in files && files[name] == hashed[name]
  {
    hide Load, GuardFrom, NoOpenStep, RevisionsMatch, CleanWorktree, CapabilitiesHeld, PreconditionsMet, FilesIdentical, HashesOf;
    ReadyFromReadsExactly(env, store, journal, files, o, capabilities);
    IdenticalToCaptured(hashed, files, Load(store).checkpoint);
    forall name | name in DURABLE_FILES
      ensures name in files && files[name] == hashed[name]
    {
      SameHashSameText(hashed, files, name);
    }
  }

  /**
   A checkpoint built while its state file was edited records one state and hashes another file. When such a checkpoint is
   ready, the state file parses to the recorded state exactly when what was read and what was hashed parse alike.
   */
  lemma RecordedStateIsLiveExactly(
    env: Env, store: Store, r: Reads, id: nat, journal: map<string, string>, files: map<string, string>, o: Observed,
    capabilities: map<string, string>)
    requires CreatableFrom(env, r) && Load(store).LoadReady? && Load(store).checkpoint == CheckpointFrom(env, r, id)
    requires GuardFrom(env, store, journal, files, o, capabilities).ResumeReady?
    ensures ParseObject(env, files, STATE_FILE) == Some(Load(store).checkpoint.state)
            <==> ParseObject(env, r.hashed, STATE_FILE) == ParseObject(env, r.state, STATE_FILE)
  {
    CapturedBy(env, r, id);
    hide Load, GuardFrom, CreatableFrom, CheckpointFrom, HashesOf;
    ReadyMeansUnchanged(env, store, journal, files, o, capabilities, r.hashed);
    assert STATE_FILE in DURABLE_FILES;
  }

  lemma CapturedBy(env: Env, r: Reads, id: nat)
    requires CreatableFrom(env, r)
    ensures var c := CheckpointFrom(env, r, id);
            && c.id == id && c.stateFiles == Some(HashesOf(r.hashed, DURABLE_FILES))
            && ParseObject(env, r.state, STATE_FILE) == Some(c.state) && JournalSteps(env, r.journal) == Some(c.steps)
            && (forall name :: name in DURABLE_FILES ==> name in r.hashed)
            && FieldsOk(c.state) && CapabilitiesOk(c.state) && PreconditionsOk(c.state)
  {
    hide FieldsOk, CapabilitiesOk, PreconditionsOk, BundleOk, HashesOf, ParseObject, JournalSteps;
  }
}
