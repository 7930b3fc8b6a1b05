/**
 What a ready answer guarantees, in the words of the files and of the observation
 (scripts/wfh_mission.py, load_latest_checkpoint and resume_guard).
 */
module ResumeExactness {
  import opened Common
  import opened MissionState
  import opened MissionStore
  import opened Resume

  // ----- capabilities -----

  /** The three usable states, each authorizing what is below it. */
  ghost predicate Authorizes(observed: string, required: string) {
    || (required == "AVAILABLE" && observed in {"AVAILABLE", "AUTHORIZED_READ", "AUTHORIZED_WRITE"})
    || (required == "AUTHORIZED_READ" && observed in {"AUTHORIZED_READ", "AUTHORIZED_WRITE"})
    || (required == "AUTHORIZED_WRITE" && observed == "AUTHORIZED_WRITE")
  }

  /** The name is an item of the required list, or what iterating a text or an object in its place yields. */
  ghost predicate Requires(state: State, name: Json) {
    "required_capabilities" in state
    && match state["required_capabilities"]
       case Arr(items) => name in items
       case Str(text) => exists i :: 0 <= i < |text| && name == Str([text[i]])
       case Obj(fields) => name.Str? && name.s in fields
       case _ => false
  }

  ghost predicate Iterable(state: State) {
    "required_capabilities" in state ==>
      state["required_capabilities"].Arr? || state["required_capabilities"].Str? || state["required_capabilities"].Obj?
  }

  ghost predicate Granted(state: State, capabilities: map<string, string>, name: Json) {
    && name.Str? && name.s in capabilities && Get(state, "required_capability_states").Obj?
    && name.s in Get(state, "required_capability_states").fields
    && Get(state, "required_capability_states").fields[name.s].Str?
    && Authorizes(capabilities[name.s], Get(state, "required_capability_states").fields[name.s].s)
  }

  /** Observed and required states in the words of the contract. */
  lemma LadderMeans(observed: string, required: string)
    ensures Rank(observed).Some? && Rank(required).Some? && Rank(observed).value >= Rank(required).value <==> Authorizes(observed, required)
  {
  }

  lemma NamesMean(state: State, name: Json)
    ensures CapabilityNames(state).Some? <==> Iterable(state)
    ensures CapabilityNames(state).Some? ==> (name in CapabilityNames(state).value <==> Requires(state, name))
  {
  }

  lemma SufficesMeans(state: State, capabilities: map<string, string>, name: Json)
    requires Get(state, "required_capability_states").Obj?
    ensures Suffices(capabilities, Get(state, "required_capability_states").fields, name) <==> Granted(state, capabilities, name)
  {
    var minimums := Get(state, "required_capability_states").fields;
    hide Rank, Authorizes;
    if name.Str? && name.s in capabilities && Minimum(minimums, name).Str? {
      LadderMeans(capabilities[name.s], Minimum(minimums, name).s);
    }
  }

  /** The capability gate passes exactly when every required capability is observed with the authorization it requires. */
  lemma CapabilitiesExactly(state: State, capabilities: map<string, string>)
    ensures CapabilityGate(state, capabilities) == Pass <==>
            && Get(state, "required_capability_states").Obj? && Iterable(state)
            && forall name :: Requires(state, name) ==> Granted(state, capabilities, name)
  {
    hide CapabilityGate, CapabilityNames, AllSuffice, Granted, Requires, Iterable, Get;
    CapabilityGatePasses(state, capabilities);
    NamesMean(state, Null);
    if Get(state, "required_capability_states").Obj? && Iterable(state) {
      AllMean(state, capabilities);
    }
  }

  lemma AllMean(state: State, capabilities: map<string, string>)
    requires Get(state, "required_capability_states").Obj? && CapabilityNames(state).Some?
    ensures AllSuffice(capabilities, Get(state, "required_capability_states").fields, CapabilityNames(state).value) <==>
            forall name :: Requires(state, name) ==> Granted(state, capabilities, name)
  {
    hide CapabilityNames, Suffices, Granted, Requires, Iterable, Get;
    forall name: Json
      ensures name in CapabilityNames(state).value <==> Requires(state, name)
      ensures Suffices(capabilities, Get(state, "required_capability_states").fields, name) <==> Granted(state, capabilities, name)
    {
      NamesMean(state, name);
      SufficesMeans(state, capabilities, name);
    }
  }

  // ----- preconditions -----

  /** The state field a scope is checked against; None for an unknown scope. */
  ghost function FieldOf(scope: string): Option<string> {
    if scope == "repository_main" then Some("current_main_sha")
    else if scope == "production_revision" then Some("production_sha")
    else if scope == "branch_head" then Some("active_branch_head")
    else if scope == "active_branch" then Some("active_branch")
    else if scope == "active_worktree" then Some("active_worktree")
    else if scope == "worktree_cleanliness" then Some("active_worktree_dirty")
    else None
  }

  ghost function TextOf(text: Option<string>): Json { if text.Some? then Str(text.value) else Null }

  /** What was observed of a scope. */
  ghost function ObservedOf(o: Observed, scope: string): Json {
    if scope == "repository_main" then TextOf(o.main)
    else if scope == "production_revision" then TextOf(o.production)
    else if scope == "branch_head" then TextOf(o.head)
    else if scope == "active_branch" then TextOf(o.branch)
    else if scope == "active_worktree" then TextOf(o.worktree)
    else if scope == "worktree_cleanliness" && o.dirty.Some? then Bool(o.dirty.value)
    else Null
  }

  /** The number a value counts as: itself, or one for true and zero for false. */
  ghost function Numeral(j: Json): Option<int> {
    match j
    case Num(n) => Some(n)
    case Bool(b) => Some(if b then 1 else 0)
    case _ => None
  }

  /** Equal values, element by element and field by field, where a truth value equals its number. */
  ghost predicate Alike(a: Json, b: Json) {
    match a
    case Null => b == Null
    case Str(s) => b == Str(s)
    case Arr(items) => b.Arr? && |b.items| == |items| && forall i :: 0 <= i < |items| ==> Alike(items[i], b.items[i])
    case Obj(fields) => b.Obj? && b.fields.Keys == fields.Keys && forall k :: k in fields ==> Alike(fields[k], b.fields[k])
    case _ => Numeral(b) == Numeral(a)
  }

  lemma {:induction false} SameMeans(a: Json, b: Json)
    ensures Same(a, b) <==> Alike(a, b)
    decreases a
  {
    match a
    case Arr(items) =>
      if b.Arr? && |b.items| == |items| {
        forall i | 0 <= i < |items| ensures Norm(items[i]) == Norm(b.items[i]) <==> Alike(items[i], b.items[i]) {
          SameMeans(items[i], b.items[i]);
        }
        NormItems(a, b);
      } else {
        NormShape(a, b);
      }
    case Obj(fields) =>
      if b.Obj? && b.fields.Keys == fields.Keys {
        forall k | k in fields ensures Norm(fields[k]) == Norm(b.fields[k]) <==> Alike(fields[k], b.fields[k]) {
          SameMeans(fields[k], b.fields[k]);
        }
        NormFields(a, b);
      } else {
        NormShape(a, b);
      }
    case _ => NormShape(a, b);
  }

  lemma NormItems(a: Json, b: Json)
    requires a.Arr? && b.Arr? && |a.items| == |b.items|
    ensures Norm(a) == Norm(b) <==> forall i :: 0 <= i < |a.items| ==> Norm(a.items[i]) == Norm(b.items[i])
  {
    var x, y := Norm(a).items, Norm(b).items;
    assert |x| == |a.items| && |y| == |b.items|;
    assert forall i :: 0 <= i < |a.items| ==> x[i] == Norm(a.items[i]) && y[i] == Norm(b.items[i]);
  }

  lemma NormFields(a: Json, b: Json)
    requires a.Obj? && b.Obj? && a.fields.Keys == b.fields.Keys
    ensures Norm(a) == Norm(b) <==> forall k :: k in a.fields ==> Norm(a.fields[k]) == Norm(b.fields[k])
  {
    var x, y := Norm(a).fields, Norm(b).fields;
    assert x.Keys == a.fields.Keys && y.Keys == b.fields.Keys;
    assert forall k :: k in a.fields ==> x[k] == Norm(a.fields[k]) && y[k] == Norm(b.fields[k]);
  }

  /** Values of different shape are never alike, and plain ones are by their value. */
  lemma NormShape(a: Json, b: Json)
    requires a.Arr? ==> !(b.Arr? && |b.items| == |a.items|)
    requires a.Obj? ==> !(b.Obj? && b.fields.Keys == a.fields.Keys)
    ensures Norm(a) == Norm(b) <==> Alike(a, b)
  {
    if a.Arr? && b.Arr? { assert |Norm(a).items| == |a.items| && |Norm(b).items| == |b.items|; }
    if a.Obj? && b.Obj? { assert Norm(a).fields.Keys == a.fields.Keys && Norm(b).fields.Keys == b.fields.Keys; }
  }

  /** A precondition that holds: a state field, or an observation, has the expected value. */
  ghost predicate Holds(env: Env, state: State, o: Observed, item: Json) {
    item.Obj? &&
    (|| (Get(item.fields, "kind") == Str("state_equals")
         && var field := Get(item.fields, "field");
            Alike(Get(state, if field.Str? then field.s else env.show(field)), Get(item.fields, "expected")))
     || (Get(item.fields, "kind") == Str("observation_equals")
         && Get(item.fields, "scope").Str? && FieldOf(Get(item.fields, "scope").s).Some?
         && var scope := Get(item.fields, "scope").s;
            Alike(ObservedOf(o, scope), if Get(item.fields, "expected") == Str("checkpoint") then Get(state, FieldOf(scope).value)
                                        else Get(item.fields, "expected"))))
  }

  lemma ScopeMeans(o: Observed, scope: string)
    ensures scope in OBSERVATION_KEYS <==> FieldOf(scope).Some?
    ensures scope in OBSERVATION_KEYS ==> OBSERVATION_KEYS[scope] == FieldOf(scope).value && View(o, scope) == ObservedOf(o, scope)
  {
  }

  lemma EvaluateMeans(env: Env, state: State, o: Observed, item: Json)
    ensures Evaluate(env, state, o, item) == Met <==> Holds(env, state, o, item)
  {
    hide Norm, View, FieldOf, ObservedOf, Same, Alike;
    if item.Obj? && Get(item.fields, "scope").Str? {
      ScopeMeans(o, Get(item.fields, "scope").s);
    }
    forall a, b ensures Same(a, b) <==> Alike(a, b) { SameMeans(a, b); }
    KindsDiffer();
    hide Get;
  }

  lemma KindsDiffer()
    ensures "state_equals" != "observation_equals"
  {
    assert "state_equals"[0] != "observation_equals"[0];
  }

  /** The preconditions in force: an absent field means none. */
  ghost predicate PreconditionsHold(env: Env, state: State, o: Observed) {
    "next_action_preconditions" in state ==>
      && state["next_action_preconditions"].Arr?
      && forall item :: item in state["next_action_preconditions"].items ==> Holds(env, state, o, item)
  }

  /** The precondition gate passes exactly when every listed precondition holds. */
  lemma PreconditionsExactly(env: Env, state: State, o: Observed)
    ensures PreconditionGate(env, state, o) == Pass <==> PreconditionsHold(env, state, o)
  {
    PreconditionGatePasses(env, state, o);
    hide PreconditionGate, Evaluate, Holds;
    forall item: Json ensures Evaluate(env, state, o, item) == Met <==> Holds(env, state, o, item) {
      EvaluateMeans(env, state, o, item);
    }
  }

  // ----- observations, steps and files -----

  /** Everything was observed, as it was recorded, and the worktree is clean. */
  ghost predicate ObservedClean(state: State, o: Observed) {
    && o.main.Some? && Get(state, "current_main_sha") == Str(o.main.value)
    && o.production.Some? && Get(state, "production_sha") == Str(o.production.value)
    && o.head.Some? && Get(state, "active_branch_head") == Str(o.head.value)
    && o.branch.Some? && Get(state, "active_branch") == Str(o.branch.value)
    && o.worktree.Some? && Get(state, "active_worktree") == Str(o.worktree.value)
    && o.dirty == Some(false) && Get(state, "active_worktree_dirty") !in {Null, Bool(true)}
  }

  lemma ObservationsMean(state: State, o: Observed)
    ensures RevisionsMatch(state, o) && CleanWorktree(state, o) <==> ObservedClean(state, o)
  {
    ScopesMean(o);
    hide Get, View, AsJson;
    assert "repository_main" in REVISION_SCOPES && "production_revision" in REVISION_SCOPES && "branch_head" in REVISION_SCOPES
        && "active_branch" in REVISION_SCOPES && "active_worktree" in REVISION_SCOPES;
  }

  lemma ScopesMean(o: Observed)
    ensures View(o, "repository_main") == TextOf(o.main) && OBSERVATION_KEYS["repository_main"] == "current_main_sha"
    ensures View(o, "production_revision") == TextOf(o.production) && OBSERVATION_KEYS["production_revision"] == "production_sha"
    ensures View(o, "branch_head") == TextOf(o.head) && OBSERVATION_KEYS["branch_head"] == "active_branch_head"
    ensures View(o, "active_branch") == TextOf(o.branch) && OBSERVATION_KEYS["active_branch"] == "active_branch"
    ensures View(o, "active_worktree") == TextOf(o.worktree) && OBSERVATION_KEYS["active_worktree"] == "active_worktree"
  {
  }

  /** No recorded step is in progress. */
  ghost predicate NothingOpen(steps: seq<Json>) {
    forall step :: step in steps ==> step.Obj? && Get(step.fields, "status") != Str("IN_PROGRESS")
  }

  lemma StepsMean(steps: seq<Json>)
    ensures AllObjects(steps) && !AnyOpen(steps) <==> NothingOpen(steps)
  {
    hide Get;
    if !NothingOpen(steps) {
      var step :| step in steps && !(step.Obj? && Get(step.fields, "status") != Str("IN_PROGRESS"));
      var i :| 0 <= i < |steps| && steps[i] == step;
    }
  }

  const DURABLE: set<string> := {
    "MISSION_STATE.json", "TASK_GRAPH.json", "EVIDENCE_LEDGER.json", "BRANCH_REGISTRY.json", "SCIENTIFIC_STATE.json",
    "DECISION_LOG.jsonl", "STEP_JOURNAL.json"}

  /** The seven durable files are recorded, and every recorded file is as recorded: with this content, or absent. */
  ghost predicate FilesAsRecorded(files: map<string, string>, c: Checkpoint) {
    && c.stateFiles.Some? && DURABLE <= c.stateFiles.value.Keys
    && forall name :: name in c.stateFiles.value ==>
         match c.stateFiles.value[name]
         case None => name !in files
         case Some(digest) => name in files && digest == Sha256(Text(files[name]))
  }

  lemma FilesMean(files: map<string, string>, c: Checkpoint)
    ensures FilesIdentical(files, c) <==> FilesAsRecorded(files, c)
  {
    DurableNames();
  }

  lemma DurableNames()
    ensures forall name :: name in DURABLE_FILES <==> name in DURABLE
  {
    assert DURABLE_FILES == ["MISSION_STATE.json", "TASK_GRAPH.json", "EVIDENCE_LEDGER.json", "BRANCH_REGISTRY.json",
                             "SCIENTIFIC_STATE.json", "DECISION_LOG.jsonl", "STEP_JOURNAL.json"];
  }

  /** The latest-checkpoint file leads to a checkpoint file with its hash, mission and number, and no file has a higher six-digit number. */
  ghost predicate PointsTo(store: Store, c: Checkpoint) {
    && store.pointer.Some? && store.pointer.value.Pointer? && store.pointer.value.target in store.checkpoints
    && store.checkpoints[store.pointer.value.target] == Doc(c) && store.pointer.value.sha == Sha256(Doc(c))
    && store.pointer.value.missionId == c.missionId && store.pointer.value.id == c.id <= 999_999
    && forall n :: n in store.checkpoints && n <= 999_999 ==> n <= c.id
  }

  lemma LoadedExactly(store: Store, c: Checkpoint)
    ensures Load(store).LoadReady? && Load(store).checkpoint == c <==> PointsTo(store, c)
  {
  }

  // ----- the whole guard -----

  /** The live journal, as read, is a list of steps of which none is open. */
  ghost predicate JournalClosed(env: Env, journal: map<string, string>) {
    "STEP_JOURNAL.json" in journal ==>
      match env.parse(journal["STEP_JOURNAL.json"])
      case Some(Obj(fields)) => Get(fields, "steps").Arr? && NothingOpen(Get(fields, "steps").items)
      case _ => false
  }

  lemma JournalMeans(env: Env, journal: map<string, string>)
    ensures JournalSteps(env, journal).Some? && NothingOpen(JournalSteps(env, journal).value) <==> JournalClosed(env, journal)
  {
    hide NothingOpen, Get;
    assert NothingOpen([]) by { EmptyIsClosed(); }
  }

  lemma EmptyIsClosed()
    ensures NothingOpen([])
  {
  }

  /**
   The guard answers ready for a checkpoint exactly when the pointer leads to it, no step is open in the journal or in it,
   the durable files are as it recorded them, everything was observed as recorded in a clean worktree, every required
   capability is authorized, and every precondition holds.
   */
  lemma ReadyMeans(
    env: Env, store: Store, journal: map<string, string>, files: map<string, string>, o: Observed, capabilities: map<string, string>,
    c: Checkpoint)
    ensures var answer := GuardFrom(env, store, journal, files, o, capabilities);
            answer.ResumeReady? && answer.checkpoint == c <==>
            && PointsTo(store, c) && JournalClosed(env, journal) && NothingOpen(c.steps) && FilesAsRecorded(files, c)
            && ObservedClean(c.state, o)
            && Get(c.state, "required_capability_states").Obj? && Iterable(c.state)
            && (forall name :: Requires(c.state, name) ==> Granted(c.state, capabilities, name))
            && PreconditionsHold(env, c.state, o)
  {
    hide *;
    ReadyFromReadsExactly(env, store, journal, files, o, capabilities);
    LoadedExactly(store, c);
    if PointsTo(store, c) {
      ResumableMeans(env, journal, files, c, o, capabilities);
    }
  }

  lemma ResumableMeans(
    env: Env, journal: map<string, string>, files: map<string, string>, c: Checkpoint, o: Observed, capabilities: map<string, string>)
    ensures ResumableFrom(env, journal, files, c, o, capabilities) <==>
            && JournalClosed(env, journal) && NothingOpen(c.steps) && FilesAsRecorded(files, c)
            && ObservedClean(c.state, o)
            && Get(c.state, "required_capability_states").Obj? && Iterable(c.state)
            && (forall name :: Requires(c.state, name) ==> Granted(c.state, capabilities, name))
            && PreconditionsHold(env, c.state, o)
  {
    hide FilesIdentical, FilesAsRecorded, RevisionsMatch, CleanWorktree, ObservedClean, CapabilityGate, CapabilitiesHeld, PreconditionGate,
      PreconditionsMet, PreconditionsHold, JournalSteps, JournalClosed, NothingOpen, AllObjects, AnyOpen, Get, Iterable, Requires, Granted;
    JournalMeans(env, journal);
    if JournalSteps(env, journal).Some? { StepsMean(JournalSteps(env, journal).value); }
    StepsMean(c.steps);
    FilesMean(files, c);
    ObservationsMean(c.state, o);
    CapabilityGatePasses(c.state, capabilities);
    CapabilitiesExactly(c.state, capabilities);
    PreconditionGatePasses(env, c.state, o);
    PreconditionsExactly(env, c.state, o);
  }

  /** A ready guard has seen every listed capability authorized as required, in the literal words of the contract. */
  lemma ReadyMeansAuthorized(
    env: Env, store: Store, journal: map<string, string>, files: map<string, string>, o: Observed, capabilities: map<string, string>,
    name: string)
    requires GuardFrom(env, store, journal, files, o, capabilities).ResumeReady?
    requires var state := GuardFrom(env, store, journal, files, o, capabilities).checkpoint.state;
             Get(state, "required_capabilities").Arr? && Str(name) in Get(state, "required_capabilities").items
    ensures var state := GuardFrom(env, store, journal, files, o, capabilities).checkpoint.state;
            && Get(state, "required_capability_states").Obj? && name in Get(state, "required_capability_states").fields
            && name in capabilities
            && var required, observed := Get(state, "required_capability_states").fields[name], capabilities[name];
               || (required == Str("AUTHORIZED_WRITE") && observed == "AUTHORIZED_WRITE")
               || (required == Str("AUTHORIZED_READ") && observed in {"AUTHORIZED_READ", "AUTHORIZED_WRITE"})
               || (required == Str("AVAILABLE") && observed in {"AVAILABLE", "AUTHORIZED_READ", "AUTHORIZED_WRITE"})
  {
    hide GuardFrom, PointsTo, JournalClosed, NothingOpen, FilesAsRecorded, ObservedClean, PreconditionsHold, Iterable;
    var c := GuardFrom(env, store, journal, files, o, capabilities).checkpoint;
    ReadyMeans(env, store, journal, files, o, capabilities, c);
    assert Requires(c.state, Str(name));
  }

  // ----- which answer otherwise -----

  ghost predicate Recorded(c: Checkpoint) { c.stateFiles.Some? && DURABLE <= c.stateFiles.value.Keys }

  /** A file recorded with a content is gone. */
  ghost predicate Gone(files: map<string, string>, c: Checkpoint)
    requires c.stateFiles.Some?
  {
    exists name :: name in c.stateFiles.value && c.stateFiles.value[name].Some? && name !in files
  }

  /** Some recorded value a revision, branch, worktree or flag is compared with is null. */
  ghost predicate Unrecorded(state: State) {
    Null in {Get(state, "current_main_sha"), Get(state, "production_sha"), Get(state, "active_branch_head"),
             Get(state, "active_branch"), Get(state, "active_worktree"), Get(state, "active_worktree_dirty")}
  }

  ghost predicate Unobserved(o: Observed) {
    o.main.None? || o.production.None? || o.head.None? || o.branch.None? || o.worktree.None? || o.dirty.None?
  }

  /** A precondition without a known kind or scope. */
  ghost predicate Malformed(item: Json) {
    !item.Obj? ||
    (Get(item.fields, "kind") != Str("state_equals") &&
       (|| Get(item.fields, "kind") != Str("observation_equals")
        || !Get(item.fields, "scope").Str? || FieldOf(Get(item.fields, "scope").s).None?))
  }

  ghost predicate PreconditionsMalformed(state: State) {
    "next_action_preconditions" in state &&
    (|| !state["next_action_preconditions"].Arr?
     || exists item :: item in state["next_action_preconditions"].items && Malformed(item))
  }

  /** The answer of a guard that loaded c and met no error, in the order of its gates. */
  ghost function AnswerFor(
    env: Env, journal: map<string, string>, files: map<string, string>, p: PointerFile, c: Checkpoint, o: Observed,
    capabilities: map<string, string>): Guarded
  {
    if !JournalClosed(env, journal) || !NothingOpen(c.steps) then Stopped(Reconcile(InterruptedStep))
    else if !Recorded(c) then Stopped(Blocked(StateFileContractIncomplete))
    else if Gone(files, c) then Stopped(Blocked(StateFileMissing))
    else if !FilesAsRecorded(files, c) then Stopped(Reconcile(UncheckpointedChange))
    else if o.dirty == Some(true) then Stopped(Reconcile(UncommittedChanges))
    else if o.dirty == Some(false) && Get(c.state, "active_worktree_dirty") == Bool(true) then Stopped(Reconcile(CleanlinessChanged))
    else if Unrecorded(c.state) then Stopped(Blocked(ObservationContractIncomplete))
    else if Unobserved(o) then Stopped(Blocked(ObservationUnavailable))
    else if !Get(c.state, "required_capability_states").Obj? then Stopped(Blocked(CapabilityContractIncomplete))
    else if exists name :: Requires(c.state, name) && !Granted(c.state, capabilities, name) then Stopped(Blocked(CapabilityUnavailable))
    else if PreconditionsMalformed(c.state) then Stopped(Blocked(PreconditionInvalid))
    else if !PreconditionsHold(env, c.state, o) then Stopped(Blocked(PreconditionUnmet))
    else if !ObservedClean(c.state, o) then DriftDetected
    else ResumeReady(p, c)
  }

  lemma StepsGateMeans(env: Env, journal: map<string, string>, c: Checkpoint)
    ensures InterruptedGate(env, journal, c) in {Raises, Pass, Reconcile(InterruptedStep)}
    ensures InterruptedGate(env, journal, c) == Pass <==> JournalClosed(env, journal) && NothingOpen(c.steps)
  {
    hide JournalSteps, JournalClosed, NothingOpen, AllObjects, AnyOpen;
    JournalMeans(env, journal);
    if JournalSteps(env, journal).Some? { StepsMean(JournalSteps(env, journal).value); }
    StepsMean(c.steps);
  }

  lemma FilesGateMeans(files: map<string, string>, c: Checkpoint)
    ensures StateFilesGate(files, c) ==
            if !Recorded(c) then Blocked(StateFileContractIncomplete)
            else if Gone(files, c) then Blocked(StateFileMissing)
            else if !FilesAsRecorded(files, c) then Reconcile(UncheckpointedChange)
            else Pass
  {
    DurableNames();
    assert CoversDurableFiles(c) <==> Recorded(c);
    hide CoversDurableFiles, Recorded;
    if c.stateFiles.Some? {
      assert AnyMissing(c.stateFiles.value, files) <==> Gone(files, c);
    }
    hide Gone, AnyMissing, FilesAsRecorded, AnyChanged, FilesIdentical;
    FilesGatePasses(files, c);
    FilesMean(files, c);
  }

  lemma ObservationGateMeans(state: State, o: Observed)
    ensures ObservationGate(state, o) ==
            if Unrecorded(state) then Blocked(ObservationContractIncomplete)
            else if Unobserved(o) then Blocked(ObservationUnavailable)
            else Pass
  {
    forall scope: string
      ensures scope in OBSERVATION_KEYS <==> FieldOf(scope).Some?
      ensures scope in OBSERVATION_KEYS ==> OBSERVATION_KEYS[scope] == FieldOf(scope).value && View(o, scope) == ObservedOf(o, scope)
    {
      ScopeMeans(o, scope);
    }
    AnyField(state);
    AnyObservation(o);
    hide Get, View, ObservedOf, FieldOf;
  }

  lemma FieldNamed(scope: string)
    ensures FieldOf(scope).Some? ==> FieldOf(scope).value in {"current_main_sha", "production_sha", "active_branch_head",
                                                              "active_branch", "active_worktree", "active_worktree_dirty"}
  {
  }

  lemma FieldsNamed()
    ensures FieldOf("repository_main") == Some("current_main_sha") && FieldOf("production_revision") == Some("production_sha")
    ensures FieldOf("branch_head") == Some("active_branch_head") && FieldOf("active_branch") == Some("active_branch")
    ensures FieldOf("active_worktree") == Some("active_worktree") && FieldOf("worktree_cleanliness") == Some("active_worktree_dirty")
  {
  }

  lemma AnyField(state: State)
    ensures Unrecorded(state) <==> exists scope :: FieldOf(scope).Some? && Get(state, FieldOf(scope).value) == Null
  {
    hide FieldOf, Get;
    FieldsNamed();
    forall scope | FieldOf(scope).Some? && Get(state, FieldOf(scope).value) == Null
      ensures Unrecorded(state)
    {
      FieldNamed(scope);
    }
  }

  lemma SeenIsNull(o: Observed, scope: string)
    ensures FieldOf(scope).Some? && ObservedOf(o, scope) == Null ==> Unobserved(o)
  {
  }

  lemma AnyObservation(o: Observed)
    ensures Unobserved(o) <==> exists scope :: FieldOf(scope).Some? && ObservedOf(o, scope) == Null
  {
    ScopesSeen(o);
    FieldsNamed();
    hide FieldOf, ObservedOf;
    forall scope | FieldOf(scope).Some? && ObservedOf(o, scope) == Null
      ensures Unobserved(o)
    {
      SeenIsNull(o, scope);
    }
  }

  lemma ScopesSeen(o: Observed)
    ensures ObservedOf(o, "repository_main") == TextOf(o.main) && ObservedOf(o, "production_revision") == TextOf(o.production)
    ensures ObservedOf(o, "branch_head") == TextOf(o.head) && ObservedOf(o, "active_branch") == TextOf(o.branch)
    ensures ObservedOf(o, "active_worktree") == TextOf(o.worktree)
    ensures ObservedOf(o, "worktree_cleanliness") == if o.dirty.Some? then Bool(o.dirty.value) else Null
  {
  }

  lemma InvalidMeans(env: Env, state: State, o: Observed, item: Json)
    ensures Evaluate(env, state, o, item) in {Invalid, Raising} <==> Malformed(item)
  {
    hide Norm, View, FieldOf, Same;
    if item.Obj? && Get(item.fields, "scope").Str? {
      ScopeMeans(o, Get(item.fields, "scope").s);
    }
    KindsDiffer();
    hide Get;
  }

  lemma {:induction false} ScanMeans(env: Env, state: State, o: Observed, items: seq<Json>)
    ensures ScanPreconditions(env, state, o, items) in {Pass, Raises, Blocked(PreconditionInvalid), Blocked(PreconditionUnmet)}
    ensures ScanPreconditions(env, state, o, items) in {Raises, Blocked(PreconditionInvalid)} <==>
            exists item :: item in items && Malformed(item)
  {
    hide Evaluate, Malformed;
    if items != [] {
      var n := |items| - 1;
      ScanMeans(env, state, o, items[..n]);
      InvalidMeans(env, state, o, items[n]);
      assert forall item :: item in items <==> item in items[..n] || item == items[n];
    }
  }

  lemma PreconditionGateMeans(env: Env, state: State, o: Observed)
    ensures PreconditionGate(env, state, o) == Raises ||
            PreconditionGate(env, state, o) ==
            if PreconditionsMalformed(state) then Blocked(PreconditionInvalid)
            else if !PreconditionsHold(env, state, o) then Blocked(PreconditionUnmet)
            else Pass
  {
    PreconditionsExactly(env, state, o);
    hide ScanPreconditions, Malformed, PreconditionsHold;
    if Preconditions(state).Arr? {
      ScanMeans(env, state, o, Preconditions(state).items);
    }
  }

  lemma DriftMeans(state: State, o: Observed)
    requires !Unrecorded(state) && !Unobserved(o) && o.dirty == Some(false) && Get(state, "active_worktree_dirty") != Bool(true)
    ensures Drifted(state, o) <==> !ObservedClean(state, o)
  {
    ObservationsMean(state, o);
    ObservationsPass(state, o);
    ObservationGateMeans(state, o);
    hide Drifted, ObservedClean, ObservationGate, RevisionsMatch, CleanWorktree;
  }

  /** Whatever the guard answers after loading c without an error, it is the answer of the first gate that stops it. */
  lemma AnswerMeans(
    env: Env, store: Store, journal: map<string, string>, files: map<string, string>, o: Observed, capabilities: map<string, string>,
    c: Checkpoint)
    requires PointsTo(store, c) && GuardFrom(env, store, journal, files, o, capabilities) != Failed
    ensures GuardFrom(env, store, journal, files, o, capabilities) ==
            AnswerFor(env, journal, files, store.pointer.value, c, o, capabilities)
  {
    LoadedExactly(store, c);
    LoadedPointer(store);
    hide *;
    var gates := Gates(env, journal, files, c, o, capabilities);
    GuardDecides(env, store, journal, files, o, capabilities);
    GatesMean(env, journal, files, c, o, capabilities, store.pointer.value);
  }

  lemma LoadedPointer(store: Store)
    ensures Load(store).LoadReady? ==> store.pointer == Some(Load(store).pointer)
  {
  }

  lemma GuardDecides(
    env: Env, store: Store, journal: map<string, string>, files: map<string, string>, o: Observed, capabilities: map<string, string>)
    requires Load(store).LoadReady?
    ensures var c := Load(store).checkpoint;
            GuardFrom(env, store, journal, files, o, capabilities) ==
            Decide(Gates(env, journal, files, c, o, capabilities), Drifted(c.state, o), Load(store).pointer, c)
  {
    hide Load, Gates, Decide, Drifted;
  }

  lemma GatesMean(
    env: Env, journal: map<string, string>, files: map<string, string>, c: Checkpoint, o: Observed, capabilities: map<string, string>,
    p: PointerFile)
    requires Decide(Gates(env, journal, files, c, o, capabilities), Drifted(c.state, o), p, c) != Failed
    ensures Decide(Gates(env, journal, files, c, o, capabilities), Drifted(c.state, o), p, c) ==
            AnswerFor(env, journal, files, p, c, o, capabilities)
  {
    hide InterruptedGate, StateFilesGate, ObservationGate, CapabilityGate, PreconditionGate, Drifted, FirstStop, JournalClosed, NothingOpen,
      Recorded, Gone, FilesAsRecorded, Unrecorded, Unobserved, Requires, Granted, PreconditionsMalformed, PreconditionsHold, ObservedClean, Get;
    StepsGateMeans(env, journal, c);
    FilesGateMeans(files, c);
    WorktreeGateMeans(c.state, o);
    ObservationGateMeans(c.state, o);
    CapabilityGateMeans(c.state, capabilities);
    PreconditionGateMeans(env, c.state, o);
    var gates := Gates(env, journal, files, c, o, capabilities);
    SixGates(gates);
    if !Unrecorded(c.state) && !Unobserved(o) && WorktreeGate(c.state, o.dirty) == Pass {
      CleanIsRecorded(c.state, o);
      DriftMeans(c.state, o);
    }
    hide WorktreeGate;
  }

  lemma CleanIsRecorded(state: State, o: Observed)
    requires !Unobserved(o) && WorktreeGate(state, o.dirty) == Pass
    ensures o.dirty == Some(false) && Get(state, "active_worktree_dirty") != Bool(true)
  {
    var dirty: bool := o.dirty.value;
    assert o.dirty == Some(dirty);
    assert dirty == true || dirty == false;
  }

  lemma WorktreeGateMeans(state: State, o: Observed)
    ensures WorktreeGate(state, o.dirty) ==
            if o.dirty == Some(true) then Reconcile(UncommittedChanges)
            else if o.dirty == Some(false) && Get(state, "active_worktree_dirty") == Bool(true) then Reconcile(CleanlinessChanged)
            else Pass
  {
  }

  lemma CapabilityGateMeans(state: State, capabilities: map<string, string>)
    ensures CapabilityGate(state, capabilities) == Raises ||
            CapabilityGate(state, capabilities) ==
            if !Get(state, "required_capability_states").Obj? then Blocked(CapabilityContractIncomplete)
            else if exists name :: Requires(state, name) && !Granted(state, capabilities, name) then Blocked(CapabilityUnavailable)
            else Pass
  {
    CapabilitiesExactly(state, capabilities);
    NamesMean(state, Null);
    hide AllSuffice, AnyRaises, CapabilityNames, Iterable, Granted, Requires, Get;
  }

  /** The first of six gates that does not pass. */
  lemma SixGates(gates: seq<Gate>)
    requires |gates| == 6
    ensures FirstStop(gates) ==
            if gates[0] != Pass then gates[0] else if gates[1] != Pass then gates[1] else if gates[2] != Pass then gates[2]
            else if gates[3] != Pass then gates[3] else if gates[4] != Pass then gates[4] else gates[5]
  {
    hide FirstStop;
    StopUnfolds(gates);
    StopUnfolds(gates[1..]);
    StopUnfolds(gates[2..]);
    StopUnfolds(gates[3..]);
    StopUnfolds(gates[4..]);
    StopUnfolds(gates[5..]);
    StopUnfolds(gates[6..]);
    assert gates[1..][1..] == gates[2..] && gates[2..][1..] == gates[3..] && gates[3..][1..] == gates[4..];
    assert gates[4..][1..] == gates[5..] && gates[5..][1..] == gates[6..] == [];
  }

  // ----- when the guard fails -----

  ghost predicate Nested(j: Json) { j.Arr? || j.Obj? }

  ghost predicate NonObject(steps: seq<Json>) { exists step :: step in steps && !step.Obj? }

  ghost predicate SomeOpen(steps: seq<Json>) { exists step :: step in steps && step.Obj? && Get(step.fields, "status") == Str("IN_PROGRESS") }

  /** The steps of the journal: none when it is absent. */
  ghost predicate ListsSteps(env: Env, journal: map<string, string>, steps: seq<Json>) {
    if "STEP_JOURNAL.json" !in journal then steps == []
    else
      match env.parse(journal["STEP_JOURNAL.json"])
      case Some(Obj(fields)) => Get(fields, "steps") == Arr(steps)
      case _ => false
  }

  /** A journal without a step list, a step that is no object in it, or else one in the checkpoint once the journal has none open. */
  ghost predicate StepsFail(env: Env, journal: map<string, string>, c: Checkpoint) {
    forall steps :: ListsSteps(env, journal, steps) ==> NonObject(steps) || (!SomeOpen(steps) && NonObject(c.steps))
  }

  lemma StepShapes(steps: seq<Json>)
    ensures AllObjects(steps) <==> !NonObject(steps)
    ensures AnyOpen(steps) <==> SomeOpen(steps)
  {
    hide Get;
    assert forall step :: step in steps <==> exists i :: 0 <= i < |steps| && steps[i] == step;
  }

  lemma ListedSteps(env: Env, journal: map<string, string>, steps: seq<Json>)
    ensures JournalSteps(env, journal) == Some(steps) <==> ListsSteps(env, journal, steps)
  {
  }

  lemma StepsRaise(env: Env, journal: map<string, string>, c: Checkpoint)
    ensures InterruptedGate(env, journal, c) == Raises <==> StepsFail(env, journal, c)
  {
    hide JournalSteps, ListsSteps, AllObjects, AnyOpen, NonObject, SomeOpen;
    forall steps
      ensures JournalSteps(env, journal) == Some(steps) <==> ListsSteps(env, journal, steps)
      ensures (AllObjects(steps) <==> !NonObject(steps)) && (AnyOpen(steps) <==> SomeOpen(steps))
    {
      ListedSteps(env, journal, steps);
      StepShapes(steps);
    }
  }

  /** A list or object among the required names, or as the minimum of one observed in a usable state; or nothing to iterate. */
  ghost predicate CapabilitiesFail(state: State, capabilities: map<string, string>) {
    && Get(state, "required_capability_states").Obj?
    && (!Iterable(state)
        || exists name :: Requires(state, name)
             && (Nested(name)
                 || (name.Str? && name.s in capabilities && capabilities[name.s] in {"AVAILABLE", "AUTHORIZED_READ", "AUTHORIZED_WRITE"}
                     && Nested(Get(Get(state, "required_capability_states").fields, name.s)))))
  }

  lemma RaisingName(state: State, capabilities: map<string, string>, name: Json)
    requires Get(state, "required_capability_states").Obj?
    ensures CapabilityRaises(capabilities, Get(state, "required_capability_states").fields, name) <==>
            || Nested(name)
            || (name.Str? && name.s in capabilities && capabilities[name.s] in {"AVAILABLE", "AUTHORIZED_READ", "AUTHORIZED_WRITE"}
                && Nested(Get(Get(state, "required_capability_states").fields, name.s)))
  {
    if name.Str? && name.s in capabilities { UsableMeans(capabilities[name.s]); }
    hide Rank;
  }

  lemma UsableMeans(state: string)
    ensures Rank(state).Some? <==> state in {"AVAILABLE", "AUTHORIZED_READ", "AUTHORIZED_WRITE"}
  {
  }

  lemma CapabilitiesRaise(state: State, capabilities: map<string, string>)
    ensures CapabilityGate(state, capabilities) == Raises <==> CapabilitiesFail(state, capabilities)
  {
    hide CapabilityNames, Iterable, Requires, CapabilityRaises, AllSuffice, Get, Nested;
    NamesMean(state, Null);
    if Get(state, "required_capability_states").Obj? {
      forall name: Json
        ensures CapabilityNames(state).Some? ==> (name in CapabilityNames(state).value <==> Requires(state, name))
        ensures CapabilityRaises(capabilities, Get(state, "required_capability_states").fields, name) <==>
                || Nested(name)
                || (name.Str? && name.s in capabilities && capabilities[name.s] in {"AVAILABLE", "AUTHORIZED_READ", "AUTHORIZED_WRITE"}
                    && Nested(Get(Get(state, "required_capability_states").fields, name.s)))
      {
        NamesMean(state, name);
        RaisingName(state, capabilities, name);
      }
    }
  }

  /** An observation whose scope is a list or object. */
  ghost predicate Unscoped(item: Json) {
    item.Obj? && Get(item.fields, "kind") == Str("observation_equals") && Nested(Get(item.fields, "scope"))
  }

  /** The first malformed precondition is an observation whose scope is a list or object. */
  ghost predicate PreconditionsFail(state: State) {
    && "next_action_preconditions" in state && state["next_action_preconditions"].Arr?
    && FirstIsUnscoped(state["next_action_preconditions"].items)
  }

  ghost predicate FirstIsUnscoped(items: seq<Json>) {
    exists i :: 0 <= i < |items| && Unscoped(items[i]) && forall j :: 0 <= j < i ==> !Malformed(items[j])
  }

  lemma RaisingMeans(env: Env, state: State, o: Observed, item: Json)
    ensures Evaluate(env, state, o, item) == Raising <==> Unscoped(item)
  {
    hide Norm, View, Same;
    KindsDiffer();
    hide Get;
  }

  lemma UnscopedSnoc(items: seq<Json>)
    requires items != []
    ensures var n := |items| - 1;
            FirstIsUnscoped(items) <==>
            FirstIsUnscoped(items[..n]) || (Unscoped(items[n]) && forall item :: item in items[..n] ==> !Malformed(item))
  {
    hide Unscoped, Malformed;
    var n := |items| - 1;
    if FirstIsUnscoped(items[..n]) {
      var i :| 0 <= i < n && Unscoped(items[..n][i]) && forall j :: 0 <= j < i ==> !Malformed(items[..n][j]);
      assert Unscoped(items[i]) && forall j :: 0 <= j < i ==> items[j] == items[..n][j];
    }
    if FirstIsUnscoped(items) {
      var i :| 0 <= i < |items| && Unscoped(items[i]) && forall j :: 0 <= j < i ==> !Malformed(items[j]);
      if i < n { assert Unscoped(items[..n][i]) && forall j :: 0 <= j < i ==> items[j] == items[..n][j]; }
    }
    assert forall item :: item in items[..n] <==> exists j :: 0 <= j < n && items[j] == item;
  }

  lemma {:induction false} ScanRaises(env: Env, state: State, o: Observed, items: seq<Json>)
    ensures ScanPreconditions(env, state, o, items) == Raises <==> FirstIsUnscoped(items)
  {
    hide Evaluate, Unscoped, Malformed, FirstIsUnscoped;
    if items == [] {
      NothingUnscoped();
    } else {
      var n := |items| - 1;
      ScanRaises(env, state, o, items[..n]);
      ScanMeans(env, state, o, items[..n]);
      RaisingMeans(env, state, o, items[n]);
      UnscopedSnoc(items);
    }
  }

  lemma NothingUnscoped()
    ensures !FirstIsUnscoped([])
  {
  }

  lemma PreconditionsRaise(env: Env, state: State, o: Observed)
    ensures PreconditionGate(env, state, o) == Raises <==> PreconditionsFail(state)
  {
    hide ScanPreconditions, FirstIsUnscoped;
    if Preconditions(state).Arr? { ScanRaises(env, state, o, Preconditions(state).items); }
    NothingUnscoped();
  }

  lemma QuietGates(files: map<string, string>, state: State, o: Observed, c: Checkpoint)
    ensures StateFilesGate(files, c) != Raises && WorktreeGate(state, o.dirty) != Raises && ObservationGate(state, o) != Raises
  {
    FilesGateMeans(files, c);
    WorktreeGateMeans(state, o);
    ObservationGateMeans(state, o);
    hide StateFilesGate, WorktreeGate, ObservationGate;
  }

  /** The guard raises, after loading c, exactly when the steps, the capabilities or the preconditions cannot be read so. */
  lemma FailsExactly(
    env: Env, store: Store, journal: map<string, string>, files: map<string, string>, o: Observed, capabilities: map<string, string>,
    c: Checkpoint)
    requires PointsTo(store, c)
    ensures GuardFrom(env, store, journal, files, o, capabilities) == Failed <==>
            StepsFail(env, journal, c) || CapabilitiesFail(c.state, capabilities) || PreconditionsFail(c.state)
  {
    LoadedExactly(store, c);
    LoadedPointer(store);
    GuardDecides(env, store, journal, files, o, capabilities);
    StepsRaise(env, journal, c);
    CapabilitiesRaise(c.state, capabilities);
    PreconditionsRaise(env, c.state, o);
    QuietGates(files, c.state, o, c);
    hide Load, GuardFrom, PointsTo, InterruptedGate, StateFilesGate, WorktreeGate, ObservationGate, CapabilityGate, PreconditionGate, Drifted,
      FirstStop, StepsFail, CapabilitiesFail, PreconditionsFail;
  }
}
