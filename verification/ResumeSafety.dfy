/** When a checkpoint can be resumed, and what keeps it from being resumed (scripts/wfh_mission.py). */
module ResumeSafety {
  import opened Common
  import opened MissionState
  import opened MissionStore
  import opened CrashSafety
  import opened Resume

  // ----- right after a checkpoint -----

  predicate ObservedAsRecorded(state: State, o: Observed) {
    forall scope :: scope in OBSERVATION_KEYS ==> View(o, scope) == Expected(state, scope)
  }

  /** Every required capability is observed at its minimum authorization or above. */
  predicate CapabilitiesAtLeast(state: State, capabilities: map<string, string>)
    requires CapabilitiesOk(state)
  {
    var names, minimums := Get(state, "required_capabilities").items, Get(state, "required_capability_states").fields;
    forall i :: 0 <= i < |names| ==>
      && names[i].s in capabilities && Rank(capabilities[names[i].s]).Some?
      && Rank(capabilities[names[i].s]).value >= Rank(minimums[names[i].s].s).value
  }

  /** What the caller can check before asking: the only conditions a fresh checkpoint leaves open. */
  predicate ResumableNow(env: Env, doc: Checkpoint, o: Observed, capabilities: map<string, string>)
    requires CapabilitiesOk(doc.state)
  {
    && !AnyOpen(doc.steps)
    && ObservedAsRecorded(doc.state, o) && o.dirty == Some(false)
    && CapabilitiesAtLeast(doc.state, capabilities)
    && PreconditionsMet(env, doc.state, o)
  }

  lemma RecordedTruthy(state: State, scope: string)
    requires FieldsOk(state) && scope in REVISION_SCOPES
    ensures Get(state, OBSERVATION_KEYS[scope]) != Null
  {
    assert OBSERVATION_KEYS[scope] in REQUIRED_NONEMPTY;
  }

  lemma RecordedFlag(state: State)
    requires FieldsOk(state)
    ensures Get(state, "active_worktree_dirty").Bool?
  {
    assert "active_worktree_dirty" in REQUIRED_PRESENT;
  }

  lemma ObservationsOfValidState(state: State, o: Observed)
    requires FieldsOk(state)
    ensures RevisionsMatch(state, o) && CleanWorktree(state, o) <==> ObservedAsRecorded(state, o) && o.dirty == Some(false)
  {
    RecordedFlag(state);
    forall scope | scope in REVISION_SCOPES
      ensures Get(state, OBSERVATION_KEYS[scope]) != Null && scope in OBSERVATION_KEYS
    {
      RecordedTruthy(state, scope);
      RevisionScopes(scope);
    }
    hide FieldsOk, Get, AsJson;
    assert View(o, "worktree_cleanliness") == if o.dirty.Some? then Bool(o.dirty.value) else Null;
    assert "worktree_cleanliness" in OBSERVATION_KEYS;
    forall scope: string
      ensures scope in OBSERVATION_KEYS <==> scope in REVISION_SCOPES || scope == "worktree_cleanliness"
    {
      RevisionScopes(scope);
    }
    hide View;
  }

  lemma MinimumOfName(state: State, i: nat)
    requires CapabilitiesOk(state) && i < |Get(state, "required_capabilities").items|
    ensures var name := Get(state, "required_capabilities").items[i];
            var minimums := Get(state, "required_capability_states").fields;
            name.Str? && name.s in minimums && minimums[name.s].Str? && Rank(minimums[name.s].s).Some?
  {
  }

  lemma CapabilitiesOfValidState(state: State, capabilities: map<string, string>)
    requires CapabilitiesOk(state)
    ensures CapabilitiesHeld(state, capabilities) <==> CapabilitiesAtLeast(state, capabilities)
  {
    var names, minimums := Get(state, "required_capabilities").items, Get(state, "required_capability_states").fields;
    assert "required_capabilities" in state;
    assert CapabilityNames(state) == Some(set i | 0 <= i < |names| :: names[i]);
    var all := CapabilityNames(state).value;
    forall i | 0 <= i < |names|
      ensures names[i] in all
      ensures Suffices(capabilities, minimums, names[i]) <==>
              && names[i].s in capabilities && Rank(capabilities[names[i].s]).Some?
              && Rank(capabilities[names[i].s]).value >= Rank(minimums[names[i].s].s).value
    {
      MinimumOfName(state, i);
    }
    hide CapabilitiesOk, Suffices, Rank;
    if CapabilitiesAtLeast(state, capabilities) {
      forall name | name in all
        ensures Suffices(capabilities, minimums, name)
      {
        var i :| 0 <= i < |names| && names[i] == name;
      }
    }
  }

  lemma JournalOfCreatable(env: Env, durable: map<string, string>, id: nat)
    requires Creatable(env, durable)
    ensures JournalSteps(env, durable) == Some(CheckpointOf(env, durable, id).steps)
    ensures AllObjects(CheckpointOf(env, durable, id).steps)
  {
    hide ValidState;
    JournalHasSteps(env, durable);
    assert JOURNAL_FILE in DURABLE_FILES;
    var steps := CheckpointOf(env, durable, id).steps;
    forall i | 0 <= i < |steps|
      ensures steps[i].Obj?
    {
      assert StepOk(steps[i]);
    }
  }

  lemma StateOfCreatable(env: Env, durable: map<string, string>, id: nat)
    requires Creatable(env, durable)
    ensures FieldsOk(CheckpointOf(env, durable, id).state) && CapabilitiesOk(CheckpointOf(env, durable, id).state)
    ensures PreconditionsOk(CheckpointOf(env, durable, id).state)
  {
    hide FieldsOk, CapabilitiesOk, PreconditionsOk, JournalOk, HashesOf;
  }

  lemma LoadsAfterPointerWrite(store: Store, doc: Checkpoint, n: nat)
    requires doc.id == Highest(store.checkpoints.Keys) + 1 && doc.id <= MAX_ID && 2 <= n <= 3
    ensures Load(AfterWrites(store, doc, n)) == LoadReady(PointerTo(doc), doc)
    ensures AfterWrites(store, doc, n).durable == store.durable
  {
    WritesUnfold(store, doc);
    FreshNumber(store.checkpoints.Keys, doc.id);
    hide AfterWrites, Highest;
    assert AfterWrites(store, doc, 1).checkpoints.Keys == store.checkpoints.Keys + {doc.id};
  }

  /**
   The same for a checkpoint from files that were edited while they were read: once its pointer write is reached, the
   guard is ready exactly under the conditions the caller can check, a live journal without an open step, and files that
   are still what was hashed.
   */
  lemma NewCheckpointIsReadyExactly(env: Env, store: Store, r: Reads, n: nat, o: Observed, capabilities: map<string, string>)
    requires CreatableFrom(env, r) && Highest(store.checkpoints.Keys) < MAX_ID && 2 <= n <= 3
    ensures var doc := CheckpointFrom(env, r, Highest(store.checkpoints.Keys) + 1);
            && CapabilitiesOk(doc.state)
            && (Guard(env, AfterWrites(store, doc, n), o, capabilities) == ResumeReady(PointerTo(doc), doc)
                <==> && NoOpenStep(env, store.durable, doc)
                     && (forall name :: name in DURABLE_FILES ==> HashOf(store.durable, name) == HashOf(r.hashed, name))
                     && ResumableNow(env, doc, o, capabilities))
  {
    var doc := CheckpointFrom(env, r, Highest(store.checkpoints.Keys) + 1);
    CapturedBy(env, r, doc.id);
    hide CreatableFrom, CheckpointFrom, FieldsOk, CapabilitiesOk, AfterWrites, Load, Guard, FilesIdentical, CapabilitiesHeld,
      CapabilitiesAtLeast, RevisionsMatch, CleanWorktree, ObservedAsRecorded, PreconditionsMet, AnyOpen, AllObjects, HashesOf, Highest;
    LoadsAfterPointerWrite(store, doc, n);
    ReadyExactly(env, AfterWrites(store, doc, n), o, capabilities);
    IdenticalToCaptured(r.hashed, store.durable, doc);
    ObservationsOfValidState(doc.state, o);
    CapabilitiesOfValidState(doc.state, capabilities);
  }

  /**
   Right after a checkpoint reaches its pointer write, with nothing changed since, the guard answers ready exactly when
   no step is in progress, the worktree is clean, every observation equals the recorded one, every capability is at
   least its minimum and every precondition is met.
   */
  lemma FreshCheckpointIsReadyExactly(env: Env, store: Store, n: nat, o: Observed, capabilities: map<string, string>)
    requires Creatable(env, store.durable) && Highest(store.checkpoints.Keys) < MAX_ID && 2 <= n <= 3
    ensures var doc := CheckpointOf(env, store.durable, Highest(store.checkpoints.Keys) + 1);
            && CapabilitiesOk(doc.state)
            && (Guard(env, AfterWrites(store, doc, n), o, capabilities) == ResumeReady(PointerTo(doc), doc)
                <==> ResumableNow(env, doc, o, capabilities))
  {
    var id := Highest(store.checkpoints.Keys) + 1;
    var doc := CheckpointOf(env, store.durable, id);
    DocumentHashes(env, store.durable, id);
    StateOfCreatable(env, store.durable, id);
    JournalOfCreatable(env, store.durable, id);
    hide Creatable, CheckpointOf, FieldsOk, CapabilitiesOk, AfterWrites, Load, Guard, FilesIdentical, CapabilitiesHeld,
      CapabilitiesAtLeast, RevisionsMatch, CleanWorktree, ObservedAsRecorded, PreconditionsMet, AnyOpen, AllObjects, HashesOf, Highest;
    LoadsAfterPointerWrite(store, doc, n);
    ReadyExactly(env, AfterWrites(store, doc, n), o, capabilities);
    IdenticalToCaptured(store.durable, store.durable, doc);
    ObservationsOfValidState(doc.state, o);
    CapabilitiesOfValidState(doc.state, capabilities);
  }

  // ----- which checkpoints can be resumed at all -----

  function TextIn(j: Json): Option<string> { if j.Str? then Some(j.s) else None }

  /** The only observation that can match a record: the one read off it. */
  function AsRecorded(state: State): Observed {
    var dirty := Get(state, "active_worktree_dirty");
    Observed(
      TextIn(Get(state, "current_main_sha")), TextIn(Get(state, "production_sha")), TextIn(Get(state, "active_branch_head")),
      TextIn(Get(state, "active_branch")), TextIn(Get(state, "active_worktree")), if dirty.Bool? then Some(dirty.b) else None)
  }

  /** The top authorization for everything that is required. */
  function EveryCapability(state: State): map<string, string>
    requires CapabilitiesOk(state)
  {
    map name | name in Get(state, "required_capability_states").fields :: "AUTHORIZED_WRITE"
  }

  /** What the record itself must say for any observation to resume it. */
  predicate EverResumable(env: Env, doc: Checkpoint) {
    && !AnyOpen(doc.steps)
    && Get(doc.state, "active_worktree_dirty") == Bool(false)
    && Get(doc.state, "active_branch").Str? && Get(doc.state, "active_worktree").Str?
    && PreconditionsMet(env, doc.state, AsRecorded(doc.state))
  }

  lemma ScopeNames()
    ensures forall scope :: scope in OBSERVATION_KEYS <==>
              scope in {"repository_main", "production_revision", "branch_head", "active_branch", "active_worktree", "worktree_cleanliness"}
    ensures OBSERVATION_KEYS["repository_main"] == "current_main_sha" && OBSERVATION_KEYS["production_revision"] == "production_sha"
    ensures OBSERVATION_KEYS["branch_head"] == "active_branch_head" && OBSERVATION_KEYS["active_branch"] == "active_branch"
    ensures OBSERVATION_KEYS["active_worktree"] == "active_worktree"
    ensures OBSERVATION_KEYS["worktree_cleanliness"] == "active_worktree_dirty"
  {
  }

  lemma RevisionsAreText(state: State)
    requires FieldsOk(state)
    ensures Get(state, "current_main_sha").Str? && Get(state, "production_sha").Str? && Get(state, "active_branch_head").Str?
    ensures Get(state, "active_branch") != Null && Get(state, "active_worktree") != Null
  {
    assert "current_main_sha" in SHA_FIELDS && "production_sha" in SHA_FIELDS && "active_branch_head" in SHA_FIELDS;
    assert "current_main_sha" in REQUIRED_NONEMPTY && "production_sha" in REQUIRED_NONEMPTY && "active_branch_head" in REQUIRED_NONEMPTY;
    assert "active_branch" in REQUIRED_NONEMPTY && "active_worktree" in REQUIRED_NONEMPTY;
    hide Get;
  }

  /** The six scopes one by one. */
  predicate SixAgree(state: State, o: Observed) {
    && AsJson(o.main) == Get(state, "current_main_sha") && AsJson(o.production) == Get(state, "production_sha")
    && AsJson(o.head) == Get(state, "active_branch_head") && AsJson(o.branch) == Get(state, "active_branch")
    && AsJson(o.worktree) == Get(state, "active_worktree")
    && (if o.dirty.Some? then Bool(o.dirty.value) else Null) == Get(state, "active_worktree_dirty")
  }

  lemma ViewsOf(o: Observed)
    ensures View(o, "repository_main") == AsJson(o.main) && View(o, "production_revision") == AsJson(o.production)
    ensures View(o, "branch_head") == AsJson(o.head) && View(o, "active_branch") == AsJson(o.branch)
    ensures View(o, "active_worktree") == AsJson(o.worktree)
    ensures View(o, "worktree_cleanliness") == if o.dirty.Some? then Bool(o.dirty.value) else Null
  {
    hide AsJson;
  }

  lemma ObservedIsSix(state: State, o: Observed)
    ensures ObservedAsRecorded(state, o) <==> SixAgree(state, o)
  {
    ScopeNames();
    ViewsOf(o);
    hide Get, AsJson, View;
    assert "repository_main" in OBSERVATION_KEYS && "production_revision" in OBSERVATION_KEYS && "branch_head" in OBSERVATION_KEYS;
    assert "active_branch" in OBSERVATION_KEYS && "active_worktree" in OBSERVATION_KEYS && "worktree_cleanliness" in OBSERVATION_KEYS;
  }

  /** The record determines the observation that matches it, and one that matches exists exactly for text and a flag. */
  lemma RecordDeterminesObservation(state: State, o: Observed)
    requires FieldsOk(state)
    ensures ObservedAsRecorded(state, o) && o.dirty == Some(false) <==>
            && o == AsRecorded(state) && Get(state, "active_worktree_dirty") == Bool(false)
            && Get(state, "active_branch").Str? && Get(state, "active_worktree").Str?
  {
    RevisionsAreText(state);
    ObservedIsSix(state, o);
    hide Get, FieldsOk, ObservedAsRecorded;
  }

  lemma EveryCapabilitySuffices(state: State)
    requires CapabilitiesOk(state)
    ensures CapabilitiesAtLeast(state, EveryCapability(state))
  {
    var names, minimums := Get(state, "required_capabilities").items, Get(state, "required_capability_states").fields;
    forall i | 0 <= i < |names|
      ensures names[i].s in minimums && Rank(minimums[names[i].s].s).Some? && Rank(minimums[names[i].s].s).value <= 2
    {
      MinimumOfName(state, i);
    }
    assert Rank("AUTHORIZED_WRITE") == Some(2);
    hide Rank, CapabilitiesOk, Get;
  }

  lemma ResumableNeedsRecord(env: Env, doc: Checkpoint, o: Observed, capabilities: map<string, string>)
    requires FieldsOk(doc.state) && CapabilitiesOk(doc.state) && ResumableNow(env, doc, o, capabilities)
    ensures EverResumable(env, doc)
  {
    hide FieldsOk, CapabilitiesOk, CapabilitiesAtLeast, ObservedAsRecorded, AnyOpen, PreconditionsMet, AsRecorded, Get;
    RecordDeterminesObservation(doc.state, o);
  }

  lemma RecordSuffices(env: Env, doc: Checkpoint)
    requires FieldsOk(doc.state) && CapabilitiesOk(doc.state) && EverResumable(env, doc)
    ensures ResumableNow(env, doc, AsRecorded(doc.state), EveryCapability(doc.state))
  {
    hide FieldsOk, CapabilitiesOk, CapabilitiesAtLeast, ObservedAsRecorded, AnyOpen, PreconditionsMet, EveryCapability, Get;
    RecordedFlagRead(doc.state);
    RecordDeterminesObservation(doc.state, AsRecorded(doc.state));
    EveryCapabilitySuffices(doc.state);
  }

  lemma RecordedFlagRead(state: State)
    ensures Get(state, "active_worktree_dirty") == Bool(false) ==> AsRecorded(state).dirty == Some(false)
  {
    hide Get;
  }

  /** Some observation and some capabilities make a checkpoint of a valid state resumable exactly when its record allows it. */
  lemma ResumableExactly(env: Env, doc: Checkpoint)
    requires FieldsOk(doc.state) && CapabilitiesOk(doc.state)
    ensures (exists o, capabilities :: ResumableNow(env, doc, o, capabilities)) <==> EverResumable(env, doc)
  {
    hide *;
    if EverResumable(env, doc) {
      RecordSuffices(env, doc);
    } else {
      forall o, capabilities
        ensures !ResumableNow(env, doc, o, capabilities)
      {
        if ResumableNow(env, doc, o, capabilities) {
          ResumableNeedsRecord(env, doc, o, capabilities);
        }
      }
    }
  }

  /** Some observation and some capabilities make the guard answer ready. */
  ghost predicate CanBeResumed(env: Env, store: Store, doc: Checkpoint) {
    exists o, capabilities :: Guard(env, store, o, capabilities) == ResumeReady(PointerTo(doc), doc)
  }

  lemma ReadyIsResumed(env: Env, store: Store, doc: Checkpoint, o: Observed, capabilities: map<string, string>)
    requires Guard(env, store, o, capabilities) == ResumeReady(PointerTo(doc), doc)
    ensures CanBeResumed(env, store, doc)
  {
    hide Guard;
  }

  lemma NeverReadyIsNotResumed(env: Env, store: Store, doc: Checkpoint)
    requires forall o, capabilities :: Guard(env, store, o, capabilities) != ResumeReady(PointerTo(doc), doc)
    ensures !CanBeResumed(env, store, doc)
  {
    hide Guard;
  }

  /**
   A fresh checkpoint can be resumed at all exactly when no step is open in it, the worktree was recorded clean, branch
   and worktree are text, and its preconditions are a list met by the recorded observations.
   */
  lemma FreshCheckpointCanBeResumedExactly(env: Env, store: Store, n: nat)
    requires Creatable(env, store.durable) && Highest(store.checkpoints.Keys) < MAX_ID && 2 <= n <= 3
    ensures var doc := CheckpointOf(env, store.durable, Highest(store.checkpoints.Keys) + 1);
            CanBeResumed(env, AfterWrites(store, doc, n), doc) <==> EverResumable(env, doc)
  {
    hide *;
    var doc := CheckpointOf(env, store.durable, Highest(store.checkpoints.Keys) + 1);
    StateOfCreatable(env, store.durable, Highest(store.checkpoints.Keys) + 1);
    if EverResumable(env, doc) {
      RecordSuffices(env, doc);
      FreshCheckpointIsReadyExactly(env, store, n, AsRecorded(doc.state), EveryCapability(doc.state));
      ReadyIsResumed(env, AfterWrites(store, doc, n), doc, AsRecorded(doc.state), EveryCapability(doc.state));
    } else {
      forall o, capabilities
        ensures Guard(env, AfterWrites(store, doc, n), o, capabilities) != ResumeReady(PointerTo(doc), doc)
      {
        FreshCheckpointIsReadyExactly(env, store, n, o, capabilities);
        if ResumableNow(env, doc, o, capabilities) {
          ResumableNeedsRecord(env, doc, o, capabilities);
        }
      }
      NeverReadyIsNotResumed(env, AfterWrites(store, doc, n), doc);
    }
  }

  lemma DocumentHashes(env: Env, durable: map<string, string>, id: nat)
    requires Creatable(env, durable)
    ensures CheckpointOf(env, durable, id).id == id
    ensures CheckpointOf(env, durable, id).stateFiles == Some(HashesOf(durable, DURABLE_FILES))
  {
    hide Creatable, HashesOf, ParseObject;
  }

  // ----- what prevents a resume -----

  /** A checkpoint whose preconditions are an explicit null passes validation and can never be resumed. */
  lemma NullPreconditionsNeverResume(env: Env, store: Store, o: Observed, capabilities: map<string, string>)
    requires Load(store).LoadReady? && Preconditions(Load(store).checkpoint.state) == Null
    ensures PreconditionsOk(Load(store).checkpoint.state) && !Guard(env, store, o, capabilities).ResumeReady?
  {
    ReadyExactly(env, store, o, capabilities);
  }

  /** A step that is in progress in the live journal blocks every resume, whatever was observed. */
  lemma OpenStepBlocks(env: Env, store: Store, o: Observed, capabilities: map<string, string>)
    requires JournalSteps(env, store.durable).Some? && AnyOpen(JournalSteps(env, store.durable).value)
    ensures !Guard(env, store, o, capabilities).ResumeReady?
  {
    hide Guard, Load;
    ReadyExactly(env, store, o, capabilities);
  }

  lemma ReadBack(env: Env, durable: map<string, string>, steps: seq<Json>)
    requires RoundTrips(env)
    ensures JournalSteps(env, WithSteps(env, durable, steps)) == Some(steps)
  {
    var journal := JournalObject(env, durable)["steps" := Arr(steps)];
    assert env.parse(env.render(Obj(journal))) == Some(Obj(journal));
  }

  /** Starting a step blocks every resume until the journal changes again. */
  lemma StartedStepBlocks(env: Env, store: Store, record: State, o: Observed, capabilities: map<string, string>)
    requires RoundTrips(env) && JournalSteps(env, store.durable).Some? && InProgress(Obj(record))
    ensures var steps := JournalSteps(env, store.durable).value;
            var started := store.(durable := WithSteps(env, store.durable, steps + [Obj(record)]));
            !Guard(env, started, o, capabilities).ResumeReady?
  {
    var steps := JournalSteps(env, store.durable).value;
    var started := store.(durable := WithSteps(env, store.durable, steps + [Obj(record)]));
    ReadBack(env, store.durable, steps + [Obj(record)]);
    assert (steps + [Obj(record)])[|steps|] == Obj(record);
    OpenStepBlocks(env, started, o, capabilities);
  }

  /** Completing the step that was just started closes that step and leaves every other record as it was. */
  lemma CompletionClosesTheStartedStep(env: Env, durable: map<string, string>, record: State, id: string, completedAt: string)
    requires RoundTrips(env) && JournalSteps(env, durable).Some? && Get(record, "step_id") == Str(id)
    requires FirstWith(JournalSteps(env, durable).value, Str(id)).None?
    ensures var steps := JournalSteps(env, durable).value;
            var started := WithSteps(env, durable, steps + [Obj(record)]);
            var completed := Obj(record["status" := Str("COMPLETE")]["completed_at" := Str(completedAt)]);
            && JournalSteps(env, started) == Some(steps + [Obj(record)])
            && FirstWith(steps + [Obj(record)], Str(id)) == Some(|steps|) && !InProgress(completed)
            && JournalSteps(env, WithSteps(env, started, (steps + [Obj(record)])[|steps| := completed])) == Some(steps + [completed])
  {
    hide WithSteps, JournalSteps, RoundTrips, FirstWith;
    var steps := JournalSteps(env, durable).value;
    var started := WithSteps(env, durable, steps + [Obj(record)]);
    var completed := Obj(record["status" := Str("COMPLETE")]["completed_at" := Str(completedAt)]);
    ReadBack(env, durable, steps + [Obj(record)]);
    FirstIs(steps + [Obj(record)], Str(id), |steps|);
    assert (steps + [Obj(record)])[|steps| := completed] == steps + [completed];
    ReadBack(env, started, steps + [completed]);
    Completed(record, completedAt);
  }

  lemma Completed(record: State, completedAt: string)
    ensures !InProgress(Obj(record["status" := Str("COMPLETE")]["completed_at" := Str(completedAt)]))
  {
    assert "COMPLETE"[0] != "IN_PROGRESS"[0] && "status"[0] != "completed_at"[0];
  }

  /** A crash after the checkpoint file but before the pointer keeps the guard blocked until some pointer write. */
  lemma CrashBeforePointerKeepsGuardBlocked(
      env: Env, w: World, actions: seq<Action>, o: Observed, capabilities: map<string, string>)
    requires Safe(w) && w.writer.Writing? && w.writer.written == 0
    requires IsRun(Apply(Apply(w, Write), Crash), actions) && NeverWritesPointer(Apply(Apply(w, Write), Crash), actions)
    ensures Guard(env, Final(Apply(Apply(w, Write), Crash), actions).store, o, capabilities).NotLoaded?
  {
    CrashBeforePointerBlocksResume(w, actions);
  }
}
