/** A mission directory whose first checkpoint can be resumed: the conditions of the resume theorems can be met. */
module ResumeExample {
  import opened Common
  import opened MissionState
  import opened MissionStore
  import opened CrashSafety
  import opened Resume
  import opened ResumeSafety

  const SHA: string := "aaaaaaaaaaaaaaaaaaaaaaaaaaaaaaaaaaaaaaaa"

  function RequiredFields(): State { map k | k in REQUIRED_NONEMPTY :: Str(SHA) }

  const STATE: State := RequiredFields()[
    "contract_version" := Str(CONTRACT)]["project" := Str(PROJECT)]["repository" := Str(REPOSITORY)][
    "active_worktree_dirty" := Bool(false)]["required_capabilities" := Arr([])]["required_capability_states" := Obj(map[])]

  const JOURNAL: State := map["contract_version" := Str("wfh_step_journal_v1"), "steps" := Arr([])]

  /** File texts are single letters, "t" being an empty object; everything a validator outside this model would check is granted. */
  function EnvOf(state: State): Env {
    Env(text => if text == "s" then Some(Obj(state)) else if text == "j" then Some(Obj(JOURNAL))
                else if text == "t" then Some(Obj(map[])) else None,
        _ => "j", _ => "", _ => true, (_, _) => true)
  }

  /** The same state with an explicit null in place of its precondition list. */
  const NULL_STATE: State := STATE["next_action_preconditions" := Null]

  function Durable(): map<string, string> {
    map name | name in DURABLE_FILES :: if name == STATE_FILE then "s" else if name == JOURNAL_FILE then "j" else "x"
  }

  const EMPTY: Store := Store(Durable(), map[], None, None)

  const OBSERVED: Observed := Observed(Some(SHA), Some(SHA), Some(SHA), Some(SHA), Some(SHA), Some(false))

  lemma ShaIsSha()
    ensures IsSha(Str(SHA)) && Truthy(Str(SHA))
  {
    assert |SHA| == 40;
  }

  lemma Updated(base: State, key: string, value: Json, k: string)
    ensures Get(base[key := value], k) == if k == key then value else Get(base, k)
    ensures k in base[key := value] <==> k == key || k in base
  {
  }

  /** Every field of the example, by name. */
  lemma FieldOf(k: string)
    ensures Get(STATE, k) ==
            if k == "required_capability_states" then Obj(map[])
            else if k == "required_capabilities" then Arr([])
            else if k == "active_worktree_dirty" then Bool(false)
            else if k == "repository" then Str(REPOSITORY)
            else if k == "project" then Str(PROJECT)
            else if k == "contract_version" then Str(CONTRACT)
            else if k in REQUIRED_NONEMPTY then Str(SHA)
            else Null
  {
    hide Get;
    var s0 := RequiredFields();
    var s1 := s0["contract_version" := Str(CONTRACT)];
    var s2 := s1["project" := Str(PROJECT)];
    var s3 := s2["repository" := Str(REPOSITORY)];
    var s4 := s3["active_worktree_dirty" := Bool(false)];
    var s5 := s4["required_capabilities" := Arr([])];
    Updated(s5, "required_capability_states", Obj(map[]), k);
    Updated(s4, "required_capabilities", Arr([]), k);
    Updated(s3, "active_worktree_dirty", Bool(false), k);
    Updated(s2, "repository", Str(REPOSITORY), k);
    Updated(s1, "project", Str(PROJECT), k);
    Updated(s0, "contract_version", Str(CONTRACT), k);
    Base(k);
  }

  lemma Base(k: string)
    ensures Get(RequiredFields(), k) == if k in REQUIRED_NONEMPTY then Str(SHA) else Null
  {
  }

  lemma RequiredName(k: string)
    requires k in REQUIRED_NONEMPTY
    ensures k !in {"required_capability_states", "required_capabilities", "active_worktree_dirty"}
  {
  }

  lemma RequiredValue(k: string)
    requires k in REQUIRED_NONEMPTY
    ensures Truthy(Get(STATE, k))
    ensures k in SHA_FIELDS ==> Get(STATE, k) == Str(SHA)
  {
    hide Get;
    FieldOf(k);
    RequiredName(k);
    ShaIsSha();
    ShaName(k);
  }

  lemma ShaName(k: string)
    ensures k in SHA_FIELDS ==> k in REQUIRED_NONEMPTY && k !in {"repository", "project", "contract_version"}
  {
  }

  lemma Identity()
    ensures Get(STATE, "contract_version") == Str(CONTRACT) && Get(STATE, "project") == Str(PROJECT)
    ensures Get(STATE, "repository") == Str(REPOSITORY)
    ensures Get(STATE, "active_worktree_dirty") == Bool(false) && Get(STATE, "required_capabilities") == Arr([])
    ensures Get(STATE, "required_capability_states") == Obj(map[]) && Preconditions(STATE) == Arr([])
  {
    FieldOf("contract_version");
    FieldOf("project");
    FieldOf("repository");
    FieldOf("active_worktree_dirty");
    FieldOf("required_capabilities");
    FieldOf("required_capability_states");
    NoPreconditions();
  }

  lemma NoPreconditions()
    ensures Preconditions(STATE) == Arr([])
  {
    assert "next_action_preconditions" !in REQUIRED_NONEMPTY;
  }

  lemma PresentNames()
    ensures forall k :: k in REQUIRED_PRESENT ==> k in STATE
    ensures STATE["active_worktree_dirty"] == Bool(false)
  {
    Identity();
    hide Get;
    assert REQUIRED_PRESENT == ["active_worktree_dirty", "required_capabilities", "required_capability_states"];
  }

  lemma FieldsAreOk()
    ensures FieldsOk(STATE)
  {
    Identity();
    ShaIsSha();
    PresentNames();
    forall k | k in REQUIRED_NONEMPTY
      ensures Truthy(Get(STATE, k))
    {
      RequiredValue(k);
    }
    forall k | k in SHA_FIELDS
      ensures IsSha(Get(STATE, k))
    {
      ShaName(k);
      RequiredValue(k);
    }
    hide Get, Truthy, IsSha, Preconditions;
  }

  lemma CapabilitiesAreOk()
    ensures CapabilitiesOk(STATE)
  {
    Identity();
    hide Get, Preconditions;
  }

  lemma StateIsValid()
    ensures ValidState(STATE, EnvOf(STATE).secretFree)
  {
    FieldsAreOk();
    CapabilitiesAreOk();
    Identity();
    hide FieldsOk, CapabilitiesOk, Get, Preconditions;
  }

  lemma FilesRead(state: State)
    ensures ParseObject(EnvOf(state), Durable(), STATE_FILE) == Some(state)
    ensures ParseObject(EnvOf(state), Durable(), JOURNAL_FILE) == Some(JOURNAL)
  {
    assert STATE_FILE in DURABLE_FILES && JOURNAL_FILE in DURABLE_FILES;
    assert STATE_FILE[0] != JOURNAL_FILE[0];
    assert "s" != "j";
  }

  lemma StoreIsCreatable(state: State)
    requires ValidState(state, EnvOf(state).secretFree)
    ensures Creatable(EnvOf(state), EMPTY.durable)
  {
    FilesRead(state);
    hide ValidState, ParseObject, Seen;
  }

  lemma NothingIsHighest()
    ensures Highest(EMPTY.checkpoints.Keys) == 0 && Highest(EMPTY.checkpoints.Keys) < MAX_ID
  {
    assert IsHighest(EMPTY.checkpoints.Keys, 0);
  }

  lemma ObservedIsRecorded(scope: string)
    requires scope in OBSERVATION_KEYS
    ensures View(OBSERVED, scope) == Expected(STATE, scope)
  {
    Identity();
    RevisionScopes(scope);
    if scope in REVISION_SCOPES {
      assert OBSERVATION_KEYS[scope] in SHA_FIELDS || OBSERVATION_KEYS[scope] in {"active_branch", "active_worktree"};
      FieldOf(OBSERVATION_KEYS[scope]);
    }
    hide Get, Preconditions;
  }

  lemma FirstCheckpoint(state: State, doc: Checkpoint)
    requires Creatable(EnvOf(state), EMPTY.durable) && doc == CheckpointOf(EnvOf(state), EMPTY.durable, 1)
    ensures doc.state == state && doc.steps == []
  {
    FilesRead(state);
    hide Creatable, ParseObject, HashesOf;
  }

  lemma ReadyNow(doc: Checkpoint)
    requires doc.state == STATE && doc.steps == [] && CapabilitiesOk(doc.state)
    ensures ResumableNow(EnvOf(STATE), doc, OBSERVED, map[])
  {
    Identity();
    forall scope | scope in OBSERVATION_KEYS
      ensures View(OBSERVED, scope) == Expected(STATE, scope)
    {
      ObservedIsRecorded(scope);
    }
    hide Get, Preconditions, View, Expected, CapabilitiesOk;
  }

  /** The first checkpoint of this directory, completely written and then observed as recorded, is ready to resume. */
  lemma FirstCheckpointCanBeResumed()
    ensures Creatable(EnvOf(STATE), EMPTY.durable) && Highest(EMPTY.checkpoints.Keys) == 0
    ensures var doc := CheckpointOf(EnvOf(STATE), EMPTY.durable, 1);
            Guard(EnvOf(STATE), AfterWrites(EMPTY, doc, 3), OBSERVED, map[]) == ResumeReady(PointerTo(doc), doc)
  {
    hide *;
    StateIsValid();
    StoreIsCreatable(STATE);
    NothingIsHighest();
    var doc := CheckpointOf(EnvOf(STATE), EMPTY.durable, 1);
    FreshCheckpointIsReadyExactly(EnvOf(STATE), EMPTY, 3, OBSERVED, map[]);
    FirstCheckpoint(STATE, doc);
    ReadyNow(doc);
  }

  // ----- a null precondition list -----

  lemma PreconditionsAreElsewhere(k: string)
    ensures k in REQUIRED_NONEMPTY || k in REQUIRED_PRESENT || k in SHA_FIELDS ==> k != "next_action_preconditions"
  {
  }

  lemma OtherFieldsStay(k: string)
    requires k != "next_action_preconditions"
    ensures Get(NULL_STATE, k) == Get(STATE, k) && (k in NULL_STATE <==> k in STATE)
  {
    Updated(STATE, "next_action_preconditions", Null, k);
  }

  lemma NullFieldsAreOk()
    ensures FieldsOk(NULL_STATE)
  {
    FieldsAreOk();
    NullDirty();
    forall k: string
      ensures k in REQUIRED_NONEMPTY || k in REQUIRED_PRESENT || k in SHA_FIELDS ==>
                Get(NULL_STATE, k) == Get(STATE, k) && (k in NULL_STATE <==> k in STATE)
    {
      PreconditionsAreElsewhere(k);
      if k != "next_action_preconditions" {
        OtherFieldsStay(k);
      }
    }
    assert "contract_version" in REQUIRED_NONEMPTY && "project" in REQUIRED_NONEMPTY && "repository" in REQUIRED_NONEMPTY;
    hide Get, Truthy, IsSha;
  }

  lemma NullDirty()
    ensures "active_worktree_dirty" in NULL_STATE && NULL_STATE["active_worktree_dirty"].Bool?
  {
    PresentNames();
    assert "active_worktree_dirty" in REQUIRED_PRESENT;
    PreconditionsAreElsewhere("active_worktree_dirty");
  }

  lemma NullCapabilitiesAreOk()
    ensures CapabilitiesOk(NULL_STATE)
  {
    CapabilitiesAreOk();
    assert "required_capabilities" != "next_action_preconditions" by { assert "required_capabilities"[0] != "next_action_preconditions"[0]; }
    assert "required_capability_states" != "next_action_preconditions" by { assert "required_capability_states"[0] != "next_action_preconditions"[0]; }
    OtherFieldsStay("required_capabilities");
    OtherFieldsStay("required_capability_states");
    hide Get;
  }

  lemma NullPreconditions()
    ensures Preconditions(NULL_STATE) == Null && PreconditionsOk(NULL_STATE)
  {
  }

  lemma NullStateIsValid()
    ensures ValidState(NULL_STATE, EnvOf(NULL_STATE).secretFree)
  {
    NullFieldsAreOk();
    NullCapabilitiesAreOk();
    NullPreconditions();
    hide FieldsOk, CapabilitiesOk, PreconditionsOk, Get;
  }

  /** A directory whose precondition list is null can be checkpointed, and the checkpoint can never be resumed. */
  lemma NullPreconditionsAreCheckpointed(o: Observed, capabilities: map<string, string>)
    ensures Creatable(EnvOf(NULL_STATE), EMPTY.durable) && Highest(EMPTY.checkpoints.Keys) == 0
    ensures var doc := CheckpointOf(EnvOf(NULL_STATE), EMPTY.durable, 1);
            && Load(AfterWrites(EMPTY, doc, 3)) == LoadReady(PointerTo(doc), doc)
            && !Guard(EnvOf(NULL_STATE), AfterWrites(EMPTY, doc, 3), o, capabilities).ResumeReady?
  {
    hide *;
    NullStateIsValid();
    NullPreconditions();
    StoreIsCreatable(NULL_STATE);
    NothingIsHighest();
    var doc := CheckpointOf(EnvOf(NULL_STATE), EMPTY.durable, 1);
    FirstCheckpoint(NULL_STATE, doc);
    DocumentHashes(EnvOf(NULL_STATE), EMPTY.durable, 1);
    LoadsAfterPointerWrite(EMPTY, doc, 3);
    NullPreconditionsNeverResume(EnvOf(NULL_STATE), AfterWrites(EMPTY, doc, 3), o, capabilities);
  }

  // ----- a worktree recorded dirty -----

  /** The same state, recorded while the worktree had uncommitted changes. */
  const DIRTY_STATE: State := STATE["active_worktree_dirty" := Bool(true)]

  lemma DirtyFields(k: string)
    ensures Get(DIRTY_STATE, k) == if k == "active_worktree_dirty" then Bool(true) else Get(STATE, k)
    ensures k in DIRTY_STATE <==> k == "active_worktree_dirty" || k in STATE
  {
    Updated(STATE, "active_worktree_dirty", Bool(true), k);
  }

  lemma DirtyFieldsAreOk()
    ensures FieldsOk(DIRTY_STATE)
  {
    FieldsAreOk();
    forall k: string
      ensures k in REQUIRED_NONEMPTY || k in SHA_FIELDS ==> Get(DIRTY_STATE, k) == Get(STATE, k)
      ensures k in STATE ==> k in DIRTY_STATE
    {
      DirtyFields(k);
      ShaName(k);
      if k in REQUIRED_NONEMPTY {
        RequiredName(k);
      }
    }
    assert "contract_version" in REQUIRED_NONEMPTY && "project" in REQUIRED_NONEMPTY && "repository" in REQUIRED_NONEMPTY;
    hide Get, Truthy, IsSha;
  }

  lemma DirtyCapabilitiesAreOk()
    ensures CapabilitiesOk(DIRTY_STATE)
  {
    CapabilitiesAreOk();
    DirtyFields("required_capabilities");
    DirtyFields("required_capability_states");
    assert "required_capabilities"[0] != "active_worktree_dirty"[0] && "required_capability_states"[0] != "active_worktree_dirty"[0];
    hide Get;
  }

  lemma DirtyPreconditions()
    ensures Preconditions(DIRTY_STATE) == Arr([])
  {
    NoPreconditions();
    DirtyFields("next_action_preconditions");
    assert "next_action_preconditions"[0] != "active_worktree_dirty"[0];
    assert "next_action_preconditions" !in STATE;
  }

  lemma DirtyStateIsValid()
    ensures ValidState(DIRTY_STATE, EnvOf(DIRTY_STATE).secretFree)
  {
    DirtyFieldsAreOk();
    DirtyCapabilitiesAreOk();
    DirtyPreconditions();
    hide FieldsOk, CapabilitiesOk, Preconditions, Get;
  }

  lemma DirtyIsNotClean(doc: Checkpoint)
    requires doc.state == DIRTY_STATE
    ensures !EverResumable(EnvOf(DIRTY_STATE), doc)
  {
    DirtyFields("active_worktree_dirty");
    hide Get, PreconditionsMet, AnyOpen;
  }

  /** A directory recorded with a dirty worktree is checkpointed, with an empty precondition list, and can never be resumed. */
  lemma DirtyWorktreeIsNeverResumed()
    ensures Creatable(EnvOf(DIRTY_STATE), EMPTY.durable) && Highest(EMPTY.checkpoints.Keys) == 0
    ensures Preconditions(DIRTY_STATE) == Arr([])
    ensures var doc := CheckpointOf(EnvOf(DIRTY_STATE), EMPTY.durable, 1);
            && Load(AfterWrites(EMPTY, doc, 3)) == LoadReady(PointerTo(doc), doc)
            && !CanBeResumed(EnvOf(DIRTY_STATE), AfterWrites(EMPTY, doc, 3), doc)
  {
    hide *;
    DirtyStateIsValid();
    DirtyPreconditions();
    StoreIsCreatable(DIRTY_STATE);
    NothingIsHighest();
    var doc := CheckpointOf(EnvOf(DIRTY_STATE), EMPTY.durable, 1);
    FirstCheckpoint(DIRTY_STATE, doc);
    DocumentHashes(EnvOf(DIRTY_STATE), EMPTY.durable, 1);
    LoadsAfterPointerWrite(EMPTY, doc, 3);
    DirtyIsNotClean(doc);
    FreshCheckpointCanBeResumedExactly(EnvOf(DIRTY_STATE), EMPTY, 3);
  }

  // ----- a state file edited between being read and being hashed -----

  function TornFiles(): map<string, string> { Durable()[STATE_FILE := "t"] }

  const TORN_READS: Reads := Reads(Durable(), Durable(), Durable(), TornFiles())

  const TORN: Store := Store(TornFiles(), map[], None, None)

  lemma JournalReads()
    ensures JournalSteps(EnvOf(STATE), Durable()) == Some([]) && JournalOk(JOURNAL)
  {
    FilesRead(STATE);
    assert JOURNAL_FILE in DURABLE_FILES;
    hide ParseObject;
  }

  lemma BundleIsOk()
    ensures BundleOk(EnvOf(STATE), Durable(), STATE)
  {
    FilesRead(STATE);
    JournalReads();
    forall name | name in BUNDLE_FILES
      ensures name in Durable()
    {
      BundleIsDurable(name);
    }
    hide ParseObject, JournalOk, JournalSteps;
  }

  lemma TornReadsAreAccepted()
    ensures CreatableFrom(EnvOf(STATE), TORN_READS)
    ensures JournalSteps(EnvOf(STATE), Durable()) == Some([])
  {
    hide ParseObject, JournalOk, JournalSteps, BundleOk, ValidState;
    StateIsValid();
    FilesRead(STATE);
    JournalReads();
    BundleIsOk();
    assert forall name :: name in DURABLE_FILES ==> name in TornFiles();
  }

  lemma TornFilesRead()
    ensures ParseObject(EnvOf(STATE), TornFiles(), STATE_FILE) == Some(map[])
    ensures JournalSteps(EnvOf(STATE), TornFiles()) == JournalSteps(EnvOf(STATE), Durable())
  {
    assert STATE_FILE[0] != JOURNAL_FILE[0];
    assert "t" != "s" && "t" != "j";
  }

  lemma TornDocument(doc: Checkpoint)
    requires CreatableFrom(EnvOf(STATE), TORN_READS) && doc == CheckpointFrom(EnvOf(STATE), TORN_READS, 1)
    ensures doc.state == STATE && doc.steps == [] && NoOpenStep(EnvOf(STATE), TornFiles(), doc)
  {
    FilesRead(STATE);
    TornReadsAreAccepted();
    TornFilesRead();
    hide CreatableFrom, ParseObject, HashesOf, JournalSteps;
  }

  /** The guard is ready on this checkpoint although the live state file does not parse to the state it records. */
  lemma TornCheckpointIsReady()
    ensures CreatableFrom(EnvOf(STATE), TORN_READS) && Highest(TORN.checkpoints.Keys) == 0
    ensures var doc := CheckpointFrom(EnvOf(STATE), TORN_READS, 1);
            && Guard(EnvOf(STATE), AfterWrites(TORN, doc, 3), OBSERVED, map[]) == ResumeReady(PointerTo(doc), doc)
            && doc.state == STATE && ParseObject(EnvOf(STATE), TornFiles(), STATE_FILE) == Some(map[])
    ensures STATE != map[]
  {
    StateIsNotEmpty();
    TornHighest();
    TornReadsAreAccepted();
    TornFilesRead();
    hide CreatableFrom, CheckpointFrom, Guard, AfterWrites, Highest, ParseObject, NoOpenStep, ResumableNow, JournalSteps, CapabilitiesOk, HashOf;
    var doc := CheckpointFrom(EnvOf(STATE), TORN_READS, 1);
    TornDocument(doc);
    NewCheckpointIsReadyExactly(EnvOf(STATE), TORN, TORN_READS, 3, OBSERVED, map[]);
    ReadyNow(doc);
  }

  lemma StateIsNotEmpty()
    ensures STATE != map[]
  {
    assert "required_capability_states" in STATE;
  }

  lemma TornHighest()
    ensures Highest(TORN.checkpoints.Keys) == 0 && Highest(TORN.checkpoints.Keys) < MAX_ID
  {
    assert IsHighest(TORN.checkpoints.Keys, 0);
  }
}
