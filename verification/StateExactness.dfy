/** Which mission states, journals and directories are accepted, and what a checkpoint then holds (scripts/wfh_mission.py). */
module StateExactness {
  import opened Common
  import opened MissionState
  import opened MissionStore

  // ----- the mission state -----

  /** A value that is neither missing nor empty, zero or false. */
  ghost predicate Given(state: State, key: string) {
    key in state && state[key] !in {Null, Bool(false), Num(0), Str(""), Arr([]), Obj(map[])}
  }

  /** Forty lowercase hexadecimal digits. */
  ghost predicate Sha(state: State, key: string) {
    key in state && state[key].Str? && |state[key].s| == 40 && forall c :: c in state[key].s ==> c in "0123456789abcdef"
  }

  ghost predicate Holding(state: State, key: string, text: string) { key in state && state[key] == Str(text) }

  /** Distinct, non-empty names. */
  ghost predicate Names(items: seq<Json>) {
    && (forall j :: j in items ==> j.Str? && j.s != "")
    && forall i, k :: 0 <= i < k < |items| ==> items[i] != items[k]
  }

  /** The required capabilities are names, and each of them alone has a minimum of the three. */
  ghost predicate Authorizations(state: State) {
    && "required_capabilities" in state && state["required_capabilities"].Arr? && Names(state["required_capabilities"].items)
    && "required_capability_states" in state && state["required_capability_states"].Obj?
    && var names, minimums := state["required_capabilities"].items, state["required_capability_states"].fields;
    && (forall name :: name in minimums <==> Str(name) in names)
    && forall name :: name in minimums ==> minimums[name] in {Str("AVAILABLE"), Str("AUTHORIZED_READ"), Str("AUTHORIZED_WRITE")}
  }

  /** A comparison of a named state field, or of a known observation, with an expected value. */
  ghost predicate Condition(item: Json) {
    && item.Obj? && "expected" in item.fields && ("description" in item.fields ==> item.fields["description"].Str?)
    && (|| (Holding(item.fields, "kind", "state_equals")
            && "field" in item.fields && item.fields["field"].Str? && item.fields["field"].s != "")
        || (Holding(item.fields, "kind", "observation_equals")
            && "scope" in item.fields
            && item.fields["scope"] in {Str("repository_main"), Str("production_revision"), Str("branch_head"), Str("active_branch"),
                                        Str("active_worktree"), Str("worktree_cleanliness")}))
  }

  ghost predicate Conditions(state: State) {
    "next_action_preconditions" in state ==>
      state["next_action_preconditions"] == Null
      || (state["next_action_preconditions"].Arr? && forall item :: item in state["next_action_preconditions"].items ==> Condition(item))
  }

  ghost predicate Identified(state: State) {
    && Holding(state, "contract_version", "wfh_mission_continuity_v1") && Holding(state, "project", "TWFH")
    && Holding(state, "repository", "cavack/WFH-ORG")
    && Sha(state, "baseline_main_sha") && Sha(state, "current_main_sha") && Sha(state, "production_sha") && Sha(state, "active_branch_head")
  }

  ghost predicate Described(state: State) {
    && Given(state, "mission_id") && Given(state, "mission_name") && Given(state, "current_phase") && Given(state, "current_task")
    && Given(state, "next_action") && Given(state, "active_branch") && Given(state, "active_worktree")
    && "active_worktree_dirty" in state && state["active_worktree_dirty"].Bool?
  }

  lemma GivenMeans(state: State, key: string)
    ensures Truthy(Get(state, key)) <==> Given(state, key)
  {
  }

  lemma ShaMeans(state: State, key: string)
    ensures Get(state, key) != Null && IsSha(Get(state, key)) <==> Sha(state, key)
  {
    forall c: char ensures IsHexDigit(c) <==> c in "0123456789abcdef" { HexDigits(c); }
    hide IsHexDigit;
    if key in state && state[key].Str? {
      var s := state[key].s;
      assert forall i :: 0 <= i < |s| ==> s[i] in s;
    }
  }

  lemma HexDigits(c: char)
    ensures IsHexDigit(c) <==> c in "0123456789abcdef"
  {
    var digits := "0123456789abcdef";
    assert digits[0] == '0' && digits[1] == '1' && digits[2] == '2' && digits[3] == '3' && digits[4] == '4' && digits[5] == '5';
    assert digits[6] == '6' && digits[7] == '7' && digits[8] == '8' && digits[9] == '9' && digits[10] == 'a' && digits[11] == 'b';
    assert digits[12] == 'c' && digits[13] == 'd' && digits[14] == 'e' && digits[15] == 'f';
  }

  lemma NamesMean(items: seq<Json>)
    ensures NamesOnly(items) && Unique(items) <==> Names(items)
  {
  }

  lemma RankMeans(s: string)
    ensures Rank(s).Some? <==> s in {"AVAILABLE", "AUTHORIZED_READ", "AUTHORIZED_WRITE"}
  {
  }

  lemma AuthorizationsMean(state: State)
    ensures CapabilitiesOk(state) <==> Authorizations(state)
  {
    var names, minimums := Get(state, "required_capabilities"), Get(state, "required_capability_states");
    if names.Arr? && minimums.Obj? {
      NamesMean(names.items);
      forall s ensures Rank(s).Some? <==> s in {"AVAILABLE", "AUTHORIZED_READ", "AUTHORIZED_WRITE"} { RankMeans(s); }
      hide Rank, Unique, Names;
      if NamesOnly(names.items) {
        assert forall name :: Str(name) in names.items <==> exists i :: 0 <= i < |names.items| && names.items[i].s == name;
      }
    }
  }

  lemma ScopesMean(scope: string)
    ensures scope in OBSERVATION_KEYS <==> Str(scope) in {Str("repository_main"), Str("production_revision"), Str("branch_head"),
                                                           Str("active_branch"), Str("active_worktree"), Str("worktree_cleanliness")}
  {
  }

  lemma ConditionMeans(item: Json)
    ensures PreconditionItemOk(item) <==> Condition(item)
  {
    if item.Obj? && Get(item.fields, "scope").Str? { ScopesMean(Get(item.fields, "scope").s); }
    assert "state_equals"[0] != "observation_equals"[0];
  }

  lemma ConditionsMean(state: State)
    ensures PreconditionsOk(state) <==> Conditions(state)
  {
    hide PreconditionItemOk, Condition;
    forall item ensures PreconditionItemOk(item) <==> Condition(item) { ConditionMeans(item); }
    if "next_action_preconditions" in state && state["next_action_preconditions"].Arr? {
      var items := state["next_action_preconditions"].items;
      assert forall item :: item in items <==> exists i :: 0 <= i < |items| && items[i] == item;
    }
  }

  lemma RequiredMean(state: State)
    ensures (forall k :: k in REQUIRED_NONEMPTY ==> Truthy(Get(state, k))) <==>
            && Given(state, "contract_version") && Given(state, "mission_id") && Given(state, "mission_name") && Given(state, "project")
            && Given(state, "repository") && Given(state, "baseline_main_sha") && Given(state, "current_main_sha")
            && Given(state, "production_sha") && Given(state, "current_phase") && Given(state, "current_task") && Given(state, "next_action")
            && Given(state, "active_branch_head") && Given(state, "active_branch") && Given(state, "active_worktree")
  {
    hide Truthy, Given;
    forall k ensures Truthy(Get(state, k)) <==> Given(state, k) { GivenMeans(state, k); }
    var names := REQUIRED_NONEMPTY;
    assert names[0] == "contract_version" && names[1] == "mission_id" && names[2] == "mission_name" && names[3] == "project";
    assert names[4] == "repository" && names[5] == "baseline_main_sha" && names[6] == "current_main_sha" && names[7] == "production_sha";
    assert names[8] == "current_phase" && names[9] == "current_task" && names[10] == "next_action" && names[11] == "active_branch_head";
    assert names[12] == "active_branch" && names[13] == "active_worktree";
    hide Get;
  }

  lemma PresentMean(state: State)
    ensures (forall k :: k in REQUIRED_PRESENT ==> k in state) <==>
            "active_worktree_dirty" in state && "required_capabilities" in state && "required_capability_states" in state
  {
    var names := REQUIRED_PRESENT;
    assert names[0] == "active_worktree_dirty" && names[1] == "required_capabilities" && names[2] == "required_capability_states";
  }

  lemma ShasMean(state: State)
    ensures (forall k :: k in SHA_FIELDS ==> Get(state, k) != Null ==> IsSha(Get(state, k))) <==>
            && (Get(state, "baseline_main_sha") != Null ==> IsSha(Get(state, "baseline_main_sha")))
            && (Get(state, "current_main_sha") != Null ==> IsSha(Get(state, "current_main_sha")))
            && (Get(state, "production_sha") != Null ==> IsSha(Get(state, "production_sha")))
            && (Get(state, "active_branch_head") != Null ==> IsSha(Get(state, "active_branch_head")))
  {
    hide IsSha, Get;
    var names := SHA_FIELDS;
    assert names[0] == "baseline_main_sha" && names[1] == "current_main_sha" && names[2] == "production_sha" && names[3] == "active_branch_head";
  }

  lemma IdentityMeans(state: State, key: string, text: string)
    requires text != ""
    ensures Given(state, key) && Get(state, key) in {Null, Str(text)} <==> Holding(state, key, text)
  {
  }

  lemma GivenSha(state: State, key: string)
    ensures Sha(state, key) <==> Given(state, key) && (Get(state, key) != Null ==> IsSha(Get(state, key)))
  {
    ShaMeans(state, key);
    hide Sha, IsSha;
    if Get(state, key) != Null && IsSha(Get(state, key)) { ShaIsGiven(state, key); }
  }

  lemma ShaIsGiven(state: State, key: string)
    requires Get(state, key) != Null && IsSha(Get(state, key))
    ensures Given(state, key)
  {
  }

  lemma FieldsMean(state: State)
    ensures FieldsOk(state) && "required_capabilities" in state && "required_capability_states" in state <==>
            && Identified(state) && Described(state) && "required_capabilities" in state && "required_capability_states" in state
  {
    RequiredMean(state);
    PresentMean(state);
    ShasMean(state);
    IdentityMeans(state, "contract_version", "wfh_mission_continuity_v1");
    IdentityMeans(state, "project", "TWFH");
    IdentityMeans(state, "repository", "cavack/WFH-ORG");
    GivenSha(state, "baseline_main_sha");
    GivenSha(state, "current_main_sha");
    GivenSha(state, "production_sha");
    GivenSha(state, "active_branch_head");
    hide Truthy, Given, Holding, IsSha, Sha, Get;
  }

  /** A mission state is valid exactly when it is identified, described, authorized, conditioned and free of secrets. */
  lemma ValidExactly(state: State, secretFree: State -> bool)
    ensures ValidState(state, secretFree) <==>
            Identified(state) && Described(state) && Authorizations(state) && Conditions(state) && secretFree(state)
  {
    FieldsMean(state);
    AuthorizationsMean(state);
    ConditionsMean(state);
    AuthorizedIsPresent(state);
    hide FieldsOk, CapabilitiesOk, PreconditionsOk, Identified, Described, Authorizations, Conditions;
  }

  lemma AuthorizedIsPresent(state: State)
    ensures Authorizations(state) ==> "required_capabilities" in state && "required_capability_states" in state
  {
    hide Names;
  }

  // ----- the scientific state -----

  /** The flag is recorded true. */
  ghost predicate Flagged(state: State, key: string) { key in state && state[key] == Bool(true) }

  /** The update takes the flag back. */
  ghost predicate TakesBack(current: State, updates: State, key: string) {
    Flagged(current, key) && key in updates && updates[key] == Bool(false)
  }

  /**
   An update is refused exactly when it takes back that the holdout was opened, or else that it was retired; otherwise every
   field is the updated one where the update has it, except that a flag once true stays true.
   */
  lemma UpdatedExactly(current: State, updates: State, key: string)
    ensures var result := UpdateScientificState(current, updates);
            if TakesBack(current, updates, "final_holdout_opened") then result == Err(CannotReset)
            else if TakesBack(current, updates, "final_holdout_retired") then result == Err(CannotUnretire)
            else
              && result.Ok?
              && (key in result.value <==> key in current || key in updates)
              && (key in result.value ==>
                    result.value[key] ==
                    if key in {"final_holdout_opened", "final_holdout_retired"} && Flagged(current, key) then Bool(true)
                    else if key in updates then updates[key] else current[key])
  {
    assert |"final_holdout_opened"| != |"final_holdout_retired"|;
  }

  // ----- journals and directories -----

  /** An object with a non-empty id and one of the two states. */
  ghost predicate Recorded(step: Json) {
    && step.Obj? && "step_id" in step.fields && step.fields["step_id"].Str? && step.fields["step_id"].s != ""
    && "status" in step.fields && step.fields["status"] in {Str("IN_PROGRESS"), Str("COMPLETE")}
  }

  /** A journal of the known contract whose records have ids of their own. */
  ghost predicate Journal(journal: State) {
    && Holding(journal, "contract_version", "wfh_step_journal_v1") && "steps" in journal && journal["steps"].Arr?
    && var steps := journal["steps"].items;
    && (forall step :: step in steps ==> Recorded(step))
    && forall i, j :: 0 <= i < j < |steps| && Recorded(steps[i]) && Recorded(steps[j]) ==>
         steps[i].fields["step_id"] != steps[j].fields["step_id"]
  }

  lemma RecordedMeans(step: Json)
    ensures StepOk(step) <==> Recorded(step)
  {
  }

  lemma RecordId(step: Json)
    ensures Recorded(step) ==> step.Obj? && "step_id" in step.fields && Get(step.fields, "step_id") == step.fields["step_id"]
  {
  }

  lemma JournalMeans(journal: State)
    ensures JournalOk(journal) <==> Journal(journal)
  {
    hide StepOk, Recorded;
    forall step ensures StepOk(step) <==> Recorded(step) { RecordedMeans(step); }
    forall step: Json
      ensures Recorded(step) ==> step.Obj? && "step_id" in step.fields && Get(step.fields, "step_id") == step.fields["step_id"]
    {
      RecordId(step);
    }
    if "steps" in journal && journal["steps"].Arr? {
      var steps := journal["steps"].items;
      assert forall step :: step in steps <==> exists i :: 0 <= i < |steps| && steps[i] == step;
    }
  }

  ghost predicate AllSeven(files: map<string, string>) {
    && "MISSION_STATE.json" in files && "TASK_GRAPH.json" in files && "EVIDENCE_LEDGER.json" in files && "BRANCH_REGISTRY.json" in files
    && "SCIENTIFIC_STATE.json" in files && "DECISION_LOG.jsonl" in files && "STEP_JOURNAL.json" in files
  }

  ghost predicate AllBundled(files: map<string, string>) {
    && "TASK_GRAPH.json" in files && "EVIDENCE_LEDGER.json" in files && "BRANCH_REGISTRY.json" in files
    && "SCIENTIFIC_STATE.json" in files && "DECISION_LOG.jsonl" in files && "STEP_JOURNAL.json" in files
  }

  lemma DurableNames(files: map<string, string>)
    ensures (forall name :: name in DURABLE_FILES ==> name in files) <==> AllSeven(files)
  {
    var all := DURABLE_FILES;
    assert all[0] == "MISSION_STATE.json" && all[1] == "TASK_GRAPH.json" && all[2] == "EVIDENCE_LEDGER.json" && all[3] == "BRANCH_REGISTRY.json";
    assert all[4] == "SCIENTIFIC_STATE.json" && all[5] == "DECISION_LOG.jsonl" && all[6] == "STEP_JOURNAL.json";
  }

  lemma BundleNames(files: map<string, string>)
    ensures (forall name :: name in BUNDLE_FILES ==> name in files) <==> AllBundled(files)
  {
    var bundled := BUNDLE_FILES;
    assert bundled[0] == "TASK_GRAPH.json" && bundled[1] == "EVIDENCE_LEDGER.json" && bundled[2] == "BRANCH_REGISTRY.json";
    assert bundled[3] == "SCIENTIFIC_STATE.json" && bundled[4] == "STEP_JOURNAL.json" && bundled[5] == "DECISION_LOG.jsonl";
  }

  /** The file parses to an object. */
  ghost predicate Parses(env: Env, files: map<string, string>, name: string, fields: State) {
    name in files && env.parse(files[name]) == Some(Obj(fields))
  }

  lemma ParsesMeans(env: Env, files: map<string, string>, name: string, fields: State)
    ensures ParseObject(env, files, name) == Some(fields) <==> Parses(env, files, name, fields)
  {
  }

  /** An absent journal has no steps; another one has those it lists. */
  ghost predicate Steps(env: Env, files: map<string, string>, steps: seq<Json>) {
    if "STEP_JOURNAL.json" !in files then steps == []
    else exists journal :: Parses(env, files, "STEP_JOURNAL.json", journal) && "steps" in journal && journal["steps"] == Arr(steps)
  }

  lemma StepsMean(env: Env, files: map<string, string>, steps: seq<Json>)
    ensures JournalSteps(env, files) == Some(steps) <==> Steps(env, files, steps)
  {
    hide ParseObject, Parses;
    assert JOURNAL_FILE == "STEP_JOURNAL.json";
    if ParseObject(env, files, JOURNAL_FILE).Some? {
      ParsesMeans(env, files, JOURNAL_FILE, ParseObject(env, files, JOURNAL_FILE).value);
    }
    forall journal ensures Parses(env, files, JOURNAL_FILE, journal) <==> ParseObject(env, files, JOURNAL_FILE) == Some(journal) {
      ParsesMeans(env, files, JOURNAL_FILE, journal);
    }
  }

  /** Each pass saw what a checkpoint needs: a valid state, a valid bundle with its journal, readable steps and all seven files. */
  ghost predicate Accepted(env: Env, r: Reads, state: State, journal: State, steps: seq<Json>) {
    && Parses(env, r.state, "MISSION_STATE.json", state) && ValidState(state, env.secretFree)
    && AllBundled(r.bundle) && Parses(env, r.bundle, "STEP_JOURNAL.json", journal) && Journal(journal) && env.bundleValid(r.bundle, state)
    && Steps(env, r.journal, steps) && AllSeven(r.hashed)
  }

  /** A checkpoint is created exactly when its reads are accepted, and holds the state, the steps and the hashes they saw. */
  lemma CreatedExactly(env: Env, r: Reads, id: nat)
    ensures CreatableFrom(env, r) <==> exists state, journal, steps :: Accepted(env, r, state, journal, steps)
    ensures CreatableFrom(env, r) ==>
              var doc := CheckpointFrom(env, r, id);
              && (exists journal :: Accepted(env, r, doc.state, journal, doc.steps))
              && doc.id == id && doc.missionId == Get(doc.state, "mission_id")
              && doc.stateFiles.Some? && Hashes(doc.stateFiles.value, r.hashed)
  {
    hide ParseObject, Parses, ValidState, Journal, JournalOk, JournalSteps, Steps, AllSeven, AllBundled, HashesOf, Hashes;
    BundleNames(r.bundle);
    DurableNames(r.hashed);
    forall state ensures ParseObject(env, r.state, STATE_FILE) == Some(state) <==> Parses(env, r.state, "MISSION_STATE.json", state) {
      ParsesMeans(env, r.state, STATE_FILE, state);
    }
    forall journal
      ensures ParseObject(env, r.bundle, JOURNAL_FILE) == Some(journal) <==> Parses(env, r.bundle, "STEP_JOURNAL.json", journal)
      ensures JournalOk(journal) <==> Journal(journal)
    {
      ParsesMeans(env, r.bundle, JOURNAL_FILE, journal);
      JournalMeans(journal);
    }
    forall steps ensures JournalSteps(env, r.journal) == Some(steps) <==> Steps(env, r.journal, steps) { StepsMean(env, r.journal, steps); }
    if CreatableFrom(env, r) {
      HashesMean(r.hashed);
      assert Accepted(env, r, ParseObject(env, r.state, STATE_FILE).value, ParseObject(env, r.bundle, JOURNAL_FILE).value,
                      JournalSteps(env, r.journal).value);
    }
  }

  /** One hash for each of the seven files, of the text that was seen. */
  ghost predicate Hashes(hashes: map<string, Option<Digest>>, files: map<string, string>)
  {
    && hashes.Keys == {"MISSION_STATE.json", "TASK_GRAPH.json", "EVIDENCE_LEDGER.json", "BRANCH_REGISTRY.json", "SCIENTIFIC_STATE.json",
                       "DECISION_LOG.jsonl", "STEP_JOURNAL.json"}
    && forall name :: name in hashes ==> name in files && hashes[name] == Some(Sha256(Text(files[name])))
  }

  lemma {:induction false} HashedNames(files: map<string, string>, names: seq<string>, name: string)
    ensures name in HashesOf(files, names) <==> name in names
    ensures name in names && name in files ==> HashesOf(files, names)[name] == Some(Sha256(Text(files[name])))
  {
    if names != [] {
      HashedNames(files, names[..|names| - 1], name);
      assert names == names[..|names| - 1] + [names[|names| - 1]];
    }
  }

  lemma SevenNames(name: string)
    ensures name in DURABLE_FILES <==>
            name in {"MISSION_STATE.json", "TASK_GRAPH.json", "EVIDENCE_LEDGER.json", "BRANCH_REGISTRY.json", "SCIENTIFIC_STATE.json",
                     "DECISION_LOG.jsonl", "STEP_JOURNAL.json"}
  {
    var all := DURABLE_FILES;
    assert all[0] == "MISSION_STATE.json" && all[1] == "TASK_GRAPH.json" && all[2] == "EVIDENCE_LEDGER.json" && all[3] == "BRANCH_REGISTRY.json";
    assert all[4] == "SCIENTIFIC_STATE.json" && all[5] == "DECISION_LOG.jsonl" && all[6] == "STEP_JOURNAL.json";
  }

  lemma HashesMean(files: map<string, string>)
    requires forall name :: name in DURABLE_FILES ==> name in files
    ensures Hashes(HashesOf(files, DURABLE_FILES), files)
  {
    hide HashesOf;
    var hashes := HashesOf(files, DURABLE_FILES);
    forall name
      ensures name in hashes <==> name in {"MISSION_STATE.json", "TASK_GRAPH.json", "EVIDENCE_LEDGER.json", "BRANCH_REGISTRY.json",
                                           "SCIENTIFIC_STATE.json", "DECISION_LOG.jsonl", "STEP_JOURNAL.json"}
      ensures name in hashes ==> name in files && hashes[name] == Some(Sha256(Text(files[name])))
    {
      SevenNames(name);
      HashedNames(files, DURABLE_FILES, name);
    }
  }

  /** All three writes of a checkpoint: its file beside the others, the pointer to it, and the resume note. */
  lemma WrittenExactly(store: Store, doc: Checkpoint)
    ensures var after := AfterWrites(store, doc, 3);
            && after.durable == store.durable
            && (forall n :: n in after.checkpoints <==> n in store.checkpoints || n == doc.id)
            && (forall n :: n in after.checkpoints ==> after.checkpoints[n] == if n == doc.id then Doc(doc) else store.checkpoints[n])
            && after.pointer == Some(Pointer(doc.missionId, doc.id, doc.id, Sha256(Doc(doc))))
            && after.resume == Some(doc.id)
  {
    WritesUnfold(store, doc);
    hide AfterWrites;
  }

  /** A rewritten journal reads back as its new steps; its other fields and every other file stay, and an absent one gets the contract. */
  lemma StepsAreWritten(env: Env, durable: map<string, string>, steps: seq<Json>)
    requires RoundTrips(env) && JournalSteps(env, durable).Some?
    ensures var after := WithSteps(env, durable, steps);
            && Steps(env, after, steps)
            && (forall name :: name != "STEP_JOURNAL.json" ==>
                  (name in after <==> name in durable) && (name in durable ==> after[name] == durable[name]))
            && exists journal :: Parses(env, after, "STEP_JOURNAL.json", journal)
                 && (forall was :: Parses(env, durable, "STEP_JOURNAL.json", was) ==> forall k :: k != "steps" ==> Get(journal, k) == Get(was, k))
                 && ("STEP_JOURNAL.json" !in durable ==> Holding(journal, "contract_version", "wfh_step_journal_v1"))
  {
    var journal := JournalObject(env, durable)["steps" := Arr(steps)];
    assert env.parse(env.render(Obj(journal))) == Some(Obj(journal));
    assert Parses(env, WithSteps(env, durable, steps), "STEP_JOURNAL.json", journal);
    forall was | Parses(env, durable, "STEP_JOURNAL.json", was) ensures JournalObject(env, durable) == was {
      ParsesMeans(env, durable, JOURNAL_FILE, was);
    }
    assert "contract_version" != "steps";
  }
}
