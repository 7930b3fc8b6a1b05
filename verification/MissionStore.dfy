/**
 The checkpoint, pointer and journal store of a mission directory (scripts/wfh_mission.py).

 Every atomic file write is one step, a crash may fall between any two of them, and the durable state files may be
 edited from outside at any moment. SHA-256 is an injective constructor over file contents.
 */
module MissionStore {
  import opened Common
  import opened MissionState

  const STATE_FILE: string := "MISSION_STATE.json"
  const JOURNAL_FILE: string := "STEP_JOURNAL.json"

  const DURABLE_FILES: seq<string> := [
    STATE_FILE, "TASK_GRAPH.json", "EVIDENCE_LEDGER.json", "BRANCH_REGISTRY.json", "SCIENTIFIC_STATE.json",
    "DECISION_LOG.jsonl", JOURNAL_FILE]

  /** What the control-bundle validators read; the mission state is read on its own. */
  const BUNDLE_FILES: seq<string> := [
    "TASK_GRAPH.json", "EVIDENCE_LEDGER.json", "BRANCH_REGISTRY.json", "SCIENTIFIC_STATE.json", JOURNAL_FILE, "DECISION_LOG.jsonl"]

  /** The largest number a six-digit checkpoint name can carry. */
  const MAX_ID: nat := 999_999

  datatype Digest = Sha256(content: Content)

  datatype Content = Text(text: string) | Doc(checkpoint: Checkpoint)

  /** state_files is None when it is not an object; a file hash is None when the file was absent. */
  datatype Checkpoint = Checkpoint(
    missionId: Json, id: nat, state: State, steps: seq<Json>, stateFiles: Option<map<string, Option<Digest>>>)

  datatype PointerFile = Garbage | Pointer(missionId: Json, id: nat, target: nat, sha: Digest)

  /** Checkpoint files are keyed by number: CP-%06d is injective, and only numbers up to MAX_ID match the name pattern. */
  datatype Store = Store(
    durable: map<string, string>, checkpoints: map<nat, Content>, pointer: Option<PointerFile>, resume: Option<nat>)

  /** JSON text and the validators this model takes as given. */
  datatype Env = Env(
    parse: string -> Option<Json>,
    render: Json -> string,
    show: Json -> string,
    secretFree: State -> bool,
    bundleValid: (map<string, string>, State) -> bool)

  ghost predicate RoundTrips(env: Env) { forall j :: env.parse(env.render(j)) == Some(j) }

  // ----- checkpoint numbers -----

  ghost predicate IsHighest(ids: set<nat>, n: nat) {
    && (n == 0 || n in ids) && n <= MAX_ID
    && forall m :: m in ids && m <= MAX_ID ==> m <= n
  }

  lemma IncludeOne(ids: set<nat>, x: nat, n: nat)
    requires IsHighest(ids, n)
    ensures IsHighest(ids + {x}, if x <= MAX_ID && x > n then x else n)
  {
  }

  lemma {:induction false} HighestExists(ids: set<nat>)
    ensures exists n: nat :: IsHighest(ids, n)
  {
    if ids == {} {
      assert IsHighest(ids, 0);
    } else {
      var x :| x in ids;
      HighestExists(ids - {x});
      var n: nat :| IsHighest(ids - {x}, n);
      IncludeOne(ids - {x}, x, n);
      assert ids == ids - {x} + {x};
    }
  }

  /** The highest number among files whose name matches, zero when there is none. */
  ghost function Highest(ids: set<nat>): (n: nat)
    ensures IsHighest(ids, n)
  {
    HighestExists(ids);
    var n: nat :| IsHighest(ids, n);
    n
  }

  method HighestCheckpointNumber(ids: set<nat>) returns (highest: nat)
    ensures highest == Highest(ids)
  {
    highest := 0;
    var remaining := ids;
    while remaining != {}
      invariant remaining <= ids && IsHighest(ids - remaining, highest)
      decreases |remaining|
    {
      var n :| n in remaining;
      IncludeOne(ids - remaining, n, highest);
      assert ids - (remaining - {n}) == ids - remaining + {n};
      remaining := remaining - {n};
      if n <= MAX_ID && n > highest {
        highest := n;
      }
    }
    assert ids - {} == ids;
  }

  // ----- creating a checkpoint -----

  datatype CreateError = StateUnreadable | ValidationFailed | JournalInvalid | FileVanished | Crashed

  function ParseObject(env: Env, durable: map<string, string>, name: string): Option<State> {
    if name !in durable then None
    else
      match env.parse(durable[name])
      case Some(Obj(fields)) => Some(fields)
      case _ => None
  }

  predicate StepOk(step: Json) {
    && step.Obj? && Get(step.fields, "step_id").Str? && Get(step.fields, "step_id").s != ""
    && Get(step.fields, "status") in {Str("IN_PROGRESS"), Str("COMPLETE")}
  }

  predicate JournalOk(journal: State) {
    && Get(journal, "contract_version") == Str("wfh_step_journal_v1")
    && Get(journal, "steps").Arr?
    && (forall i :: 0 <= i < |Get(journal, "steps").items| ==> StepOk(Get(journal, "steps").items[i]))
    && (forall i, j :: 0 <= i < j < |Get(journal, "steps").items| ==>
          var a, b := Get(journal, "steps").items[i], Get(journal, "steps").items[j];
          a.Obj? && b.Obj? ==> Get(a.fields, "step_id") != Get(b.fields, "step_id"))
  }

  /** The named files as one moment shows them. */
  function Seen(durable: map<string, string>, names: seq<string>): map<string, string> {
    map name | name in names && name in durable :: durable[name]
  }

  function Restricted(durable: map<string, string>, names: set<string>): map<string, string> {
    map name | name in names && name in durable :: durable[name]
  }

  /** Everything create_checkpoint demands before it writes anything, when the files hold still. */
  predicate Creatable(env: Env, durable: map<string, string>) {
    var state, journal := ParseObject(env, durable, STATE_FILE), ParseObject(env, durable, JOURNAL_FILE);
    && state.Some? && ValidState(state.value, env.secretFree)
    && (forall name :: name in DURABLE_FILES ==> name in durable)
    && journal.Some? && JournalOk(journal.value)
    && env.bundleValid(Seen(durable, BUNDLE_FILES), state.value)
  }

  lemma JournalHasSteps(env: Env, durable: map<string, string>)
    requires Creatable(env, durable)
    ensures Get(ParseObject(env, durable, JOURNAL_FILE).value, "steps").Arr?
  {
  }

  function HashOf(durable: map<string, string>, name: string): Option<Digest> {
    if name in durable then Some(Sha256(Text(durable[name]))) else None
  }

  function HashesOf(durable: map<string, string>, names: seq<string>): map<string, Option<Digest>> {
    if names == [] then map[]
    else
      var n := |names| - 1;
      HashesOf(durable, names[..n])[names[n] := HashOf(durable, names[n])]
  }

  function CheckpointOf(env: Env, durable: map<string, string>, id: nat): Checkpoint
    requires Creatable(env, durable)
  {
    var state := ParseObject(env, durable, STATE_FILE).value;
    Checkpoint(Get(state, "mission_id"), id, state, Get(ParseObject(env, durable, JOURNAL_FILE).value, "steps").items,
               Some(HashesOf(durable, DURABLE_FILES)))
  }

  function PointerTo(doc: Checkpoint): PointerFile { Pointer(doc.missionId, doc.id, doc.id, Sha256(Doc(doc))) }

  /** The three atomic writes, in order. */
  function WriteFile(store: Store, doc: Checkpoint, k: nat): Store {
    match k
    case 0 => store.(checkpoints := store.checkpoints[doc.id := Doc(doc)])
    case 1 => store.(pointer := Some(PointerTo(doc)))
    case _ => store.(resume := Some(doc.id))
  }

  /** What is on disk after the first n writes of a checkpoint. */
  function AfterWrites(store: Store, doc: Checkpoint, n: nat): Store {
    if n == 0 then store else WriteFile(AfterWrites(store, doc, n - 1), doc, n - 1)
  }

  // ----- loading the latest checkpoint -----

  datatype LoadReason =
    | LatestMissing | PointerInvalid | CheckpointMissing | HashMismatch | JsonInvalid | MissionMismatch | SequenceMismatch
    | SequenceInvalid | SequenceRegression

  datatype Loaded = LoadBlocked(reason: LoadReason) | LoadReady(pointer: PointerFile, checkpoint: Checkpoint)

  ghost function Load(store: Store): Loaded {
    if store.pointer.None? then LoadBlocked(LatestMissing)
    else
      match store.pointer.value
      case Garbage => LoadBlocked(PointerInvalid)
      case Pointer(missionId, id, target, sha) =>
        if target !in store.checkpoints then LoadBlocked(CheckpointMissing)
        else if Sha256(store.checkpoints[target]) != sha then LoadBlocked(HashMismatch)
        else if store.checkpoints[target].Text? then LoadBlocked(JsonInvalid)
        else
          var c := store.checkpoints[target].checkpoint;
          if c.missionId != missionId then LoadBlocked(MissionMismatch)
          else if c.id != id then LoadBlocked(SequenceMismatch)
          else if id > MAX_ID then LoadBlocked(SequenceInvalid)
          else if id < Highest(store.checkpoints.Keys) then LoadBlocked(SequenceRegression)
          else LoadReady(store.pointer.value, c)
  }

  // ----- the step journal -----

  datatype JournalError = JournalUnreadable | DuplicateStep | UnknownStep

  /** An absent journal is an empty one; anything but an object with a step list is an error. */
  function JournalSteps(env: Env, durable: map<string, string>): Option<seq<Json>> {
    if JOURNAL_FILE !in durable then Some([])
    else
      match ParseObject(env, durable, JOURNAL_FILE)
      case None => None
      case Some(journal) => if Get(journal, "steps").Arr? then Some(Get(journal, "steps").items) else None
  }

  function JournalObject(env: Env, durable: map<string, string>): State {
    match ParseObject(env, durable, JOURNAL_FILE)
    case Some(journal) => journal
    case None => map["contract_version" := Str("wfh_step_journal_v1"), "steps" := Arr([])]
  }

  predicate HasStepId(step: Json, id: Json) { step.Obj? && Get(step.fields, "step_id") == id }

  predicate InProgress(step: Json) { step.Obj? && Get(step.fields, "status") == Str("IN_PROGRESS") }

  function FirstWith(steps: seq<Json>, id: Json): (r: Option<nat>)
    ensures r.Some? ==> r.value < |steps| && HasStepId(steps[r.value], id)
    ensures r.None? ==> forall i :: 0 <= i < |steps| ==> !HasStepId(steps[i], id)
  {
    if steps == [] then None
    else
      var n := |steps| - 1;
      var earlier := FirstWith(steps[..n], id);
      if earlier.Some? then earlier else if HasStepId(steps[n], id) then Some(n) else None
  }

  function WithSteps(env: Env, durable: map<string, string>, steps: seq<Json>): map<string, string> {
    durable[JOURNAL_FILE := env.render(Obj(JournalObject(env, durable)["steps" := Arr(steps)]))]
  }

  // ----- a checkpoint from files that may change while they are read -----

  /**
   What the passes over the durable files saw: the mission state, the bundle under validation, the journal, and the files
   being hashed. Every file of every pass is read at a moment of its own.
   */
  datatype Reads = Reads(
    state: map<string, string>, bundle: map<string, string>, journal: map<string, string>, hashed: map<string, string>)

  predicate BundleOk(env: Env, bundle: map<string, string>, state: State) {
    && (forall name :: name in BUNDLE_FILES ==> name in bundle)
    && ParseObject(env, bundle, JOURNAL_FILE).Some? && JournalOk(ParseObject(env, bundle, JOURNAL_FILE).value)
    && env.bundleValid(bundle, state)
  }

  /** Every pass saw something it accepts. */
  predicate CreatableFrom(env: Env, r: Reads) {
    var state := ParseObject(env, r.state, STATE_FILE);
    && state.Some? && ValidState(state.value, env.secretFree)
    && BundleOk(env, r.bundle, state.value)
    && JournalSteps(env, r.journal).Some?
    && forall name :: name in DURABLE_FILES ==> name in r.hashed
  }

  /** The checkpoint document: state, journal and the hash of every durable file, each as its pass saw it. */
  function CheckpointFrom(env: Env, r: Reads, id: nat): Checkpoint
    requires CreatableFrom(env, r)
  {
    var state := ParseObject(env, r.state, STATE_FILE).value;
    Checkpoint(Get(state, "mission_id"), id, state, JournalSteps(env, r.journal).value, Some(HashesOf(r.hashed, DURABLE_FILES)))
  }

  /** The reads of files that hold still. */
  function Calm(durable: map<string, string>): Reads {
    Reads(Seen(durable, [STATE_FILE]), Seen(durable, BUNDLE_FILES), Seen(durable, [JOURNAL_FILE]), Seen(durable, DURABLE_FILES))
  }

  lemma ParseSeen(env: Env, durable: map<string, string>, names: seq<string>, name: string)
    requires name in names
    ensures ParseObject(env, Seen(durable, names), name) == ParseObject(env, durable, name)
    ensures name in Seen(durable, names) <==> name in durable
  {
  }

  lemma {:induction false} HashesSeen(durable: map<string, string>, all: seq<string>, names: seq<string>)
    requires forall name :: name in names ==> name in all
    ensures HashesOf(Seen(durable, all), names) == HashesOf(durable, names)
  {
    if names != [] {
      var n := |names| - 1;
      assert names[n] in names;
      HashesSeen(durable, all, names[..n]);
    }
  }

  lemma BundleIsDurable(name: string)
    ensures name in DURABLE_FILES <==> name in BUNDLE_FILES || name == STATE_FILE
  {
  }

  /** On files that hold still the two forms agree. */
  lemma CalmIsCreatable(env: Env, durable: map<string, string>, id: nat)
    ensures CreatableFrom(env, Calm(durable)) <==> Creatable(env, durable)
    ensures Creatable(env, durable) ==> CheckpointFrom(env, Calm(durable), id) == CheckpointOf(env, durable, id)
  {
    ParseSeen(env, durable, [STATE_FILE], STATE_FILE);
    ParseSeen(env, durable, BUNDLE_FILES, JOURNAL_FILE);
    ParseSeen(env, durable, [JOURNAL_FILE], JOURNAL_FILE);
    HashesSeen(durable, DURABLE_FILES, DURABLE_FILES);
    forall name: string
      ensures name in DURABLE_FILES <==> name in BUNDLE_FILES || name == STATE_FILE
    {
      BundleIsDurable(name);
    }
    ReadableIsPresent(env, durable);
    CalmJournal(env, durable);
    hide ParseObject, ValidState, JournalOk, HashesOf;
  }

  lemma ReadableIsPresent(env: Env, durable: map<string, string>)
    ensures ParseObject(env, durable, STATE_FILE).Some? ==> STATE_FILE in durable
    ensures ParseObject(env, durable, JOURNAL_FILE).Some? ==> JOURNAL_FILE in durable
  {
  }

  lemma CalmJournal(env: Env, durable: map<string, string>)
    requires ParseObject(env, Seen(durable, [JOURNAL_FILE]), JOURNAL_FILE) == ParseObject(env, durable, JOURNAL_FILE)
    ensures JournalSteps(env, Seen(durable, [JOURNAL_FILE])) == JournalSteps(env, durable)
  {
    assert JOURNAL_FILE in Seen(durable, [JOURNAL_FILE]) <==> JOURNAL_FILE in durable;
    hide ParseObject;
  }

  lemma SeenSnoc(durable: map<string, string>, names: seq<string>, k: nat)
    requires k < |names|
    ensures Seen(durable, names[..k + 1]) ==
            if names[k] in durable then Seen(durable, names[..k])[names[k] := durable[names[k]]] else Seen(durable, names[..k])
  {
    assert names[..k + 1] == names[..k] + [names[k]];
  }

  method HashFiles(durable: map<string, string>, names: seq<string>) returns (hashes: map<string, Option<Digest>>)
    ensures hashes == HashesOf(durable, names)
  {
    hashes := map[];
    for k := 0 to |names|
      invariant hashes == HashesOf(durable, names[..k])
    {
      assert names[..k + 1][..k] == names[..k];
      hashes := hashes[names[k] := HashOf(durable, names[k])];
    }
    assert names[..|names|] == names;
  }

  class MissionDirectory {
    const env: Env
    var durable: map<string, string>
    var checkpoints: map<nat, Content>
    var pointer: Option<PointerFile>
    var resume: Option<nat>

    ghost function Files(): Store
      reads this
    {
      Store(durable, checkpoints, pointer, resume)
    }

    constructor (env: Env, store: Store)
      ensures this.env == env && Files() == store
    {
      this.env := env;
      durable, checkpoints, pointer, resume := store.durable, store.checkpoints, store.pointer, store.resume;
    }

    /** Someone else rewrites, adds or removes durable files, unless they hold still. */
    method OutsideEdit(calm: bool)
      modifies this`durable
      ensures calm ==> durable == old(durable)
    {
      if !calm {
        durable := *;
      }
    }

    /** One pass: each file is read at its own moment. */
    method ReadFiles(names: seq<string>, calm: bool) returns (seen: map<string, string>)
      modifies this`durable
      ensures calm ==> durable == old(durable) && seen == Seen(durable, names)
    {
      seen := map[];
      for k := 0 to |names|
        invariant calm ==> durable == old(durable) && seen == Seen(durable, names[..k])
      {
        OutsideEdit(calm);
        SeenSnoc(durable, names, k);
        if names[k] in durable {
          seen := seen[names[k] := durable[names[k]]];
        }
      }
      assert names[..|names|] == names;
    }

    /** A pass over a set of names, in whatever order it yields them. */
    method ReadNamed(names: set<string>, calm: bool) returns (seen: map<string, string>)
      modifies this`durable
      ensures calm ==> durable == old(durable) && seen == Restricted(durable, names)
    {
      seen := map[];
      var remaining := names;
      while remaining != {}
        invariant remaining <= names
        invariant calm ==> durable == old(durable) && seen == Restricted(durable, names - remaining)
        decreases |remaining|
      {
        OutsideEdit(calm);
        var name :| name in remaining;
        assert names - (remaining - {name}) == names - remaining + {name};
        remaining := remaining - {name};
        if name in durable {
          seen := seen[name := durable[name]];
        }
      }
      assert names - remaining == names;
    }

    /** Everything up to the first write: the passes in the order of the code, each able to refuse. */
    method BuildCheckpoint(calm: bool) returns (result: Result<Checkpoint, CreateError>, ghost seen: Reads)
      modifies this`durable
      ensures result.Ok? <==> CreatableFrom(env, seen)
      ensures result.Ok? ==> result.value == CheckpointFrom(env, seen, Highest(checkpoints.Keys) + 1)
      ensures result.Err? ==> result.error != Crashed
      ensures calm ==> durable == old(durable) && (result.Ok? <==> CreatableFrom(env, Calm(durable)))
      ensures calm && result.Ok? ==> seen == Calm(durable)
    {
      hide ParseObject, ValidState, JournalOk, HashesOf, JournalSteps, Seen, BundleOk;
      var stateText := ReadFiles([STATE_FILE], calm);
      seen := Reads(stateText, map[], map[], map[]);
      var state := ParseObject(env, stateText, STATE_FILE);
      if state.None? {
        return Err(StateUnreadable), seen;
      }
      var bundle := ReadFiles(BUNDLE_FILES, calm);
      seen := Reads(stateText, bundle, map[], map[]);
      if !ValidState(state.value, env.secretFree) || !BundleOk(env, bundle, state.value) {
        return Err(ValidationFailed), seen;
      }
      var highest := HighestCheckpointNumber(checkpoints.Keys);
      var journalText := ReadFiles([JOURNAL_FILE], calm);
      seen := Reads(stateText, bundle, journalText, map[]);
      var steps := JournalSteps(env, journalText);
      if steps.None? {
        return Err(JournalInvalid), seen;
      }
      var hashed := ReadFiles(DURABLE_FILES, calm);
      seen := Reads(stateText, bundle, journalText, hashed);
      if exists name :: name in DURABLE_FILES && name !in hashed {
        return Err(FileVanished), seen;
      }
      var hashes := HashFiles(hashed, DURABLE_FILES);
      return Ok(Checkpoint(Get(state.value, "mission_id"), highest + 1, state.value, steps.value, Some(hashes))), seen;
    }

    /**
     The process survives the first `survives` writes; a crash leaves exactly what those writes made durable. Durable
     files may be edited at any moment unless they hold still, and the document is what its reads saw.
     */
    method CreateCheckpoint(survives: nat, calm: bool) returns (result: Result<PointerFile, CreateError>, ghost seen: Reads)
      modifies this
      ensures !CreatableFrom(env, seen) ==>
        && result.Err? && result.error != Crashed
        && checkpoints == old(checkpoints) && pointer == old(pointer) && resume == old(resume)
      ensures CreatableFrom(env, seen) ==>
        var doc := CheckpointFrom(env, seen, Highest(old(checkpoints).Keys) + 1);
        var before := Store(durable, old(checkpoints), old(pointer), old(resume));
        if survives < 3 then result == Err(Crashed) && Files() == AfterWrites(before, doc, survives)
        else result == Ok(PointerTo(doc)) && Files() == AfterWrites(before, doc, 3)
      ensures calm ==> durable == old(durable) && (CreatableFrom(env, seen) <==> Creatable(env, old(durable)))
      ensures calm && Creatable(env, old(durable)) ==>
        CheckpointFrom(env, seen, Highest(old(checkpoints).Keys) + 1) == CheckpointOf(env, old(durable), Highest(old(checkpoints).Keys) + 1)
    {
      hide Creatable, CreatableFrom, CheckpointOf, CheckpointFrom, AfterWrites, ParseObject, Calm;
      CalmIsCreatable(env, durable, Highest(checkpoints.Keys) + 1);
      var built;
      built, seen := BuildCheckpoint(calm);
      if built.Err? {
        return Err(built.error), seen;
      }
      var doc := built.value;
      if survives == 0 {
        WritesUnfold(Files(), doc);
        return Err(Crashed), seen;
      }
      checkpoints := checkpoints[doc.id := Doc(doc)];
      OutsideEdit(calm);
      if survives == 1 {
        WritesUnfold(Store(durable, old(checkpoints), old(pointer), old(resume)), doc);
        return Err(Crashed), seen;
      }
      pointer := Some(PointerTo(doc));
      OutsideEdit(calm);
      WritesUnfold(Store(durable, old(checkpoints), old(pointer), old(resume)), doc);
      if survives == 2 { return Err(Crashed), seen; }
      resume := Some(doc.id);
      return Ok(PointerTo(doc)), seen;
    }

    method LoadLatestCheckpoint() returns (loaded: Loaded)
      ensures loaded == Load(Files())
    {
      if pointer.None? { return LoadBlocked(LatestMissing); }
      if pointer.value.Garbage? { return LoadBlocked(PointerInvalid); }
      var p := pointer.value;
      if p.target !in checkpoints { return LoadBlocked(CheckpointMissing); }
      var content := checkpoints[p.target];
      if Sha256(content) != p.sha { return LoadBlocked(HashMismatch); }
      if content.Text? { return LoadBlocked(JsonInvalid); }
      if content.checkpoint.missionId != p.missionId { return LoadBlocked(MissionMismatch); }
      if content.checkpoint.id != p.id { return LoadBlocked(SequenceMismatch); }
      if p.id > MAX_ID { return LoadBlocked(SequenceInvalid); }
      var highest := HighestCheckpointNumber(checkpoints.Keys);
      if p.id < highest { return LoadBlocked(SequenceRegression); }
      return LoadReady(p, content.checkpoint);
    }

    /** Appends an in-progress record unless its id is already used. */
    method JournalStepStart(id: string, record: State) returns (result: Result<Json, JournalError>)
      requires Get(record, "step_id") == Str(id) && Get(record, "status") == Str("IN_PROGRESS")
      modifies this`durable
      ensures match JournalSteps(env, old(durable))
              case None => result == Err(JournalUnreadable) && durable == old(durable)
              case Some(steps) =>
                if exists i :: 0 <= i < |steps| && HasStepId(steps[i], Str(id))
                then result == Err(DuplicateStep) && durable == old(durable)
                else result == Ok(Obj(record)) && durable == WithSteps(env, old(durable), steps + [Obj(record)])
    {
      var steps := JournalSteps(env, durable);
      if steps.None? {
        return Err(JournalUnreadable);
      }
      for k := 0 to |steps.value|
        invariant forall i :: 0 <= i < k ==> !HasStepId(steps.value[i], Str(id))
      {
        if HasStepId(steps.value[k], Str(id)) {
          return Err(DuplicateStep);
        }
      }
      durable := WithSteps(env, durable, steps.value + [Obj(record)]);
      return Ok(Obj(record));
    }

    /** Completes the first record of that id and no other. */
    method JournalStepComplete(id: string, completedAt: string) returns (result: Result<Json, JournalError>)
      modifies this`durable
      ensures match JournalSteps(env, old(durable))
              case None => result == Err(JournalUnreadable) && durable == old(durable)
              case Some(steps) =>
                match FirstWith(steps, Str(id))
                case None => result == Err(UnknownStep) && durable == old(durable)
                case Some(k) =>
                  var completed := Obj(steps[k].fields["status" := Str("COMPLETE")]["completed_at" := Str(completedAt)]);
                  result == Ok(completed) && durable == WithSteps(env, old(durable), steps[k := completed])
    {
      var steps := JournalSteps(env, durable);
      if steps.None? {
        return Err(JournalUnreadable);
      }
      for k := 0 to |steps.value|
        invariant forall i :: 0 <= i < k ==> !HasStepId(steps.value[i], Str(id))
      {
        if HasStepId(steps.value[k], Str(id)) {
          FirstIs(steps.value, Str(id), k);
          var completed := Obj(steps.value[k].fields["status" := Str("COMPLETE")]["completed_at" := Str(completedAt)]);
          durable := WithSteps(env, durable, steps.value[k := completed]);
          return Ok(completed);
        }
      }
      return Err(UnknownStep);
    }
  }

  lemma {:induction false} FirstIs(steps: seq<Json>, id: Json, k: nat)
    requires k < |steps| && HasStepId(steps[k], id) && forall i :: 0 <= i < k ==> !HasStepId(steps[i], id)
    ensures FirstWith(steps, id) == Some(k)
  {
    var n := |steps| - 1;
    if k < n {
      FirstIs(steps[..n], id, k);
    }
  }

  lemma WritesUnfold(store: Store, doc: Checkpoint)
    ensures AfterWrites(store, doc, 0) == store
    ensures AfterWrites(store, doc, 1) == store.(checkpoints := store.checkpoints[doc.id := Doc(doc)])
    ensures AfterWrites(store, doc, 2) == AfterWrites(store, doc, 1).(pointer := Some(PointerTo(doc)))
    ensures AfterWrites(store, doc, 3) == AfterWrites(store, doc, 2).(resume := Some(doc.id))
  {
    assert AfterWrites(store, doc, 1) == WriteFile(AfterWrites(store, doc, 0), doc, 0);
    assert AfterWrites(store, doc, 2) == WriteFile(AfterWrites(store, doc, 1), doc, 1);
    assert AfterWrites(store, doc, 3) == WriteFile(AfterWrites(store, doc, 2), doc, 2);
  }
}
