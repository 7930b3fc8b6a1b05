/** Mission state as JSON values, its validation, and the monotone scientific state (scripts/wfh_mission.py). */
module MissionState {
  import opened Common

  datatype Json = Null | Bool(b: bool) | Num(n: int) | Str(s: string) | Arr(items: seq<Json>) | Obj(fields: map<string, Json>)

  type State = map<string, Json>

  /** dict.get(key) */
  function Get(state: State, key: string): Json { if key in state then state[key] else Null }

  predicate Truthy(j: Json) {
    match j
    case Null => false
    case Bool(b) => b
    case Num(n) => n != 0
    case Str(s) => s != ""
    case Arr(items) => items != []
    case Obj(fields) => fields != map[]
  }

  const CONTRACT: string := "wfh_mission_continuity_v1"
  const PROJECT: string := "TWFH"
  const REPOSITORY: string := "cavack/WFH-ORG"

  const REQUIRED_NONEMPTY: seq<string> := [
    "contract_version", "mission_id", "mission_name", "project", "repository", "baseline_main_sha", "current_main_sha",
    "production_sha", "current_phase", "current_task", "next_action", "active_branch_head", "active_branch", "active_worktree"]

  const REQUIRED_PRESENT: seq<string> := ["active_worktree_dirty", "required_capabilities", "required_capability_states"]

  const SHA_FIELDS: seq<string> := ["baseline_main_sha", "current_main_sha", "production_sha", "active_branch_head"]

  /** Observation scopes and the state field each is compared with. */
  const OBSERVATION_KEYS: map<string, string> := map[
    "repository_main" := "current_main_sha", "production_revision" := "production_sha", "branch_head" := "active_branch_head",
    "active_branch" := "active_branch", "active_worktree" := "active_worktree", "worktree_cleanliness" := "active_worktree_dirty"]

  predicate IsHexDigit(c: char) { '0' <= c <= '9' || 'a' <= c <= 'f' }

  predicate IsSha(j: Json) { j.Str? && |j.s| == 40 && forall i :: 0 <= i < |j.s| ==> IsHexDigit(j.s[i]) }

  // ----- capabilities -----

  /** The authorization ladder; None for states that are not usable. */
  function Rank(state: string): Option<int> {
    if state == "AVAILABLE" then Some(0)
    else if state == "AUTHORIZED_READ" then Some(1)
    else if state == "AUTHORIZED_WRITE" then Some(2)
    else None
  }

  predicate NamesOnly(items: seq<Json>) { forall i :: 0 <= i < |items| ==> items[i].Str? && items[i].s != "" }

  predicate Unique(items: seq<Json>) { forall i, j :: 0 <= i < j < |items| ==> items[i] != items[j] }

  predicate CapabilitiesOk(state: State) {
    var names, minimums := Get(state, "required_capabilities"), Get(state, "required_capability_states");
    && names.Arr? && NamesOnly(names.items) && Unique(names.items)
    && minimums.Obj?
    && (forall i :: 0 <= i < |names.items| ==> names.items[i].s in minimums.fields)
    && (forall k :: k in minimums.fields ==>
          Str(k) in names.items && minimums.fields[k].Str? && Rank(minimums.fields[k].s).Some?)
  }

  // ----- next-action preconditions -----

  /** The field defaults to an empty list only when it is absent. */
  function Preconditions(state: State): Json {
    if "next_action_preconditions" in state then state["next_action_preconditions"] else Arr([])
  }

  predicate PreconditionItemOk(item: Json) {
    && item.Obj?
    && (match Get(item.fields, "kind")
        case Str(kind) =>
          if kind == "state_equals" then Get(item.fields, "field").Str? && Get(item.fields, "field").s != "" && "expected" in item.fields
          else kind == "observation_equals" && Get(item.fields, "scope").Str? && Get(item.fields, "scope").s in OBSERVATION_KEYS
               && "expected" in item.fields
        case _ => false)
    && ("description" in item.fields ==> item.fields["description"].Str?)
  }

  /** An explicit null passes validation, although the resume gate later refuses it. */
  predicate PreconditionsOk(state: State) {
    match Preconditions(state)
    case Null => true
    case Arr(items) => forall i :: 0 <= i < |items| ==> PreconditionItemOk(items[i])
    case _ => false
  }

  predicate FieldsOk(state: State) {
    && (forall k :: k in REQUIRED_NONEMPTY ==> Truthy(Get(state, k)))
    && (forall k :: k in REQUIRED_PRESENT ==> k in state)
    && Get(state, "contract_version") in {Null, Str(CONTRACT)}
    && Get(state, "project") in {Null, Str(PROJECT)}
    && Get(state, "repository") in {Null, Str(REPOSITORY)}
    && (forall k :: k in SHA_FIELDS ==> Get(state, k) != Null ==> IsSha(Get(state, k)))
    && ("active_worktree_dirty" in state ==> state["active_worktree_dirty"].Bool?)
  }

  /** validate_mission_state reports nothing. */
  predicate ValidState(state: State, secretFree: State -> bool) {
    FieldsOk(state) && CapabilitiesOk(state) && PreconditionsOk(state) && secretFree(state)
  }

  // ----- scientific state: an opened or retired holdout stays so -----

  datatype ScientificError = CannotReset | CannotUnretire

  predicate IsTrue(state: State, key: string) { Get(state, key) == Bool(true) }

  function UpdateScientificState(current: State, updates: State): Result<State, ScientificError> {
    var wasOpened, wasRetired := IsTrue(current, "final_holdout_opened"), IsTrue(current, "final_holdout_retired");
    if wasOpened && Get(updates, "final_holdout_opened") == Bool(false) then Err(CannotReset)
    else if wasRetired && Get(updates, "final_holdout_retired") == Bool(false) then Err(CannotUnretire)
    else
      var merged := current + updates;
      var kept := if wasOpened then merged["final_holdout_opened" := Bool(true)] else merged;
      Ok(if wasRetired then kept["final_holdout_retired" := Bool(true)] else kept)
  }

  /** Applying updates one after another, keeping the state where one is refused. */
  function UpdateAll(current: State, updates: seq<State>): State {
    if updates == [] then current
    else
      var before := UpdateAll(current, updates[..|updates| - 1]);
      match UpdateScientificState(before, updates[|updates| - 1])
      case Ok(next) => next
      case Err(_) => before
  }

  /** Over any sequence of updates, whatever they contain, an opened holdout stays opened and a retired one retired. */
  lemma {:induction false} HoldoutFlagsAreMonotone(current: State, updates: seq<State>, key: string)
    requires key in {"final_holdout_opened", "final_holdout_retired"} && IsTrue(current, key)
    ensures IsTrue(UpdateAll(current, updates), key)
  {
    if updates != [] {
      HoldoutFlagsAreMonotone(current, updates[..|updates| - 1], key);
    }
  }

  /** Every other field takes the updated value, so nothing but the two flags is protected. */
  lemma UpdateTakesEffect(current: State, updates: State, key: string)
    requires UpdateScientificState(current, updates).Ok? && key !in {"final_holdout_opened", "final_holdout_retired"}
    ensures Get(UpdateScientificState(current, updates).value, key) == if key in updates then updates[key] else Get(current, key)
  {
  }
}
