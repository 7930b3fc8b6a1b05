/** Task graph validation with its depth-first cycle check (scripts/wfh_mission.py, validate_task_graph). */
module TaskGraph {
  import opened Common

  const MISSING: string := "<missing>"
  const MAX_IN_PROGRESS: int := 3
  const TASK_STATES: set<string> :=
    {"NOT_STARTED", "READY", "IN_PROGRESS", "BLOCKED", "VERIFYING", "COMPLETE", "SUPERSEDED", "REJECTED"}

  /** The parents field: absent, of the wrong type, or a list whose unusable entries are None. */
  datatype Parents = Absent | NotAList | Listed(ids: seq<Option<string>>)

  /** An entry of the task list; the id is None unless it is a non-empty string. */
  datatype Entry = NotAnObject | Task(id: Option<string>, state: Option<string>, parents: Parents, handoff: bool)

  datatype GraphError =
    | TasksNotAnArray | EntryNotAnObject | MissingId | InvalidState(id: string) | ParentsNotAnArray(id: string)
    | BadParentIds(id: string) | MissingHandoff(id: string) | DuplicateIds | UnknownParent(id: string, parent: string)
    | DependencyCycle | TooManyInProgress

  function IdOf(t: Entry): string
    requires t.Task?
  {
    t.id.GetOr(MISSING)
  }

  function UsableIds(ids: seq<Option<string>>): seq<string> {
    if ids == [] then []
    else
      var n := |ids| - 1;
      UsableIds(ids[..n]) + (if ids[n].Some? then [ids[n].value] else [])
  }

  function ParentsOf(t: Entry): seq<string>
    requires t.Task?
  {
    if t.parents.Listed? then UsableIds(t.parents.ids) else []
  }

  function TaskIds(tasks: seq<Entry>): seq<string> {
    if tasks == [] then []
    else
      var n := |tasks| - 1;
      TaskIds(tasks[..n]) + (if tasks[n].Task? then [IdOf(tasks[n])] else [])
  }

  /** The parent map; a later entry of the same id replaces an earlier one. */
  function ParentMap(tasks: seq<Entry>): map<string, seq<string>> {
    if tasks == [] then map[]
    else
      var n := |tasks| - 1;
      var before := ParentMap(tasks[..n]);
      if tasks[n].Task? then before[IdOf(tasks[n]) := ParentsOf(tasks[n])] else before
  }

  function ValidIds(tasks: seq<Entry>): set<string> { (set id | id in TaskIds(tasks)) - {MISSING} }

  function InProgress(tasks: seq<Entry>): int {
    if tasks == [] then 0
    else
      var n := |tasks| - 1;
      InProgress(tasks[..n]) + (if tasks[n].Task? && tasks[n].state == Some("IN_PROGRESS") then 1 else 0)
  }

  // ----- the recorded parent relation -----

  predicate Edge(parents: map<string, seq<string>>, valid: set<string>, child: string, parent: string) {
    child in valid && parent in valid && child in parents && parent in parents[child]
  }

  ghost predicate IsPath(parents: map<string, seq<string>>, valid: set<string>, path: seq<string>) {
    forall k :: 0 <= k < |path| - 1 ==> Edge(parents, valid, path[k], path[k + 1])
  }

  /** A walk along recorded parents that returns to where it started. */
  ghost predicate HasCycle(parents: map<string, seq<string>>, valid: set<string>) {
    exists path: seq<string> :: |path| >= 2 && path[0] == path[|path| - 1] && IsPath(parents, valid, path)
  }

  /** Every parent of a listed id is listed before it. */
  ghost predicate Topological(parents: map<string, seq<string>>, valid: set<string>, order: seq<string>) {
    forall k, p :: 0 <= k < |order| && Edge(parents, valid, order[k], p) ==> p in order[..k]
  }

  lemma {:induction false} WalkDescends(parents: map<string, seq<string>>, valid: set<string>, order: seq<string>, path: seq<string>, k: nat)
    returns (m: nat)
    requires Topological(parents, valid, order) && IsPath(parents, valid, path) && path != []
    requires k < |order| && order[k] == path[0]
    ensures m < |order| && order[m] == path[|path| - 1] && (|path| > 1 ==> m < k) && m <= k
    decreases |path|
  {
    if |path| == 1 {
      m := k;
    } else {
      assert Edge(parents, valid, order[k], path[1]);
      var j :| 0 <= j < k && order[j] == path[1];
      var rest := path[1..];
      forall i | 0 <= i < |rest| - 1 ensures Edge(parents, valid, rest[i], rest[i + 1]) {
        assert Edge(parents, valid, path[i + 1], path[(i + 1) + 1]);
      }
      m := WalkDescends(parents, valid, order, rest, j);
    }
  }

  /** A topological order of all valid ids, without repetition, rules every cycle out. */
  lemma TopologicalIsAcyclic(parents: map<string, seq<string>>, valid: set<string>, order: seq<string>)
    requires Topological(parents, valid, order)
    requires forall id :: id in valid ==> id in order
    requires forall i, j :: 0 <= i < j < |order| ==> order[i] != order[j]
    ensures !HasCycle(parents, valid)
  {
    forall path: seq<string> | |path| >= 2 && path[0] == path[|path| - 1]
      ensures !IsPath(parents, valid, path)
    {
      if IsPath(parents, valid, path) {
        assert Edge(parents, valid, path[0], path[0 + 1]);
        var k :| 0 <= k < |order| && order[k] == path[0];
        var m := WalkDescends(parents, valid, order, path, k);
      }
    }
  }

  // ----- the depth-first search -----

  /** visiting and visited, with the stack and the finishing order they stand for. */
  class Search {
    const parents: map<string, seq<string>>
    const valid: set<string>
    var visiting: set<string>
    var visited: set<string>
    ghost var stack: seq<string>
    ghost var order: seq<string>

    ghost predicate Valid()
      reads this
    {
      && (forall id :: id in visiting <==> id in stack)
      && (forall id :: id in visited <==> id in order)
      && visiting <= valid && visited <= valid && visiting !! visited
      && IsPath(parents, valid, stack)
      && Topological(parents, valid, order)
      && (forall i, j :: 0 <= i < j < |order| ==> order[i] != order[j])
      && (forall i, j :: 0 <= i < j < |stack| ==> stack[i] != stack[j])
    }

    constructor (parents: map<string, seq<string>>, valid: set<string>)
      ensures Valid() && this.parents == parents && this.valid == valid
      ensures stack == [] && order == []
    {
      this.parents := parents;
      this.valid := valid;
      visiting, visited := {}, {};
      stack, order := [], [];
    }

    lemma BackEdge(id: string)
      requires Valid() && id in visiting && stack != [] && Edge(parents, valid, stack[|stack| - 1], id)
      ensures HasCycle(parents, valid)
    {
      var k :| 0 <= k < |stack| && stack[k] == id;
      var cycle := stack[k..] + [id];
      forall i | 0 <= i < |cycle| - 1 ensures Edge(parents, valid, cycle[i], cycle[i + 1]) {
        if i + 1 < |cycle| - 1 {
          assert Edge(parents, valid, stack[k + i], stack[(k + i) + 1]);
        }
      }
      assert cycle[0] == cycle[|cycle| - 1];
    }

    /** visiting.add(id) */
    method Enter(id: string)
      requires Valid() && id in valid && id !in visiting && id !in visited
      requires stack != [] ==> Edge(parents, valid, stack[|stack| - 1], id)
      modifies this
      ensures Valid() && visiting == old(visiting) + {id} && stack == old(stack) + [id]
      ensures visited == old(visited) && order == old(order)
    {
      hide Edge, IsPath, Topological;
      Pushed(stack, id);
      visiting := visiting + {id};
      stack := stack + [id];
    }

    /** visiting.remove(id); visited.add(id) */
    method Leave(id: string, mine: seq<string>)
      requires Valid() && stack != [] && stack[|stack| - 1] == id && id !in visited
      requires mine == if id in parents then parents[id] else []
      requires forall j :: 0 <= j < |mine| && mine[j] in valid ==> mine[j] in visited
      modifies this
      ensures Valid() && visiting == old(visiting) - {id} && stack == old(stack)[..|old(stack)| - 1]
      ensures visited == old(visited) + {id} && order == old(order) + [id]
    {
      Popped(stack);
      hide Edge, IsPath, Topological;
      Finished(order, id, mine);
      visiting := visiting - {id};
      visited := visited + {id};
      order := order + [id];
      stack := stack[..|stack| - 1];
    }

    lemma Popped(before: seq<string>)
      requires IsPath(parents, valid, before) && before != []
      ensures IsPath(parents, valid, before[..|before| - 1])
    {
    }

    /** Each descent puts one more valid id on the stack, so the unvisited set shrinks and the recursion ends. */
    method Visit(id: string) returns (found: bool)
      requires Valid() && id in valid
      requires stack != [] ==> Edge(parents, valid, stack[|stack| - 1], id)
      requires stack == [] ==> visiting == {}
      modifies this
      ensures found ==> HasCycle(parents, valid)
      ensures !found ==>
        && Valid() && id in visited && visiting == old(visiting) && stack == old(stack)
        && old(visited) <= visited && old(order) <= order
      decreases valid - visiting
    {
      hide Edge, IsPath, Topological, HasCycle;
      if id in visiting {
        BackEdge(id);
        return true;
      }
      if id in visited {
        return false;
      }
      Enter(id);
      var mine := if id in parents then parents[id] else [];
      for k := 0 to |mine|
        invariant Valid() && stack == old(stack) + [id] && visiting == old(visiting) + {id} && id !in visited
        invariant old(visited) <= visited && old(order) <= order
        invariant forall j :: 0 <= j < k && mine[j] in valid ==> mine[j] in visited
      {
        if mine[k] in valid {
          IsEdge(id, mine[k]);
          var below := Visit(mine[k]);
          if below {
            return true;
          }
        }
      }
      Leave(id, mine);
      assert (old(stack) + [id])[..|old(stack)|] == old(stack);
      return false;
    }

    lemma IsEdge(child: string, parent: string)
      requires child in valid && parent in valid && child in parents && parent in parents[child]
      ensures Edge(parents, valid, child, parent)
    {
    }

    lemma Pushed(before: seq<string>, id: string)
      requires IsPath(parents, valid, before) && (before != [] ==> Edge(parents, valid, before[|before| - 1], id))
      ensures IsPath(parents, valid, before + [id])
    {
      var after := before + [id];
      forall k | 0 <= k < |after| - 1 ensures Edge(parents, valid, after[k], after[k + 1]) {
        if k < |before| - 1 { assert Edge(parents, valid, before[k], before[k + 1]); }
      }
    }

    lemma Finished(before: seq<string>, id: string, mine: seq<string>)
      requires Topological(parents, valid, before)
      requires mine == if id in parents then parents[id] else []
      requires forall j :: 0 <= j < |mine| && mine[j] in valid ==> mine[j] in before
      ensures Topological(parents, valid, before + [id])
    {
      var after := before + [id];
      forall k, p | 0 <= k < |after| && Edge(parents, valid, after[k], p) ensures p in after[..k] {
        if k < |before| {
          assert Edge(parents, valid, before[k], p);
          assert after[..k] == before[..k];
        } else {
          assert after[..k] == before;
        }
      }
    }
  }

  /** any(visit(id) for id in valid_ids if id not in visited), in whatever order the set yields its ids. */
  method FindsCycle(parents: map<string, seq<string>>, valid: set<string>) returns (found: bool, ghost order: seq<string>)
    ensures found <==> HasCycle(parents, valid)
    ensures !found ==>
      && Topological(parents, valid, order)
      && (forall id :: id in order <==> id in valid)
      && (forall i, j :: 0 <= i < j < |order| ==> order[i] != order[j])
  {
    var search := new Search(parents, valid);
    var remaining := valid;
    order := [];
    while remaining != {}
      invariant search.Valid() && search.parents == parents && search.valid == valid
      invariant search.stack == [] && search.visiting == {} && remaining <= valid
      invariant valid - remaining <= search.visited
      decreases |remaining|
    {
      var id :| id in remaining;
      remaining := remaining - {id};
      if id !in search.visited {
        var below := search.Visit(id);
        if below {
          return true, [];
        }
      }
    }
    order := search.order;
    TopologicalIsAcyclic(parents, valid, order);
    found := false;
  }

  // ----- the whole validation -----

  predicate StateOk(t: Entry)
    requires t.Task?
  {
    t.state.Some? && t.state.value in TASK_STATES
  }

  predicate ParentsOk(t: Entry)
    requires t.Task?
  {
    t.parents != NotAList && (t.parents.Listed? ==> forall k :: 0 <= k < |t.parents.ids| ==> t.parents.ids[k].Some?)
  }

  predicate HandoffOk(t: Entry)
    requires t.Task?
  {
    t.state == Some("COMPLETE") && ParentsOf(t) != [] ==> t.handoff
  }

  /** Everything the first loop asks of one entry. */
  predicate EntryOk(t: Entry) { t.Task? && IdOf(t) != MISSING && StateOk(t) && ParentsOk(t) && HandoffOk(t) }

  function EntryErrors(t: Entry): seq<GraphError> {
    if t.NotAnObject? then [EntryNotAnObject]
    else
      (if IdOf(t) == MISSING then [MissingId] else [])
      + (if StateOk(t) then [] else [InvalidState(IdOf(t))])
      + (if t.parents == NotAList then [ParentsNotAnArray(IdOf(t))] else if ParentsOk(t) then [] else [BadParentIds(IdOf(t))])
      + (if HandoffOk(t) then [] else [MissingHandoff(IdOf(t))])
  }

  /** What the first loop reports, entry by entry. */
  function ScanErrors(tasks: seq<Entry>): seq<GraphError> {
    if tasks == [] then [] else ScanErrors(tasks[..|tasks| - 1]) + EntryErrors(tasks[|tasks| - 1])
  }

  predicate Distinct(ids: seq<string>) { forall i, j :: 0 <= i < j < |ids| ==> ids[i] != ids[j] }

  ghost predicate ParentsExist(parents: map<string, seq<string>>, valid: set<string>) {
    forall id, p :: id in parents && p in parents[id] ==> p in valid
  }

  /** A task list every rule accepts. */
  ghost predicate WellFormed(tasks: seq<Entry>) {
    && (forall t :: t in tasks ==> EntryOk(t))
    && Distinct(TaskIds(tasks))
    && ParentsExist(ParentMap(tasks), ValidIds(tasks))
    && !HasCycle(ParentMap(tasks), ValidIds(tasks))
    && InProgress(tasks) <= MAX_IN_PROGRESS
  }

  /** Every error of a task list. */
  ghost predicate Reported(tasks: seq<Entry>, e: GraphError) {
    || e in ScanErrors(tasks)
    || (e == DuplicateIds && !Distinct(TaskIds(tasks)))
    || (e.UnknownParent? && e.id in ParentMap(tasks) && e.parent in ParentMap(tasks)[e.id] && e.parent !in ValidIds(tasks))
    || (e == DependencyCycle && HasCycle(ParentMap(tasks), ValidIds(tasks)))
    || (e == TooManyInProgress && InProgress(tasks) > MAX_IN_PROGRESS)
  }

  method UnknownParents(parents: map<string, seq<string>>, valid: set<string>) returns (errors: seq<GraphError>)
    ensures forall e :: e in errors <==> exists id, p :: id in parents && p in parents[id] && p !in valid && e == UnknownParent(id, p)
  {
    errors := [];
    var remaining := parents.Keys;
    while remaining != {}
      invariant remaining <= parents.Keys
      invariant forall e :: e in errors <==>
        exists id, p :: id in parents && id !in remaining && p in parents[id] && p !in valid && e == UnknownParent(id, p)
      decreases |remaining|
    {
      var id :| id in remaining;
      ghost var before := errors;
      for k := 0 to |parents[id]|
        invariant forall e :: e in errors <==> e in before || exists p :: p in parents[id][..k] && p !in valid && e == UnknownParent(id, p)
      {
        if parents[id][k] !in valid {
          errors := errors + [UnknownParent(id, parents[id][k])];
        }
        assert parents[id][..k + 1] == parents[id][..k] + [parents[id][k]];
      }
      assert parents[id][..|parents[id]|] == parents[id];
      remaining := remaining - {id};
    }
  }

  /** The first loop: entry errors, ids in order, the parent map and the number of tasks in progress. */
  method ScanEntries(t: seq<Entry>)
    returns (errors: seq<GraphError>, ids: seq<string>, parents: map<string, seq<string>>, inProgress: int)
    ensures ids == TaskIds(t) && parents == ParentMap(t) && inProgress == InProgress(t) && errors == ScanErrors(t)
    ensures errors == [] <==> forall k :: 0 <= k < |t| ==> EntryOk(t[k])
    ensures DependencyCycle !in errors && forall id, p :: UnknownParent(id, p) !in errors
  {
    hide EntryOk, ParentsOf, EntryErrors;
    errors, ids, parents, inProgress := [], [], map[], 0;
    for k := 0 to |t|
      invariant ids == TaskIds(t[..k]) && parents == ParentMap(t[..k]) && inProgress == InProgress(t[..k]) && errors == ScanErrors(t[..k])
      invariant errors == [] <==> forall j :: 0 <= j < k ==> EntryOk(t[j])
      invariant DependencyCycle !in errors && forall id, p :: UnknownParent(id, p) !in errors
    {
      EntryErrorsExact(t[k]);
      assert t[..k + 1][..k] == t[..k];
      errors := errors + EntryErrors(t[k]);
      if t[k].Task? {
        if t[k].state == Some("IN_PROGRESS") { inProgress := inProgress + 1; }
        ids := ids + [IdOf(t[k])];
        parents := parents[IdOf(t[k]) := ParentsOf(t[k])];
      }
    }
    assert t[..|t|] == t;
  }

  /**
   The cycle error is reported exactly when the recorded parent relation has a cycle; the list is empty exactly for
   well-formed graphs, and then their ids have a topological order.
   */
  method ValidateTaskGraph(tasks: Option<seq<Entry>>) returns (errors: seq<GraphError>, ghost order: seq<string>)
    ensures tasks.None? ==> errors == [TasksNotAnArray]
    ensures tasks.Some? ==>
      var t := tasks.value;
      && (DependencyCycle in errors <==> HasCycle(ParentMap(t), ValidIds(t)))
      && (errors == [] <==> WellFormed(t))
      && (forall e :: e in errors <==> Reported(t, e))
      && (forall id, p :: UnknownParent(id, p) in errors <==> id in ParentMap(t) && p in ParentMap(t)[id] && p !in ValidIds(t))
      && (errors == [] ==> Topological(ParentMap(t), ValidIds(t), order) && forall id :: id in order <==> id in TaskIds(t))
  {
    hide EntryOk, TaskIds, ParentMap, InProgress, HasCycle, Topological, ScanErrors, Reported;
    if tasks.None? {
      return [TasksNotAnArray], [];
    }
    var t := tasks.value;
    var scanned, ids, parents, inProgress := ScanEntries(t);
    var duplicates := if Distinct(ids) then [] else [DuplicateIds];
    var valid := (set id | id in ids) - {MISSING};
    var unknown := UnknownParents(parents, valid);
    var cyclic;
    cyclic, order := FindsCycle(parents, valid);
    var cycle := if cyclic then [DependencyCycle] else [];
    var busy := if inProgress > MAX_IN_PROGRESS then [TooManyInProgress] else [];
    errors := scanned + duplicates + unknown + cycle + busy;
    AllExist(parents, valid, unknown);
    if scanned == [] { NoMissingId(t); }
    Assembled(t, unknown, cyclic);
  }

  /** The reported errors, part by part. */
  lemma Assembled(t: seq<Entry>, unknown: seq<GraphError>, cyclic: bool)
    requires forall e :: e in unknown <==>
               exists id, p :: id in ParentMap(t) && p in ParentMap(t)[id] && p !in ValidIds(t) && e == UnknownParent(id, p)
    requires cyclic <==> HasCycle(ParentMap(t), ValidIds(t))
    ensures var errors := ScanErrors(t) + (if Distinct(TaskIds(t)) then [] else [DuplicateIds]) + unknown
                          + (if cyclic then [DependencyCycle] else []) + (if InProgress(t) > MAX_IN_PROGRESS then [TooManyInProgress] else []);
            forall e :: e in errors <==> Reported(t, e)
  {
    hide ScanErrors, TaskIds, ParentMap, ValidIds, InProgress, HasCycle, Distinct;
  }

  lemma AllExist(parents: map<string, seq<string>>, valid: set<string>, unknown: seq<GraphError>)
    requires forall e :: e in unknown <==> exists id, p :: id in parents && p in parents[id] && p !in valid && e == UnknownParent(id, p)
    ensures unknown == [] <==> ParentsExist(parents, valid)
    ensures forall id, p :: UnknownParent(id, p) in unknown <==> id in parents && p in parents[id] && p !in valid
    ensures DependencyCycle !in unknown
  {
    if unknown != [] {
      assert unknown[0] in unknown;
    }
    if !ParentsExist(parents, valid) {
      var id, p :| id in parents && p in parents[id] && p !in valid;
      assert UnknownParent(id, p) in unknown;
    }
  }

  lemma EntryErrorsExact(t: Entry)
    ensures EntryErrors(t) == [] <==> EntryOk(t)
    ensures DependencyCycle !in EntryErrors(t) && forall id, p :: UnknownParent(id, p) !in EntryErrors(t)
  {
    hide StateOk, ParentsOk, HandoffOk;
    if t.Task? && t.parents == NotAList { NotAListIsNotOk(t); }
  }

  lemma NotAListIsNotOk(t: Entry)
    requires t.Task? && t.parents == NotAList
    ensures !ParentsOk(t)
  {
  }

  lemma {:induction false} NoMissingId(tasks: seq<Entry>)
    requires forall k :: 0 <= k < |tasks| ==> EntryOk(tasks[k])
    ensures MISSING !in TaskIds(tasks)
  {
    if tasks != [] {
      NoMissingId(tasks[..|tasks| - 1]);
    }
  }
}
