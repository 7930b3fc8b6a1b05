/** What the task graph validation reports, in terms of the task list alone (scripts/wfh_mission.py, validate_task_graph). */
module TaskGraphExactness {
  import opened Common
  import opened TaskGraph

  // ----- one entry -----

  ghost predicate HasId(t: Entry)
    requires t.Task?
  {
    t.id.Some? && t.id.value != "<missing>"
  }

  /** The id errors show. */
  ghost function Label(t: Entry): string
    requires t.Task?
  {
    if t.id.Some? then t.id.value else "<missing>"
  }

  ghost predicate KnownState(t: Entry)
    requires t.Task?
  {
    t.state in {Some("NOT_STARTED"), Some("READY"), Some("IN_PROGRESS"), Some("BLOCKED"), Some("VERIFYING"), Some("COMPLETE"),
                Some("SUPERSEDED"), Some("REJECTED")}
  }

  /** The entry lists p, a non-empty text, as a parent. */
  ghost predicate Names(t: Entry, p: string) { t.Task? && t.parents.Listed? && Some(p) in t.parents.ids }

  ghost predicate Unreadable(t: Entry)
    requires t.Task?
  {
    t.parents.Listed? && None in t.parents.ids
  }

  ghost predicate Undelivered(t: Entry)
    requires t.Task?
  {
    t.state == Some("COMPLETE") && (exists p :: Names(t, p)) && !t.handoff
  }

  /** What is wrong with one entry. */
  ghost predicate Wrong(t: Entry, e: GraphError) {
    match e
    case EntryNotAnObject => t.NotAnObject?
    case MissingId => t.Task? && !HasId(t)
    case InvalidState(id) => t.Task? && id == Label(t) && !KnownState(t)
    case ParentsNotAnArray(id) => t.Task? && id == Label(t) && t.parents == NotAList
    case BadParentIds(id) => t.Task? && id == Label(t) && Unreadable(t)
    case MissingHandoff(id) => t.Task? && id == Label(t) && Undelivered(t)
    case _ => false
  }

  lemma {:induction false} UsableMean(ids: seq<Option<string>>, p: string)
    ensures p in UsableIds(ids) <==> Some(p) in ids
  {
    if ids != [] {
      UsableMean(ids[..|ids| - 1], p);
      assert ids == ids[..|ids| - 1] + [ids[|ids| - 1]];
    }
  }

  lemma ParentsMean(t: Entry, p: string)
    requires t.Task?
    ensures p in ParentsOf(t) <==> Names(t, p)
  {
    if t.parents.Listed? { UsableMean(t.parents.ids, p); }
  }

  lemma HandoffMeans(t: Entry)
    requires t.Task?
    ensures HandoffOk(t) <==> !Undelivered(t)
  {
    hide ParentsOf, Names;
    if ParentsOf(t) != [] {
      ParentsMean(t, ParentsOf(t)[0]);
      assert Names(t, ParentsOf(t)[0]);
    } else if exists p :: Names(t, p) {
      var p :| Names(t, p);
      ParentsMean(t, p);
    }
  }

  lemma ReadableMeans(t: Entry)
    requires t.Task?
    ensures ParentsOk(t) <==> t.parents != NotAList && !Unreadable(t)
    ensures Unreadable(t) ==> t.parents.Listed?
  {
  }

  lemma StateMeans(t: Entry)
    requires t.Task?
    ensures StateOk(t) <==> KnownState(t)
  {
  }

  lemma EntryMeans(t: Entry, e: GraphError)
    ensures e in EntryErrors(t) <==> Wrong(t, e)
  {
    hide StateOk, ParentsOk, HandoffOk, KnownState, Unreadable, Undelivered;
    if t.Task? {
      StateMeans(t);
      ReadableMeans(t);
      HandoffMeans(t);
    }
  }

  lemma {:induction false} ScanMeans(tasks: seq<Entry>, e: GraphError)
    ensures e in ScanErrors(tasks) <==> exists t :: t in tasks && Wrong(t, e)
  {
    hide EntryErrors, Wrong;
    if tasks != [] {
      var n := |tasks| - 1;
      ScanMeans(tasks[..n], e);
      EntryMeans(tasks[n], e);
      assert forall t :: t in tasks <==> t in tasks[..n] || t == tasks[n];
    }
  }

  // ----- ids, parents and tasks in progress -----

  /** Entry k is the last one of its id, whose parents count. */
  ghost predicate Decides(tasks: seq<Entry>, k: nat, id: string) {
    && k < |tasks| && tasks[k].Task? && Label(tasks[k]) == id
    && forall j :: k < j < |tasks| && tasks[j].Task? ==> Label(tasks[j]) != id
  }

  ghost predicate Known(tasks: seq<Entry>, id: string) {
    id != "<missing>" && exists t :: t in tasks && t.Task? && Label(t) == id
  }

  /** The child's recorded entry names the parent. */
  ghost predicate Needs(tasks: seq<Entry>, child: string, parent: string) {
    exists k: nat :: Decides(tasks, k, child) && Names(tasks[k], parent)
  }

  lemma {:induction false} IdsMean(tasks: seq<Entry>, id: string)
    ensures id in ValidIds(tasks) <==> Known(tasks, id)
    ensures id in TaskIds(tasks) <==> exists t :: t in tasks && t.Task? && Label(t) == id
  {
    if tasks != [] {
      var n := |tasks| - 1;
      IdsMean(tasks[..n], id);
      assert forall t :: t in tasks <==> t in tasks[..n] || t == tasks[n];
    }
  }

  lemma DecidesInit(tasks: seq<Entry>, k: nat, id: string)
    requires tasks != []
    ensures var n := |tasks| - 1;
            Decides(tasks, k, id) <==> if tasks[n].Task? && Label(tasks[n]) == id then k == n else Decides(tasks[..n], k, id)
  {
  }

  lemma {:induction false} ParentMapMeans(tasks: seq<Entry>, id: string, p: string)
    ensures id in ParentMap(tasks) && p in ParentMap(tasks)[id] <==> Needs(tasks, id, p)
  {
    hide Decides, Names, Label;
    if tasks == [] {
      NothingDecides(id);
    } else {
      var n := |tasks| - 1;
      ParentMapMeans(tasks[..n], id, p);
      forall k: nat ensures Decides(tasks, k, id) <==> if tasks[n].Task? && Label(tasks[n]) == id then k == n else Decides(tasks[..n], k, id) {
        DecidesInit(tasks, k, id);
      }
      forall k: nat | Decides(tasks[..n], k, id) ensures k < n {
        DecidesWithin(tasks[..n], k, id);
      }
      if tasks[n].Task? {
        LabelIsId(tasks[n]);
        ParentsMean(tasks[n], p);
      }
    }
  }

  lemma NothingDecides(id: string)
    ensures forall k: nat :: !Decides([], k, id)
  {
  }

  lemma DecidesWithin(tasks: seq<Entry>, k: nat, id: string)
    requires Decides(tasks, k, id)
    ensures k < |tasks|
  {
  }

  lemma LabelIsId(t: Entry)
    requires t.Task?
    ensures IdOf(t) == Label(t)
  {
  }

  ghost predicate Busy(t: Entry) { t.Task? && t.state == Some("IN_PROGRESS") }

  lemma {:induction false} InProgressMeans(tasks: seq<Entry>)
    ensures InProgress(tasks) == |Filter(tasks, (t: Entry) => Busy(t))|
  {
    if tasks != [] {
      InProgressMeans(tasks[..|tasks| - 1]);
    }
  }

  ghost predicate Repeated(tasks: seq<Entry>) {
    exists i, j :: 0 <= i < j < |tasks| && tasks[i].Task? && tasks[j].Task? && Label(tasks[i]) == Label(tasks[j])
  }

  lemma OneMoreId(ids: seq<string>, id: string)
    ensures Distinct(ids + [id]) <==> Distinct(ids) && id !in ids
  {
    var all := ids + [id];
    assert forall i :: 0 <= i < |ids| ==> all[i] == ids[i];
    if !Distinct(ids) {
      var i, j :| 0 <= i < j < |ids| && ids[i] == ids[j];
      assert all[i] == all[j];
    }
    if id in ids {
      var i :| 0 <= i < |ids| && ids[i] == id;
      assert all[i] == all[|ids|];
    }
  }

  lemma OneMoreRepeat(tasks: seq<Entry>)
    requires tasks != []
    ensures var n := |tasks| - 1;
            Repeated(tasks) <==>
            Repeated(tasks[..n]) || (tasks[n].Task? && exists t :: t in tasks[..n] && t.Task? && Label(t) == Label(tasks[n]))
  {
    hide Label;
  }

  lemma {:induction false} DistinctMeans(tasks: seq<Entry>)
    ensures Distinct(TaskIds(tasks)) <==> !Repeated(tasks)
  {
    hide Label, Distinct, Repeated;
    if tasks == [] {
      NoRepeat();
    } else {
      var n, ids := |tasks| - 1, TaskIds(tasks[..|tasks| - 1]);
      DistinctMeans(tasks[..n]);
      OneMoreRepeat(tasks);
      if tasks[n].Task? {
        LabelIsId(tasks[n]);
        IdsMean(tasks[..n], IdOf(tasks[n]));
        OneMoreId(ids, IdOf(tasks[n]));
      } else {
        assert ids + [] == ids;
      }
    }
  }

  lemma NoRepeat()
    ensures !Repeated([]) && Distinct([])
  {
  }

  // ----- cycles -----

  /** The first entry's id is recorded as needing the second's, and both are ids of the list. */
  ghost predicate Step(tasks: seq<Entry>, child: string, parent: string) {
    Known(tasks, child) && Known(tasks, parent) && Needs(tasks, child, parent)
  }

  /** A walk along recorded parents that returns to where it started. */
  ghost predicate Loops(tasks: seq<Entry>) {
    exists path: seq<string> :: |path| >= 2 && path[0] == path[|path| - 1] && Walks(tasks, path)
  }

  ghost predicate Walks(tasks: seq<Entry>, path: seq<string>) {
    forall k :: 0 <= k < |path| - 1 ==> Step(tasks, path[k], path[k + 1])
  }

  lemma EdgeMeans(tasks: seq<Entry>, child: string, parent: string)
    ensures Edge(ParentMap(tasks), ValidIds(tasks), child, parent) <==> Step(tasks, child, parent)
  {
    hide ParentMap, ValidIds, Known, Needs;
    IdsMean(tasks, child);
    IdsMean(tasks, parent);
    ParentMapMeans(tasks, child, parent);
  }

  lemma WalksMean(tasks: seq<Entry>, path: seq<string>)
    ensures IsPath(ParentMap(tasks), ValidIds(tasks), path) <==> Walks(tasks, path)
  {
    hide ParentMap, ValidIds, Edge, Step;
    forall k | 0 <= k < |path| - 1
      ensures Edge(ParentMap(tasks), ValidIds(tasks), path[k], path[k + 1]) <==> Step(tasks, path[k], path[k + 1])
    {
      EdgeMeans(tasks, path[k], path[k + 1]);
    }
  }

  lemma LoopsMean(tasks: seq<Entry>)
    ensures HasCycle(ParentMap(tasks), ValidIds(tasks)) <==> Loops(tasks)
  {
    hide ParentMap, ValidIds, IsPath, Walks;
    var parents, valid := ParentMap(tasks), ValidIds(tasks);
    if HasCycle(parents, valid) {
      var path: seq<string> :| |path| >= 2 && path[0] == path[|path| - 1] && IsPath(parents, valid, path);
      WalksMean(tasks, path);
    }
    if Loops(tasks) {
      var path: seq<string> :| |path| >= 2 && path[0] == path[|path| - 1] && Walks(tasks, path);
      WalksMean(tasks, path);
    }
  }

  // ----- the whole validation -----

  /** What is wrong with a task list. */
  ghost predicate WrongList(tasks: seq<Entry>, e: GraphError) {
    match e
    case DuplicateIds => Repeated(tasks)
    case UnknownParent(id, parent) => Needs(tasks, id, parent) && !Known(tasks, parent)
    case DependencyCycle => Loops(tasks)
    case TooManyInProgress => |Filter(tasks, (t: Entry) => Busy(t))| >= 4
    case _ => exists t :: t in tasks && Wrong(t, e)
  }

  /** The validation reports an error exactly when it is one of the list's. */
  lemma ReportedExactly(tasks: seq<Entry>, e: GraphError)
    ensures Reported(tasks, e) <==> WrongList(tasks, e)
  {
    hide ScanErrors, TaskIds, ParentMap, ValidIds, InProgress, HasCycle, Distinct, Wrong, Repeated, Known, Needs, Loops, Filter;
    ScanMeans(tasks, e);
    WrongIsOfAnEntry(e);
    DistinctMeans(tasks);
    LoopsMean(tasks);
    InProgressMeans(tasks);
    if e.UnknownParent? {
      ParentMapMeans(tasks, e.id, e.parent);
      IdsMean(tasks, e.parent);
    }
  }

  lemma WrongIsOfAnEntry(e: GraphError)
    ensures e == DuplicateIds || e.UnknownParent? || e == DependencyCycle || e == TooManyInProgress || e == TasksNotAnArray
            ==> forall t :: !Wrong(t, e)
  {
  }

  /** An entry every rule accepts. */
  ghost predicate Sound(t: Entry) {
    t.Task? && HasId(t) && KnownState(t) && t.parents != NotAList && !Unreadable(t) && !Undelivered(t)
  }

  lemma SoundMeans(t: Entry)
    ensures EntryOk(t) <==> Sound(t)
  {
    hide StateOk, ParentsOk, HandoffOk, KnownState, Unreadable, Undelivered;
    if t.Task? {
      StateMeans(t);
      ReadableMeans(t);
      HandoffMeans(t);
    }
  }

  /**
   A task list is accepted exactly when every entry is sound, ids are distinct, every named parent is an id of the list,
   no walk along parents returns, and at most three tasks are in progress.
   */
  lemma AcceptedExactly(tasks: seq<Entry>)
    ensures WellFormed(tasks) <==>
            && (forall t :: t in tasks ==> Sound(t))
            && !Repeated(tasks)
            && (forall id, parent :: Needs(tasks, id, parent) ==> Known(tasks, parent))
            && !Loops(tasks)
            && |Filter(tasks, (t: Entry) => Busy(t))| <= 3
  {
    hide EntryOk, Sound, TaskIds, ParentMap, ValidIds, InProgress, HasCycle, Distinct, Repeated, Known, Needs, Loops, Filter;
    forall t ensures EntryOk(t) <==> Sound(t) { SoundMeans(t); }
    DistinctMeans(tasks);
    LoopsMean(tasks);
    InProgressMeans(tasks);
    forall id, parent
      ensures id in ParentMap(tasks) && parent in ParentMap(tasks)[id] <==> Needs(tasks, id, parent)
      ensures parent in ValidIds(tasks) <==> Known(tasks, parent)
    {
      ParentMapMeans(tasks, id, parent);
      IdsMean(tasks, parent);
    }
  }
}
