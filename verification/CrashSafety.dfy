/**
 Crash safety of the mission store over whole runs (scripts/wfh_mission.py).

 A run interleaves checkpoint writes, journal writes, outside edits and crashes. The mission lock admits one writer at
 a time; outside edits respect no lock. What a checkpoint captures is left arbitrary, because edits may fall between
 the reads that build it; only its number is fixed by the directory.
 */
module CrashSafety {
  import opened Common
  import opened MissionState
  import opened MissionStore

  /** The writer holding the lock, with how many of the three writes it has made. */
  datatype Writer = Idle | Writing(doc: Checkpoint, written: nat)

  datatype World = World(store: Store, writer: Writer)

  datatype Action =
    | Begin(doc: Checkpoint)
    | Write
    | Journal(text: string)
    | Edit(durable: map<string, string>)
    | Crash

  ghost predicate Enabled(w: World, a: Action) {
    match a
    case Begin(doc) => w.writer.Idle? && doc.id == Highest(w.store.checkpoints.Keys) + 1
    case Write => w.writer.Writing?
    case Journal(_) => w.writer.Idle?
    case Edit(_) => true
    case Crash => true
  }

  ghost function Apply(w: World, a: Action): World
    requires Enabled(w, a)
  {
    match a
    case Begin(doc) => World(w.store, Writing(doc, 0))
    case Write =>
      var written := w.writer.written + 1;
      World(WriteFile(w.store, w.writer.doc, w.writer.written), if written < 3 then Writing(w.writer.doc, written) else Idle)
    case Journal(text) => World(w.store.(durable := w.store.durable[JOURNAL_FILE := text]), w.writer)
    case Edit(durable) => World(w.store.(durable := durable), w.writer)
    case Crash => World(w.store, Idle)
  }

  ghost predicate IsRun(w: World, actions: seq<Action>)
    decreases |actions|
  {
    actions == [] || (Enabled(w, actions[0]) && IsRun(Apply(w, actions[0]), actions[1..]))
  }

  ghost function Final(w: World, actions: seq<Action>): World
    requires IsRun(w, actions)
    decreases |actions|
  {
    if actions == [] then w else Final(Apply(w, actions[0]), actions[1..])
  }

  /** No checkpoint is begun once the six-digit numbers are used up. */
  ghost predicate WithinIds(w: World, actions: seq<Action>)
    requires IsRun(w, actions)
    decreases |actions|
  {
    actions == [] ||
    ((actions[0].Begin? ==> Highest(w.store.checkpoints.Keys) < MAX_ID) && WithinIds(Apply(w, actions[0]), actions[1..]))
  }

  // ----- the invariant -----

  ghost predicate PointerNamesCheckpoint(store: Store) {
    match store.pointer
    case None => true
    case Some(Garbage) => false
    case Some(Pointer(missionId, id, target, sha)) =>
      && id == target && target in store.checkpoints && sha == Sha256(store.checkpoints[target])
      && store.checkpoints[target].Doc?
      && store.checkpoints[target].checkpoint.id == id && store.checkpoints[target].checkpoint.missionId == missionId
  }

  ghost predicate WriterConsistent(w: World) {
    match w.writer
    case Idle => true
    case Writing(doc, written) =>
      && written < 3 && doc.id <= MAX_ID
      && (written == 0 ==> doc.id == Highest(w.store.checkpoints.Keys) + 1)
      && (written > 0 ==> doc.id in w.store.checkpoints && w.store.checkpoints[doc.id] == Doc(doc)
                          && doc.id == Highest(w.store.checkpoints.Keys))
      && (written == 2 ==> w.store.pointer == Some(PointerTo(doc)))
  }

  /** LATEST_CHECKPOINT.json only refers to a fully written checkpoint, with the matching hash. */
  ghost predicate Safe(w: World) {
    && PointerNamesCheckpoint(w.store)
    && WriterConsistent(w)
    && forall n :: n in w.store.checkpoints ==> n <= MAX_ID
  }

  lemma FreshNumber(ids: set<nat>, n: nat)
    requires n == Highest(ids) + 1 && n <= MAX_ID
    ensures n !in ids && forall m :: m in ids && m <= MAX_ID ==> m < n
    ensures Highest(ids + {n}) == n
  {
    assert IsHighest(ids + {n}, n);
  }

  /** A step within the id range keeps the store safe, never touches an existing checkpoint, and numbers new ones upwards. */
  lemma StepIsSafe(w: World, a: Action)
    requires Safe(w) && Enabled(w, a)
    requires a.Begin? ==> Highest(w.store.checkpoints.Keys) < MAX_ID
    ensures Safe(Apply(w, a))
    ensures forall n :: n in w.store.checkpoints ==>
              n in Apply(w, a).store.checkpoints && Apply(w, a).store.checkpoints[n] == w.store.checkpoints[n]
    ensures forall n, m :: n in Apply(w, a).store.checkpoints && n !in w.store.checkpoints && m in w.store.checkpoints ==> m < n
  {
    if a.Write? && w.writer.written == 0 {
      FreshNumber(w.store.checkpoints.Keys, w.writer.doc.id);
      assert Apply(w, a).store.checkpoints.Keys == w.store.checkpoints.Keys + {w.writer.doc.id};
    }
  }

  /**
   Over any run within the id range, whatever crashes and edits it contains, the store stays safe, every existing
   checkpoint keeps its content, and every new checkpoint has a higher number than all older ones.
   */
  lemma {:induction false} RunsAreSafe(w: World, actions: seq<Action>)
    requires Safe(w) && IsRun(w, actions) && WithinIds(w, actions)
    ensures Safe(Final(w, actions))
    ensures forall n :: n in w.store.checkpoints ==>
              n in Final(w, actions).store.checkpoints && Final(w, actions).store.checkpoints[n] == w.store.checkpoints[n]
    ensures forall n, m :: n in Final(w, actions).store.checkpoints && n !in w.store.checkpoints && m in w.store.checkpoints ==> m < n
    decreases |actions|
  {
    if actions != [] {
      StepIsSafe(w, actions[0]);
      hide Safe, Enabled, Apply;
      RunsAreSafe(Apply(w, actions[0]), actions[1..]);
    }
  }

  /** Outside the id range the guarantee ends exactly here: a write replaces an existing file once CP-1000000 exists. */
  lemma OverwriteOnlyPastLastId(w: World, doc: Checkpoint)
    requires w.writer == Writing(doc, 0) && doc.id == Highest(w.store.checkpoints.Keys) + 1
    ensures doc.id in w.store.checkpoints <==> Highest(w.store.checkpoints.Keys) == MAX_ID && MAX_ID + 1 in w.store.checkpoints
  {
    if Highest(w.store.checkpoints.Keys) < MAX_ID {
      FreshNumber(w.store.checkpoints.Keys, doc.id);
    }
  }

  predicate Holds(store: Store, id: nat, doc: Checkpoint) { id in store.checkpoints && store.checkpoints[id] == Doc(doc) }

  /** Past the last id every further checkpoint takes the same number, so the second one overwrites the first. */
  lemma SecondPastLastIdOverwrites(w: World, first: Checkpoint, second: Checkpoint)
    requires w.writer.Idle? && Highest(w.store.checkpoints.Keys) == MAX_ID
    requires first.id == MAX_ID + 1 && second.id == MAX_ID + 1 && first != second
    ensures var run := [Begin(first), Write, Write, Write, Begin(second), Write];
            && IsRun(w, run[..4]) && Holds(Final(w, run[..4]).store, MAX_ID + 1, first)
            && IsRun(Final(w, run[..4]), run[4..])
            && Holds(Final(Final(w, run[..4]), run[4..]).store, MAX_ID + 1, second)
  {
    var run := [Begin(first), Write, Write, Write, Begin(second), Write];
    var w1 := Apply(w, Begin(first));
    var w2 := Apply(w1, Write);
    var w3 := Apply(w2, Write);
    var w4 := Apply(w3, Write);
    assert w2.store.checkpoints.Keys == w.store.checkpoints.Keys + {MAX_ID + 1};
    assert IsHighest(w2.store.checkpoints.Keys, MAX_ID);
    HighestUnique(w2.store.checkpoints.Keys, MAX_ID);
    RunOfOne(w3, Write);
    RunOfMore(w2, Write, [Write]);
    RunOfMore(w1, Write, [Write, Write]);
    RunOfMore(w, Begin(first), [Write, Write, Write]);
    assert run[..4] == [Begin(first)] + [Write, Write, Write];
    assert [Write] + [Write, Write] == [Write, Write, Write] && [Write] + [Write] == [Write, Write];
    var w5 := Apply(w4, Begin(second));
    RunOfOne(w5, Write);
    RunOfMore(w4, Begin(second), [Write]);
    assert run[4..] == [Begin(second)] + [Write];
  }

  lemma HighestUnique(ids: set<nat>, n: nat)
    requires IsHighest(ids, n)
    ensures Highest(ids) == n
  {
  }

  lemma RunOfMore(w: World, a: Action, rest: seq<Action>)
    requires Enabled(w, a) && IsRun(Apply(w, a), rest)
    ensures IsRun(w, [a] + rest) && Final(w, [a] + rest) == Final(Apply(w, a), rest)
  {
    assert ([a] + rest)[1..] == rest;
  }

  lemma RunOfOne(w: World, a: Action)
    requires Enabled(w, a)
    ensures IsRun(w, [a]) && Final(w, [a]) == Apply(w, a)
  {
    assert [a][1..] == [];
  }

  // ----- a crash before the pointer write blocks resume -----

  /** LATEST_CHECKPOINT.json does not refer to the newest checkpoint file. */
  ghost predicate PointerBehind(store: Store) {
    Highest(store.checkpoints.Keys) > 0 &&
    (store.pointer.None? || store.pointer.value.Garbage? || store.pointer.value.id < Highest(store.checkpoints.Keys))
  }

  lemma BehindIsBlocked(store: Store)
    requires PointerBehind(store)
    ensures Load(store).LoadBlocked?
  {
  }

  ghost predicate WritesPointer(w: World, a: Action) { a.Write? && w.writer.Writing? && w.writer.written == 1 }

  ghost predicate NeverWritesPointer(w: World, actions: seq<Action>)
    requires IsRun(w, actions)
    decreases |actions|
  {
    actions == [] || (!WritesPointer(w, actions[0]) && NeverWritesPointer(Apply(w, actions[0]), actions[1..]))
  }

  lemma StaysBehind(w: World, a: Action)
    requires PointerBehind(w.store) && Enabled(w, a) && !WritesPointer(w, a)
    requires w.writer.Writing? ==> w.writer.written < 3
    ensures PointerBehind(Apply(w, a).store)
    ensures Apply(w, a).writer.Writing? ==> Apply(w, a).writer.written < 3
  {
    if a.Write? && w.writer.written == 0 {
      var ids, n := w.store.checkpoints.Keys, w.writer.doc.id;
      assert Apply(w, a).store.checkpoints.Keys == ids + {n};
      assert Highest(ids) in ids + {n};
    }
  }

  /** The first write of a checkpoint, whatever follows it, leaves the pointer behind. */
  lemma FirstWriteLeavesPointerBehind(w: World)
    requires Safe(w) && w.writer.Writing? && w.writer.written == 0
    ensures PointerBehind(Apply(w, Write).store)
  {
    FreshNumber(w.store.checkpoints.Keys, w.writer.doc.id);
    assert Apply(w, Write).store.checkpoints.Keys == w.store.checkpoints.Keys + {w.writer.doc.id};
  }

  lemma {:induction false} BehindUntilPointer(w: World, actions: seq<Action>)
    requires PointerBehind(w.store) && IsRun(w, actions) && NeverWritesPointer(w, actions)
    requires w.writer.Writing? ==> w.writer.written < 3
    ensures PointerBehind(Final(w, actions).store)
    decreases |actions|
  {
    if actions != [] {
      StaysBehind(w, actions[0]);
      hide PointerBehind, Enabled, Apply, WritesPointer;
      BehindUntilPointer(Apply(w, actions[0]), actions[1..]);
    }
  }

  /** A crash between the checkpoint write and the pointer write blocks every load until some pointer write happens. */
  lemma CrashBeforePointerBlocksResume(w: World, actions: seq<Action>)
    requires Safe(w) && w.writer.Writing? && w.writer.written == 0
    requires IsRun(Apply(Apply(w, Write), Crash), actions) && NeverWritesPointer(Apply(Apply(w, Write), Crash), actions)
    ensures Load(Final(Apply(Apply(w, Write), Crash), actions).store).LoadBlocked?
  {
    var crashed := Apply(Apply(w, Write), Crash);
    FirstWriteLeavesPointerBehind(w);
    BehindUntilPointer(crashed, actions);
    BehindIsBlocked(Final(crashed, actions).store);
  }

  /** A pointer write of a safe writer makes the newest checkpoint loadable again. */
  lemma PointerWriteUnblocks(w: World)
    requires Safe(w) && w.writer.Writing? && w.writer.written == 1
    ensures Load(Apply(w, Write).store) == LoadReady(PointerTo(w.writer.doc), w.writer.doc)
  {
  }

  /** create_checkpoint that survives n writes is exactly this run: begin, n writes, and a crash unless it finished. */
  lemma CreateIsARun(store: Store, doc: Checkpoint, n: nat)
    requires doc.id == Highest(store.checkpoints.Keys) + 1 && n <= 3
    ensures var w := Apply(World(store, Idle), Begin(doc));
            && IsRun(w, seq(n, _ => Write))
            && Final(w, seq(n, _ => Write)) == World(AfterWrites(store, doc, n), if n < 3 then Writing(doc, n) else Idle)
  {
    var w := Apply(World(store, Idle), Begin(doc));
    WritesFrom(store, doc, 0, n);
  }

  lemma {:induction false} WritesFrom(store: Store, doc: Checkpoint, k: nat, n: nat)
    requires k <= n <= 3
    ensures var w := World(AfterWrites(store, doc, k), if k < 3 then Writing(doc, k) else Idle);
            && IsRun(w, seq(n - k, _ => Write))
            && Final(w, seq(n - k, _ => Write)) == World(AfterWrites(store, doc, n), if n < 3 then Writing(doc, n) else Idle)
    decreases n - k
  {
    var w := World(AfterWrites(store, doc, k), if k < 3 then Writing(doc, k) else Idle);
    if k < n {
      WritesFrom(store, doc, k + 1, n);
      var rest := seq(n - (k + 1), _ => Write);
      assert Apply(w, Write) == World(AfterWrites(store, doc, k + 1), if k + 1 < 3 then Writing(doc, k + 1) else Idle);
      RunOfMore(w, Write, rest);
      assert seq(n - k, _ => Write) == [Write] + rest;
    }
  }
}
