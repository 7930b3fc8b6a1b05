/**
 Draft, upload, publish and clean up over a remote that may lose any answer (scripts/certify_remote_sqlite_backup.py).

 The remote is a class whose calls may fail before or after taking effect, and which other parties change between any
 two calls. Its log records what this run issued and what it was told.
 */
module Publication {
  import opened Common

  const DRAFT_VISIBILITY_ATTEMPTS: nat := 8

  datatype Run = Run(tag: string, marker: string)

  /** An id below one stands for one that is missing or not an integer. */
  datatype Release = Release(id: int, tag: string, draft: bool, body: string)

  datatype Event =
    | AskTag(present: Option<bool>)
    | Create(acknowledged: bool)
    | AskByTag(reply: Option<Release>)
    | AskPage(listing: Option<seq<Release>>)
    | DeleteRelease(id: int, acknowledged: bool)
    | DeleteTag(acknowledged: bool)
    | Upload(acknowledged: bool)
    | Edit(acknowledged: bool)

  datatype Outcome = Failed | Uncertain | Published(id: int)

  const NOTES: string :=
    "Encrypted off-host SQLite disaster-recovery backup. No plaintext database is stored in this release.\n\n"

  function ReleaseNotes(marker: string): string { NOTES + marker }

  /** Runs with different markers never recognise each other's releases. */
  lemma NotesIdentifyTheRun(a: string, b: string)
    ensures ReleaseNotes(a) == ReleaseNotes(b) <==> a == b
  {
    assert (NOTES + a)[|NOTES|..] == a && (NOTES + b)[|NOTES|..] == b;
  }

  predicate Matches(run: Run, r: Release) { r.id >= 1 && r.tag == run.tag && r.draft && r.body == ReleaseNotes(run.marker) }

  function MatchingIds(run: Run, releases: seq<Release>): (ids: seq<int>)
    ensures forall id :: id in ids <==> exists i :: 0 <= i < |releases| && Matches(run, releases[i]) && releases[i].id == id
  {
    if releases == [] then []
    else
      var n := |releases| - 1;
      MatchingIds(run, releases[..n]) + (if Matches(run, releases[n]) then [releases[n].id] else [])
  }

  /** Identity is accepted only when exactly one listed release matches. */
  function OnlyMatch(run: Run, releases: seq<Release>): Option<int> {
    var ids := MatchingIds(run, releases);
    if |ids| == 1 then Some(ids[0]) else None
  }

  // ----- what a run may issue, as traces -----

  predicate Decisive(run: Run, e: Event) { e.AskPage? && (e.listing.None? || MatchingIds(run, e.listing.value) != []) }

  /** Pages are asked for until one decides, at most eight times. */
  predicate PagesTrace(run: Run, trace: seq<Event>, found: Option<int>) {
    && 1 <= |trace| <= DRAFT_VISIBILITY_ATTEMPTS
    && (forall i :: 0 <= i < |trace| ==> trace[i].AskPage?)
    && (forall i :: 0 <= i < |trace| - 1 ==> !Decisive(run, trace[i]))
    && (|trace| < DRAFT_VISIBILITY_ATTEMPTS ==> Decisive(run, trace[|trace| - 1]))
    && found == (var last := trace[|trace| - 1].listing; if last.Some? then OnlyMatch(run, last.value) else None)
  }

  /** The listing is consulted only when the lookup by tag gave no answer. */
  predicate LookupTrace(run: Run, trace: seq<Event>, found: Option<int>) {
    && trace != [] && trace[0].AskByTag?
    && if trace[0].reply.Some? then |trace| == 1 && found == OnlyMatch(run, [trace[0].reply.value])
       else PagesTrace(run, trace[1..], found)
  }

  predicate DeleteTrace(trace: seq<Event>, id: int, deleteTag: bool) {
    && trace != [] && trace[0].DeleteRelease? && trace[0].id == id
    && if trace[0].acknowledged && deleteTag then |trace| == 2 && trace[1].DeleteTag? else |trace| == 1
  }

  ghost predicate CleanupTrace(run: Run, trace: seq<Event>, deleteTag: bool) {
    exists lookup, rest, found ::
      && trace == lookup + rest && LookupTrace(run, lookup, found)
      && if found.Some? then DeleteTrace(rest, found.value, deleteTag) else rest == []
  }

  ghost predicate AfterIdentity(run: Run, trace: seq<Event>, id: int, deleteTag: bool, outcome: Outcome) {
    && trace != [] && trace[0].Upload?
    && if trace[0].acknowledged
       then |trace| == 2 && trace[1].Edit? && outcome == if trace[1].acknowledged then Published(id) else Uncertain
       else CleanupTrace(run, trace[1..], deleteTag) && outcome == Failed
  }

  ghost predicate AfterCreate(run: Run, trace: seq<Event>, deleteTag: bool, outcome: Outcome) {
    exists lookup, rest, found ::
      && trace == lookup + rest && LookupTrace(run, lookup, found)
      && if found.Some? then AfterIdentity(run, rest, found.value, deleteTag, outcome)
         else CleanupTrace(run, rest, deleteTag) && outcome == Failed
  }

  /** Everything one publication may issue, and the outcome it must report for it. */
  ghost predicate PublishTrace(run: Run, trace: seq<Event>, outcome: Outcome) {
    && trace != [] && trace[0].AskTag?
    && if trace[0].present.None? then |trace| == 1 && outcome == Failed
       else
         && |trace| >= 2 && trace[1].Create?
         && if trace[1].acknowledged then AfterCreate(run, trace[2..], !trace[0].present.value, outcome)
            else CleanupTrace(run, trace[2..], !trace[0].present.value) && outcome == Failed
  }

  // ----- the remote -----

  /** An answer may be partial or stale, but it never shows this run's notes on a release the run did not create. */
  predicate Truthful(run: Run, mine: set<int>, releases: seq<Release>) {
    forall i :: 0 <= i < |releases| ==> releases[i].body == ReleaseNotes(run.marker) ==> releases[i].id in mine
  }

  predicate Owns(run: Run, mine: set<int>, releases: map<int, Release>) {
    forall id :: id in releases ==> releases[id].id == id && (releases[id].body == ReleaseNotes(run.marker) ==> id in mine)
  }

  class Remote {
    const run: Run
    var releases: map<int, Release>
    var tags: set<string>
    var mine: set<int>
    ghost var log: seq<Event>

    ghost predicate Valid()
      reads this
    {
      Owns(run, mine, releases)
    }

    constructor (run: Run, releases: map<int, Release>, tags: set<string>)
      requires Owns(run, {}, releases)
      ensures Valid() && this.run == run && this.releases == releases && this.tags == tags && mine == {} && log == []
    {
      this.run, this.releases, this.tags, mine, log := run, releases, tags, {}, [];
    }

    /** Other parties create, change and delete anything, except that none writes this run's notes on a release of its own. */
    method Interfere()
      requires Valid()
      modifies this`releases, this`tags
      ensures Valid()
    {
      var next: map<int, Release> := *;
      if Owns(run, mine, next) {
        releases := next;
      }
      tags := *;
    }

    method TagExists() returns (present: Option<bool>)
      requires Valid()
      modifies this
      ensures Valid() && mine == old(mine) && log == old(log) + [AskTag(present)]
      ensures present.Some? ==> (present.value <==> run.tag in tags)
    {
      Interfere();
      var answered: bool := *;
      present := if answered then Some(run.tag in tags) else None;
      log := log + [AskTag(present)];
    }

    /** The one release this run now owns that it did not own before. */
    ghost predicate CreatedNow(before: set<int>, id: int)
      reads this
    {
      id >= 1 && id !in before && mine == before + {id}
    }

    method CreateDraft() returns (ok: bool)
      requires Valid()
      modifies this
      ensures Valid() && log == old(log) + [Create(ok)]
      ensures mine == old(mine) || exists id :: CreatedNow(old(mine), id)
      ensures ok ==> exists id :: CreatedNow(old(mine), id) && id in releases
                                  && releases[id] == Release(id, run.tag, true, ReleaseNotes(run.marker))
    {
      Interfere();
      ok := *;
      var id: int, happens: bool := *, *;
      if id < 1 || id in releases || id in mine {
        ok := false;
      } else if ok || happens {
        releases := releases[id := Release(id, run.tag, true, ReleaseNotes(run.marker))];
        mine := mine + {id};
      }
      log := log + [Create(ok)];
      assert mine == old(mine) || CreatedNow(old(mine), id);
    }

    method ReleaseByTag() returns (reply: Option<Release>)
      requires Valid()
      modifies this
      ensures Valid() && mine == old(mine) && log == old(log) + [AskByTag(reply)]
      ensures reply.Some? ==> Truthful(run, mine, [reply.value])
    {
      Interfere();
      reply := *;
      if reply.Some? && !Truthful(run, mine, [reply.value]) {
        reply := None;
      }
      log := log + [AskByTag(reply)];
    }

    method ListReleases() returns (listing: Option<seq<Release>>)
      requires Valid()
      modifies this
      ensures Valid() && mine == old(mine) && log == old(log) + [AskPage(listing)]
      ensures listing.Some? ==> Truthful(run, mine, listing.value)
    {
      Interfere();
      listing := *;
      if listing.Some? && !Truthful(run, mine, listing.value) {
        listing := None;
      }
      log := log + [AskPage(listing)];
    }

    method Delete(id: int) returns (ok: bool)
      requires Valid()
      modifies this
      ensures Valid() && mine == old(mine) && log == old(log) + [DeleteRelease(id, ok)]
      ensures ok ==> id !in releases
    {
      Interfere();
      ok := *;
      var happens: bool := *;
      if ok || happens {
        releases := releases - {id};
      }
      log := log + [DeleteRelease(id, ok)];
    }

    method DeleteTagRef() returns (ok: bool)
      requires Valid()
      modifies this
      ensures Valid() && mine == old(mine) && log == old(log) + [DeleteTag(ok)]
      ensures ok ==> run.tag !in tags
    {
      Interfere();
      ok := *;
      var happens: bool := *;
      if ok || happens {
        tags := tags - {run.tag};
      }
      log := log + [DeleteTag(ok)];
    }

    method UploadAssets() returns (ok: bool)
      requires Valid()
      modifies this
      ensures Valid() && mine == old(mine) && log == old(log) + [Upload(ok)]
    {
      Interfere();
      ok := *;
      log := log + [Upload(ok)];
    }

    /** Addressed by tag: the remote picks which release of that tag it publishes. */
    method PublishEdit() returns (ok: bool)
      requires Valid()
      modifies this
      ensures Valid() && mine == old(mine) && log == old(log) + [Edit(ok)]
    {
      Interfere();
      ok := *;
      var id: int, happens: bool := *, *;
      if id in releases && releases[id].tag == run.tag && (ok || happens) {
        releases := releases[id := releases[id].(draft := false)];
      }
      log := log + [Edit(ok)];
    }
  }

  // ----- the run -----

  /** Every answer in a trace is truthful about the run's own releases. */
  predicate TruthfulEvent(run: Run, mine: set<int>, e: Event) {
    match e
    case AskByTag(Some(r)) => Truthful(run, mine, [r])
    case AskPage(Some(releases)) => Truthful(run, mine, releases)
    case _ => true
  }

  predicate TruthfulTrace(run: Run, mine: set<int>, trace: seq<Event>) {
    forall i :: 0 <= i < |trace| ==> TruthfulEvent(run, mine, trace[i])
  }

  method OwnedDraftReleaseId(remote: Remote) returns (found: Option<int>, ghost trace: seq<Event>)
    requires remote.Valid()
    modifies remote
    ensures remote.Valid() && remote.mine == old(remote.mine) && remote.log == old(remote.log) + trace
    ensures LookupTrace(remote.run, trace, found) && TruthfulTrace(remote.run, remote.mine, trace)
  {
    hide Matches, MatchingIds, Owns, Truthful;
    var run := remote.run;
    var reply := remote.ReleaseByTag();
    trace := [AskByTag(reply)];
    if reply.Some? {
      return OnlyMatch(run, [reply.value]), trace;
    }
    ghost var pages: seq<Event> := [];
    var attempt := 0;
    while attempt < DRAFT_VISIBILITY_ATTEMPTS
      invariant attempt == |pages| <= DRAFT_VISIBILITY_ATTEMPTS
      invariant trace == [AskByTag(None)] + pages && remote.log == old(remote.log) + trace
      invariant remote.Valid() && remote.mine == old(remote.mine) && TruthfulTrace(run, remote.mine, trace)
      invariant forall i :: 0 <= i < |pages| ==> pages[i].AskPage? && !Decisive(run, pages[i])
    {
      var listing := remote.ListReleases();
      pages := pages + [AskPage(listing)];
      trace := trace + [AskPage(listing)];
      assert trace[1..] == pages;
      attempt := attempt + 1;
      if listing.None? {
        return None, trace;
      }
      var ids := MatchingIds(run, listing.value);
      if |ids| == 1 {
        return Some(ids[0]), trace;
      }
      if |ids| > 1 {
        return None, trace;
      }
    }
    assert trace[1..] == pages;
    return None, trace;
  }

  method DeleteOwnedDraftReleaseBestEffort(remote: Remote, deleteTag: bool) returns (ghost trace: seq<Event>)
    requires remote.Valid()
    modifies remote
    ensures remote.Valid() && remote.mine == old(remote.mine) && remote.log == old(remote.log) + trace
    ensures CleanupTrace(remote.run, trace, deleteTag) && TruthfulTrace(remote.run, remote.mine, trace)
  {
    hide LookupTrace, Owns, Truthful;
    var id, lookup := OwnedDraftReleaseId(remote);
    if id.None? {
      assert lookup == lookup + [];
      return lookup;
    }
    ghost var rest: seq<Event>;
    var ok := remote.Delete(id.value);
    rest := [DeleteRelease(id.value, ok)];
    if ok && deleteTag {
      var gone := remote.DeleteTagRef();
      rest := rest + [DeleteTag(gone)];
    }
    trace := lookup + rest;
    assert DeleteTrace(rest, id.value, deleteTag);
  }

  lemma NotLocated(run: Run, lookup: seq<Event>, cleanup: seq<Event>, deleteTag: bool)
    requires LookupTrace(run, lookup, None) && CleanupTrace(run, cleanup, deleteTag)
    ensures AfterCreate(run, lookup + cleanup, deleteTag, Failed)
  {
    hide LookupTrace, CleanupTrace;
  }

  lemma Located(run: Run, lookup: seq<Event>, id: int, rest: seq<Event>, deleteTag: bool, outcome: Outcome)
    requires LookupTrace(run, lookup, Some(id)) && AfterIdentity(run, rest, id, deleteTag, outcome)
    ensures AfterCreate(run, lookup + rest, deleteTag, outcome)
  {
    hide LookupTrace, AfterIdentity;
  }

  lemma NotUploaded(run: Run, cleanup: seq<Event>, id: int, deleteTag: bool)
    requires CleanupTrace(run, cleanup, deleteTag)
    ensures AfterIdentity(run, [Upload(false)] + cleanup, id, deleteTag, Failed)
  {
    hide CleanupTrace;
    assert ([Upload(false)] + cleanup)[1..] == cleanup;
  }

  lemma FromTheStart(run: Run, present: bool, created: bool, rest: seq<Event>, outcome: Outcome)
    requires created ==> AfterCreate(run, rest, !present, outcome)
    requires !created ==> CleanupTrace(run, rest, !present) && outcome == Failed
    ensures PublishTrace(run, [AskTag(Some(present)), Create(created)] + rest, outcome)
  {
    hide CleanupTrace, AfterCreate;
    assert ([AskTag(Some(present)), Create(created)] + rest)[2..] == rest;
  }

  lemma TruthfulJoin(run: Run, mine: set<int>, a: seq<Event>, b: seq<Event>)
    requires TruthfulTrace(run, mine, a) && TruthfulTrace(run, mine, b)
    ensures TruthfulTrace(run, mine, a + b)
  {
    hide TruthfulEvent;
  }

  /** The part after the draft's identity is known. */
  method UploadAndEdit(remote: Remote, id: int, deleteTag: bool) returns (outcome: Outcome, ghost trace: seq<Event>)
    requires remote.Valid()
    modifies remote
    ensures remote.Valid() && remote.mine == old(remote.mine) && remote.log == old(remote.log) + trace
    ensures AfterIdentity(remote.run, trace, id, deleteTag, outcome) && TruthfulTrace(remote.run, remote.mine, trace)
  {
    hide Owns, CleanupTrace;
    var uploaded := remote.UploadAssets();
    if !uploaded {
      ghost var cleanup := DeleteOwnedDraftReleaseBestEffort(remote, deleteTag);
      trace := [Upload(false)] + cleanup;
      NotUploaded(remote.run, cleanup, id, deleteTag);
      TruthfulJoin(remote.run, remote.mine, [Upload(false)], cleanup);
      return Failed, trace;
    }
    var edited := remote.PublishEdit();
    return if edited then Published(id) else Uncertain, [Upload(true), Edit(edited)];
  }

  /** The part after the remote acknowledged the draft. */
  method IdentifyAndPublish(remote: Remote, deleteTag: bool) returns (outcome: Outcome, ghost trace: seq<Event>)
    requires remote.Valid()
    modifies remote
    ensures remote.Valid() && remote.mine == old(remote.mine) && remote.log == old(remote.log) + trace
    ensures AfterCreate(remote.run, trace, deleteTag, outcome) && TruthfulTrace(remote.run, remote.mine, trace)
  {
    hide LookupTrace, CleanupTrace, AfterIdentity, AfterCreate, Owns, TruthfulTrace;
    var id, lookup := OwnedDraftReleaseId(remote);
    ghost var rest: seq<Event>;
    if id.None? {
      rest := DeleteOwnedDraftReleaseBestEffort(remote, deleteTag);
      outcome := Failed;
      NotLocated(remote.run, lookup, rest, deleteTag);
    } else {
      outcome, rest := UploadAndEdit(remote, id.value, deleteTag);
      Located(remote.run, lookup, id.value, rest, deleteTag, outcome);
    }
    trace := lookup + rest;
    TruthfulJoin(remote.run, remote.mine, lookup, rest);
  }

  method PublishReleaseAssets(remote: Remote) returns (outcome: Outcome, ghost trace: seq<Event>)
    requires remote.Valid()
    modifies remote
    ensures remote.Valid() && old(remote.mine) <= remote.mine && remote.log == old(remote.log) + trace
    ensures PublishTrace(remote.run, trace, outcome) && TruthfulTrace(remote.run, remote.mine, trace)
  {
    hide CleanupTrace, AfterCreate, Owns;
    ghost var run := remote.run;
    var preexisting := remote.TagExists();
    if preexisting.None? {
      return Failed, [AskTag(preexisting)];
    }
    var created := remote.CreateDraft();
    ghost var start := [AskTag(preexisting), Create(created)];
    assert TruthfulTrace(run, remote.mine, start);
    hide PublishTrace, TruthfulTrace;
    ghost var rest: seq<Event>;
    if created {
      outcome, rest := IdentifyAndPublish(remote, !preexisting.value);
    } else {
      rest := DeleteOwnedDraftReleaseBestEffort(remote, !preexisting.value);
      outcome := Failed;
    }
    trace := start + rest;
    TruthfulJoin(run, remote.mine, start, rest);
    FromTheStart(run, preexisting.value, created, rest, outcome);
  }
}
