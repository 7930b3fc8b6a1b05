/**
 What every publication keeps, whatever the remote answers, loses or lets others change
 (scripts/certify_remote_sqlite_backup.py).
 */
module PublicationSafety {
  import opened Common
  import opened Publication

  // ----- properties of a trace -----

  /** Releases are deleted only if this run created them. */
  predicate DeletesOwn(mine: set<int>, trace: seq<Event>) {
    forall i :: 0 <= i < |trace| && trace[i].DeleteRelease? ==> trace[i].id in mine
  }

  predicate NoEdit(trace: seq<Event>) { forall i :: 0 <= i < |trace| ==> !trace[i].Edit? }

  predicate NoDelete(trace: seq<Event>) { forall i :: 0 <= i < |trace| ==> !trace[i].DeleteRelease? && !trace[i].DeleteTag? }

  /** The tag is deleted only straight after an acknowledged deletion of an own release. */
  predicate TagDeletesEarned(mine: set<int>, trace: seq<Event>) {
    forall i :: 0 <= i < |trace| && trace[i].DeleteTag? ==>
      i > 0 && trace[i - 1].DeleteRelease? && trace[i - 1].acknowledged && trace[i - 1].id in mine
  }

  predicate NoTagDelete(trace: seq<Event>) { forall i :: 0 <= i < |trace| ==> !trace[i].DeleteTag? }

  /** What a cleanup may do. */
  predicate CleansOwn(mine: set<int>, trace: seq<Event>, deleteTag: bool) {
    && DeletesOwn(mine, trace) && NoEdit(trace) && TagDeletesEarned(mine, trace) && (!deleteTag ==> NoTagDelete(trace))
  }

  predicate ReadsOnly(trace: seq<Event>) { NoEdit(trace) && NoDelete(trace) }

  lemma ReadsThen(mine: set<int>, asked: seq<Event>, rest: seq<Event>, deleteTag: bool)
    requires ReadsOnly(asked) && CleansOwn(mine, rest, deleteTag)
    ensures CleansOwn(mine, asked + rest, deleteTag)
  {
    var trace := asked + rest;
    assert forall i :: |asked| <= i < |trace| ==> trace[i] == rest[i - |asked|];
  }

  lemma TruthfulParts(run: Run, mine: set<int>, a: seq<Event>, b: seq<Event>)
    requires TruthfulTrace(run, mine, a + b)
    ensures TruthfulTrace(run, mine, a) && TruthfulTrace(run, mine, b)
  {
    hide TruthfulEvent;
    assert forall i :: 0 <= i < |a| ==> (a + b)[i] == a[i];
    assert forall i :: 0 <= i < |b| ==> (a + b)[|a| + i] == b[i];
  }

  // ----- from answers to identity -----

  lemma OnlyMatchIsOwned(run: Run, mine: set<int>, releases: seq<Release>)
    requires Truthful(run, mine, releases) && OnlyMatch(run, releases).Some?
    ensures OnlyMatch(run, releases).value in mine
  {
    var id := OnlyMatch(run, releases).value;
    assert id in MatchingIds(run, releases);
    var i :| 0 <= i < |releases| && Matches(run, releases[i]) && releases[i].id == id;
  }

  /** A lookup only reads, and what it finds is a release this run created. */
  lemma LookupFindsOwn(run: Run, mine: set<int>, trace: seq<Event>, found: Option<int>)
    requires LookupTrace(run, trace, found) && TruthfulTrace(run, mine, trace)
    ensures ReadsOnly(trace) && (found.Some? ==> found.value in mine)
  {
    hide OnlyMatch, Decisive, Truthful;
    if trace[0].reply.Some? {
      assert TruthfulEvent(run, mine, trace[0]);
      if found.Some? {
        OnlyMatchIsOwned(run, mine, [trace[0].reply.value]);
      }
    } else {
      var last := |trace| - 1;
      assert trace[last] == trace[1..][last - 1] && TruthfulEvent(run, mine, trace[last]);
      assert forall i :: 1 <= i < |trace| ==> trace[i] == trace[1..][i - 1];
      if found.Some? {
        OnlyMatchIsOwned(run, mine, trace[last].listing.value);
      }
    }
  }

  lemma CleanupCleansOwn(run: Run, mine: set<int>, trace: seq<Event>, deleteTag: bool)
    requires CleanupTrace(run, trace, deleteTag) && TruthfulTrace(run, mine, trace)
    ensures CleansOwn(mine, trace, deleteTag)
  {
    hide LookupTrace, TruthfulTrace;
    var lookup, rest, found :|
      trace == lookup + rest && LookupTrace(run, lookup, found)
      && if found.Some? then DeleteTrace(rest, found.value, deleteTag) else rest == [];
    TruthfulParts(run, mine, lookup, rest);
    LookupFindsOwn(run, mine, lookup, found);
    assert CleansOwn(mine, rest, deleteTag);
    hide ReadsOnly, CleansOwn;
    ReadsThen(mine, lookup, rest, deleteTag);
  }

  // ----- the whole publication -----

  /** Either the run ends with its one publish edit and never deletes anything, or it never edits and cleans up its own. */
  ghost predicate Legal(mine: set<int>, trace: seq<Event>, deleteTag: bool, outcome: Outcome) {
    if outcome == Failed then CleansOwn(mine, trace, deleteTag)
    else
      && trace != [] && ReadsOnly(trace[..|trace| - 1])
      && trace[|trace| - 1] == Edit(outcome.Published?) && (outcome.Published? ==> outcome.id in mine)
  }

  lemma LegalAfterReads(mine: set<int>, asked: seq<Event>, rest: seq<Event>, deleteTag: bool, outcome: Outcome)
    requires ReadsOnly(asked) && Legal(mine, rest, deleteTag, outcome)
    ensures Legal(mine, asked + rest, deleteTag, outcome)
  {
    hide CleansOwn;
    if outcome == Failed {
      ReadsThen(mine, asked, rest, deleteTag);
    } else {
      var init := rest[..|rest| - 1];
      assert (asked + rest)[..|asked + rest| - 1] == asked + init;
    }
  }

  lemma AfterIdentityIsLegal(run: Run, mine: set<int>, trace: seq<Event>, id: int, deleteTag: bool, outcome: Outcome)
    requires AfterIdentity(run, trace, id, deleteTag, outcome) && TruthfulTrace(run, mine, trace) && id in mine
    ensures Legal(mine, trace, deleteTag, outcome)
  {
    hide CleanupTrace, CleansOwn, TruthfulTrace;
    if !trace[0].acknowledged {
      assert trace == [Upload(false)] + trace[1..];
      TruthfulParts(run, mine, [Upload(false)], trace[1..]);
      CleanupCleansOwn(run, mine, trace[1..], deleteTag);
      ReadsThen(mine, [Upload(false)], trace[1..], deleteTag);
    }
  }

  lemma AfterCreateIsLegal(run: Run, mine: set<int>, trace: seq<Event>, deleteTag: bool, outcome: Outcome)
    requires AfterCreate(run, trace, deleteTag, outcome) && TruthfulTrace(run, mine, trace)
    ensures Legal(mine, trace, deleteTag, outcome)
  {
    hide LookupTrace, CleanupTrace, AfterIdentity, CleansOwn, TruthfulTrace, ReadsOnly, Legal;
    var lookup, rest, found :|
      trace == lookup + rest && LookupTrace(run, lookup, found)
      && if found.Some? then AfterIdentity(run, rest, found.value, deleteTag, outcome)
         else CleanupTrace(run, rest, deleteTag) && outcome == Failed;
    TruthfulParts(run, mine, lookup, rest);
    LookupFindsOwn(run, mine, lookup, found);
    if found.Some? {
      AfterIdentityIsLegal(run, mine, rest, found.value, deleteTag, outcome);
    } else {
      CleanupCleansOwn(run, mine, rest, deleteTag);
      FailedIsLegal(mine, rest, deleteTag);
    }
    LegalAfterReads(mine, lookup, rest, deleteTag, outcome);
  }

  lemma FailedIsLegal(mine: set<int>, trace: seq<Event>, deleteTag: bool)
    requires CleansOwn(mine, trace, deleteTag)
    ensures Legal(mine, trace, deleteTag, Failed)
  {
  }

  lemma PublicationIsLegal(run: Run, mine: set<int>, trace: seq<Event>, outcome: Outcome)
    requires PublishTrace(run, trace, outcome) && TruthfulTrace(run, mine, trace)
    ensures Legal(mine, trace, trace[0] == AskTag(Some(false)), outcome)
  {
    hide CleanupTrace, AfterCreate, TruthfulTrace;
    if trace[0].present.Some? {
      var start, rest := trace[..2], trace[2..];
      assert trace == start + rest;
      TruthfulParts(run, mine, start, rest);
      hide CleansOwn;
      if trace[1].acknowledged {
        AfterCreateIsLegal(run, mine, rest, !trace[0].present.value, outcome);
      } else {
        CleanupCleansOwn(run, mine, rest, !trace[0].present.value);
      }
      LegalAfterReads(mine, start, rest, !trace[0].present.value, outcome);
    }
  }

  lemma EditEndsTheTrace(mine: set<int>, trace: seq<Event>, deleteTag: bool, outcome: Outcome)
    requires Legal(mine, trace, deleteTag, outcome) && outcome != Failed
    ensures forall i :: 0 <= i < |trace| - 1 ==> !trace[i].Edit?
    ensures NoDelete(trace)
  {
    assert forall i :: 0 <= i < |trace| - 1 ==> trace[i] == trace[..|trace| - 1][i];
  }

  lemma FailedCleansOwn(mine: set<int>, trace: seq<Event>, deleteTag: bool)
    requires Legal(mine, trace, deleteTag, Failed)
    ensures CleansOwn(mine, trace, deleteTag)
  {
  }

  /** No run deletes a release it did not create. */
  lemma DeletesOnlyOwnReleases(run: Run, mine: set<int>, trace: seq<Event>, outcome: Outcome)
    requires PublishTrace(run, trace, outcome) && TruthfulTrace(run, mine, trace)
    ensures DeletesOwn(mine, trace)
  {
    hide PublishTrace, TruthfulTrace;
    PublicationIsLegal(run, mine, trace, outcome);
  }

  /** Once the publish edit is issued nothing further is issued, and a run that issues it has deleted nothing. */
  lemma NothingAfterPublishEdit(run: Run, mine: set<int>, trace: seq<Event>, outcome: Outcome, k: nat)
    requires PublishTrace(run, trace, outcome) && TruthfulTrace(run, mine, trace)
    requires k < |trace| && trace[k].Edit?
    ensures k == |trace| - 1 && NoDelete(trace)
  {
    hide PublishTrace, TruthfulTrace, Legal;
    var deleteTag := trace[0] == AskTag(Some(false));
    PublicationIsLegal(run, mine, trace, outcome);
    if outcome == Failed {
      FailedCleansOwn(mine, trace, deleteTag);
    } else {
      EditEndsTheTrace(mine, trace, deleteTag, outcome);
    }
  }

  /** The tag is deleted only if it was reported absent at the start and the own draft's deletion was acknowledged. */
  lemma TagDeletedOnlyIfEarned(run: Run, mine: set<int>, trace: seq<Event>, outcome: Outcome, k: nat)
    requires PublishTrace(run, trace, outcome) && TruthfulTrace(run, mine, trace)
    requires k < |trace| && trace[k].DeleteTag?
    ensures trace[0] == AskTag(Some(false))
    ensures k > 0 && trace[k - 1].DeleteRelease? && trace[k - 1].acknowledged && trace[k - 1].id in mine
  {
    hide PublishTrace, TruthfulTrace, Legal;
    var deleteTag := trace[0] == AskTag(Some(false));
    PublicationIsLegal(run, mine, trace, outcome);
    if outcome == Failed {
      FailedCleansOwn(mine, trace, deleteTag);
    } else {
      EditEndsTheTrace(mine, trace, deleteTag, outcome);
    }
  }

  /** The outcome says whether the publish edit was issued and whether it was acknowledged. */
  lemma OutcomeTellsWhetherEdited(run: Run, mine: set<int>, trace: seq<Event>, outcome: Outcome)
    requires PublishTrace(run, trace, outcome) && TruthfulTrace(run, mine, trace)
    ensures outcome == Failed <==> NoEdit(trace)
    ensures outcome == Uncertain <==> Edit(false) in trace
    ensures outcome.Published? <==> Edit(true) in trace
    ensures outcome.Published? ==> outcome.id in mine
  {
    hide PublishTrace, TruthfulTrace;
    PublicationIsLegal(run, mine, trace, outcome);
    assert forall i :: 0 <= i < |trace| - 1 ==> trace[i] == trace[..|trace| - 1][i];
  }

  /** The three guarantees about everything this run issued. */
  predicate SafeLog(mine: set<int>, log: seq<Event>) {
    && DeletesOwn(mine, log)
    && (forall k :: 0 <= k < |log| && log[k].Edit? ==> k == |log| - 1)
    && (!NoEdit(log) ==> NoDelete(log))
    && TagDeletesEarned(mine, log) && (!NoTagDelete(log) ==> log[0] == AskTag(Some(false)))
  }

  lemma LogIsSafe(run: Run, mine: set<int>, trace: seq<Event>, outcome: Outcome)
    requires PublishTrace(run, trace, outcome) && TruthfulTrace(run, mine, trace)
    ensures SafeLog(mine, trace)
  {
    hide PublishTrace, TruthfulTrace;
    PublicationIsLegal(run, mine, trace, outcome);
    forall k | 0 <= k < |trace| && trace[k].Edit?
      ensures k == |trace| - 1 && NoDelete(trace)
    {
      NothingAfterPublishEdit(run, mine, trace, outcome, k);
    }
    forall k | 0 <= k < |trace| && trace[k].DeleteTag?
      ensures trace[0] == AskTag(Some(false))
      ensures k > 0 && trace[k - 1].DeleteRelease? && trace[k - 1].acknowledged && trace[k - 1].id in mine
    {
      TagDeletedOnlyIfEarned(run, mine, trace, outcome, k);
    }
    DeletesOnlyOwnReleases(run, mine, trace, outcome);
  }

  lemma NothingIssuedIsSafe(mine: set<int>)
    ensures SafeLog(mine, []) && NoEdit([])
  {
  }

  // ----- runs that meet these conditions -----

  function OwnDraft(run: Run, id: int): Release { Release(id, run.tag, true, ReleaseNotes(run.marker)) }

  lemma OwnDraftIsFound(run: Run, id: int)
    requires id >= 1
    ensures LookupTrace(run, [AskByTag(None), AskPage(Some([OwnDraft(run, id)]))], Some(id))
  {
    var releases := [OwnDraft(run, id)];
    assert releases[..0] == [];
    assert MatchingIds(run, releases) == [id];
    assert [AskByTag(None), AskPage(Some(releases))][1..] == [AskPage(Some(releases))];
  }

  /** When every call is acknowledged and the draft is listed, the run publishes it. */
  lemma UndisturbedRunPublishes(run: Run, present: bool, id: int)
    requires id >= 1
    ensures PublishTrace(
              run, [AskTag(Some(present)), Create(true)] + ([AskByTag(None), AskPage(Some([OwnDraft(run, id)]))] + [Upload(true), Edit(true)]),
              Published(id))
  {
    hide LookupTrace, PublishTrace, AfterCreate;
    var lookup := [AskByTag(None), AskPage(Some([OwnDraft(run, id)]))];
    OwnDraftIsFound(run, id);
    Located(run, lookup, id, [Upload(true), Edit(true)], !present, Published(id));
    FromTheStart(run, present, true, lookup + [Upload(true), Edit(true)], Published(id));
  }

  /** When the answer to the creation is lost but the draft is listed, the run removes it, and the tag only if it was absent. */
  lemma LostCreateAnswerIsCleanedUp(run: Run, present: bool, id: int, gone: bool)
    requires id >= 1
    ensures PublishTrace(
              run, [AskTag(Some(present)), Create(false)] + ([AskByTag(None), AskPage(Some([OwnDraft(run, id)]))] +
                     ([DeleteRelease(id, true)] + (if present then [] else [DeleteTag(gone)]))),
              Failed)
  {
    hide LookupTrace, PublishTrace;
    var lookup := [AskByTag(None), AskPage(Some([OwnDraft(run, id)]))];
    var rest := [DeleteRelease(id, true)] + (if present then [] else [DeleteTag(gone)]);
    OwnDraftIsFound(run, id);
    assert DeleteTrace(rest, id, !present);
    hide DeleteTrace;
    FromTheStart(run, present, false, lookup + rest, Failed);
  }

  // ----- the report -----

  /** How the local steps before and after publication end; none of them writes to the remote. */
  datatype Local = Local(
    keyLoads: bool, repositoryPrivate: bool, domainsIndependent: bool, prepared: bool,
    remoteVerified: bool, restored: bool, certified: bool, reportWritten: bool)

  datatype Report = Certified | NotCertified(preserved: bool)

  /** The report is truthful: "not preserved" is said exactly when the publish edit was never issued. */
  method Certify(remote: Remote, local: Local) returns (report: Report)
    requires remote.Valid() && remote.log == []
    modifies remote
    ensures report.NotCertified? ==> (report.preserved <==> !NoEdit(remote.log))
    ensures report.Certified? ==> Edit(true) in remote.log
    ensures SafeLog(remote.mine, remote.log)
  {
    hide PublishTrace, TruthfulTrace, SafeLog, NoEdit;
    var releasePublished := false;
    NothingIssuedIsSafe(remote.mine);
    if !local.keyLoads || !local.repositoryPrivate || !local.domainsIndependent || !local.prepared {
      return NotCertified(releasePublished);
    }
    var outcome, trace := PublishReleaseAssets(remote);
    assert remote.log == trace;
    LogIsSafe(remote.run, remote.mine, trace, outcome);
    OutcomeTellsWhetherEdited(remote.run, remote.mine, trace, outcome);
    if outcome == Failed {
      return NotCertified(releasePublished);
    }
    releasePublished := true;
    if outcome == Uncertain || !local.remoteVerified || !local.restored || !local.certified || !local.reportWritten {
      return NotCertified(releasePublished);
    }
    return Certified;
  }
}
