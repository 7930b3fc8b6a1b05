/** Which draft a publication takes for its own (scripts/certify_remote_sqlite_backup.py, _owned_draft_release_id). */
module PublicationExactness {
  import opened Common
  import opened Publication

  /** A draft of the run's tag with an id, whose notes end in the run's marker. */
  ghost predicate Ours(run: Run, r: Release) {
    && r.id >= 1 && r.tag == run.tag && r.draft
    && r.body ==
       "Encrypted off-host SQLite disaster-recovery backup. No plaintext database is stored in this release.\n\n" + run.marker
  }

  ghost predicate OnlyOurs(run: Run, releases: seq<Release>, i: nat) {
    i < |releases| && Ours(run, releases[i]) && forall j :: 0 <= j < |releases| && j != i ==> !Ours(run, releases[j])
  }

  /** One of ours is found, when it is the only one, by its id. */
  ghost predicate Finds(run: Run, releases: seq<Release>, found: Option<int>) {
    if exists i: nat :: OnlyOurs(run, releases, i) then exists i: nat :: OnlyOurs(run, releases, i) && found == Some(releases[i].id)
    else found == None
  }

  ghost predicate ListsOurs(run: Run, releases: seq<Release>) { exists r :: r in releases && Ours(run, r) }

  lemma OursMeans(run: Run, r: Release)
    ensures Matches(run, r) <==> Ours(run, r)
  {
  }

  lemma {:induction false} MatchesCount(run: Run, releases: seq<Release>)
    ensures |MatchingIds(run, releases)| == |Filter(releases, (r: Release) => Ours(run, r))|
    ensures MatchingIds(run, releases) == Mapped(Filter(releases, (r: Release) => Ours(run, r)), (r: Release) => r.id)
  {
    hide Matches, Ours;
    if releases != [] {
      var n := |releases| - 1;
      MatchesCount(run, releases[..n]);
      OursMeans(run, releases[n]);
    }
  }

  ghost function Listed(run: Run, releases: seq<Release>): seq<Release> { Filter(releases, (r: Release) => Ours(run, r)) }

  lemma NothingListed(run: Run, releases: seq<Release>)
    ensures Listed(run, releases) == [] <==> !ListsOurs(run, releases)
  {
    hide Ours;
    FilterMembers(releases, (r: Release) => Ours(run, r));
    if Listed(run, releases) != [] { assert Listed(run, releases)[0] in Listed(run, releases); }
  }

  lemma {:induction false} OnlyIsListed(run: Run, releases: seq<Release>, i: nat)
    requires OnlyOurs(run, releases, i)
    ensures Listed(run, releases) == [releases[i]]
  {
    hide Ours;
    var n := |releases| - 1;
    if i == n {
      NoneOurs(run, releases);
      NothingListed(run, releases[..n]);
    } else {
      OnlySnoc(run, releases, i);
      OnlyIsListed(run, releases[..n], i);
    }
  }

  lemma {:induction false} ListedIsOnly(run: Run, releases: seq<Release>) returns (i: nat)
    requires |Listed(run, releases)| == 1
    ensures OnlyOurs(run, releases, i)
  {
    hide Ours;
    var n := |releases| - 1;
    if Ours(run, releases[n]) {
      i := n;
      NothingListed(run, releases[..n]);
      NoneBefore(run, releases);
    } else {
      i := ListedIsOnly(run, releases[..n]);
      OnlySnoc(run, releases, i);
    }
  }

  lemma OnlyCount(run: Run, releases: seq<Release>)
    ensures Listed(run, releases) == [] <==> !ListsOurs(run, releases)
    ensures |Listed(run, releases)| == 1 <==> exists i: nat :: OnlyOurs(run, releases, i)
    ensures forall i: nat :: OnlyOurs(run, releases, i) ==> Listed(run, releases) == [releases[i]]
  {
    hide Ours, OnlyOurs, Listed, ListsOurs;
    NothingListed(run, releases);
    if |Listed(run, releases)| == 1 { var i := ListedIsOnly(run, releases); }
    forall i: nat | OnlyOurs(run, releases, i) ensures i < |releases| && Listed(run, releases) == [releases[i]] {
      InRange(run, releases, i);
      OnlyIsListed(run, releases, i);
    }
  }

  lemma OnlySnoc(run: Run, releases: seq<Release>, i: nat)
    requires releases != [] && i < |releases| - 1
    ensures OnlyOurs(run, releases, i) <==> OnlyOurs(run, releases[..|releases| - 1], i) && !Ours(run, releases[|releases| - 1])
  {
    hide Ours;
    var n := |releases| - 1;
    if OnlyOurs(run, releases, i) {
      assert forall j :: 0 <= j < n ==> releases[..n][j] == releases[j];
    }
  }

  lemma NoneBefore(run: Run, releases: seq<Release>)
    requires releases != [] && Ours(run, releases[|releases| - 1]) && !ListsOurs(run, releases[..|releases| - 1])
    ensures OnlyOurs(run, releases, |releases| - 1)
  {
    hide Ours;
    forall j | 0 <= j < |releases| - 1 ensures !Ours(run, releases[j]) {
      assert releases[j] in releases[..|releases| - 1];
    }
  }

  lemma NoneOurs(run: Run, releases: seq<Release>)
    requires releases != [] && OnlyOurs(run, releases, |releases| - 1)
    ensures !ListsOurs(run, releases[..|releases| - 1])
  {
    hide Ours;
  }

  /** Identity is accepted exactly from a listing with one draft of ours, and the lookup decides exactly when one is listed at all. */
  lemma MatchExactly(run: Run, releases: seq<Release>)
    ensures forall found :: OnlyMatch(run, releases) == found <==> Finds(run, releases, found)
    ensures MatchingIds(run, releases) != [] <==> ListsOurs(run, releases)
  {
    hide MatchingIds, Ours, OnlyOurs, ListsOurs;
    MatchesCount(run, releases);
    OnlyCount(run, releases);
    if exists i: nat :: OnlyOurs(run, releases, i) {
      var i: nat :| OnlyOurs(run, releases, i);
      InRange(run, releases, i);
    }
    forall i: nat | OnlyOurs(run, releases, i) ensures i < |releases| { InRange(run, releases, i); }
    hide Filter;
  }

  lemma InRange(run: Run, releases: seq<Release>, i: nat)
    requires OnlyOurs(run, releases, i)
    ensures i < |releases|
  {
    hide Ours;
  }

  /**
   The lookup asks by tag and takes that answer when there is one. Otherwise it asks for at most eight pages: it stops at the
   first that fails or lists a draft of ours, and finds one only when it is the only one listed there.
   */
  lemma LookupExactly(run: Run, trace: seq<Event>, found: Option<int>)
    ensures LookupTrace(run, trace, found) <==>
            && trace != [] && trace[0].AskByTag?
            && if trace[0].reply.Some? then |trace| == 1 && Finds(run, [trace[0].reply.value], found)
               else
                 && 2 <= |trace| <= 9 && (forall i :: 1 <= i < |trace| ==> trace[i].AskPage?)
                 && (forall i :: 1 <= i < |trace| - 1 ==> trace[i].listing.Some? && !ListsOurs(run, trace[i].listing.value))
                 && var last := trace[|trace| - 1].listing;
                 && (|trace| < 9 ==> last.None? || ListsOurs(run, last.value))
                 && if last.None? then found == None else Finds(run, last.value, found)
  {
    hide OnlyMatch, MatchingIds, Finds, ListsOurs;
    forall releases: seq<Release>, f ensures OnlyMatch(run, releases) == f <==> Finds(run, releases, f) { MatchExactly(run, releases); }
    forall releases: seq<Release> ensures MatchingIds(run, releases) != [] <==> ListsOurs(run, releases) { MatchExactly(run, releases); }
    if trace != [] && trace[0].AskByTag? && trace[0].reply.None? {
      PagesExactly(run, trace[1..], found);
    }
  }

  lemma PagesExactly(run: Run, pages: seq<Event>, found: Option<int>)
    requires forall releases: seq<Release>, f :: OnlyMatch(run, releases) == f <==> Finds(run, releases, f)
    requires forall releases: seq<Release> :: MatchingIds(run, releases) != [] <==> ListsOurs(run, releases)
    ensures PagesTrace(run, pages, found) <==>
            && 1 <= |pages| <= 8 && (forall i :: 0 <= i < |pages| ==> pages[i].AskPage?)
            && (forall i :: 0 <= i < |pages| - 1 ==> pages[i].listing.Some? && !ListsOurs(run, pages[i].listing.value))
            && var last := pages[|pages| - 1].listing;
            && (|pages| < 8 ==> last.None? || ListsOurs(run, last.value))
            && if last.None? then found == None else Finds(run, last.value, found)
  {
    hide OnlyMatch, MatchingIds, Finds, ListsOurs;
  }
}
