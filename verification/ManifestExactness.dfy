/** What an empty error list of the manifest verifier means (scripts/verify_migration_manifest.py). */
module ManifestExactness {
  import opened Common
  import opened Manifest

  // ----- manifest and tree -----

  /** The record names a tracked path: its recorded path is not null, empty or another false value. */
  predicate Names(t: Target, path: string) { Truthy(Value(t.fields, "path")) && Shown(Value(t.fields, "path")) == path }

  predicate Named(targets: seq<Target>, path: string) { exists i :: 0 <= i < |targets| && Names(targets[i], path) }

  /** Same paths on both sides, and no path named twice. */
  ghost predicate SamePaths(targets: seq<Target>, index: Index) {
    && (forall path :: path in index <==> Named(targets, path))
    && (forall i, j, path :: 0 <= i < j < |targets| && Names(targets[i], path) ==> !Names(targets[j], path))
  }

  /** The blob is the recorded one, except for the manifest's own entry recorded without one; so is a recorded mode. */
  predicate SameContent(t: Target, index: Index)
    requires Value(t.fields, "path").Text? ==> Value(t.fields, "path").text in index || Value(t.fields, "path").text == ""
  {
    var path := Value(t.fields, "path");
    path.Text? && path.text != "" ==>
      && (path.text != SELF || BlobText(t) != "" ==> index[path.text].blob == BlobText(t))
      && (ShownOr(t.fields, "mode") != "" ==> index[path.text].mode == ShownOr(t.fields, "mode"))
  }

  lemma NamesIsShown(t: Target, path: string)
    requires Names(t, path)
    ensures PathOf(t) == path
  {
  }

  lemma NamedInPaths(targets: seq<Target>, path: string)
    ensures Named(targets, path) <==> path in TargetPaths(targets)
  {
    hide Truthy, Shown;
  }

  lemma BlobRecorded(t: Target, refs: set<string>, allowUnreviewed: bool)
    requires TargetOk(t, refs, allowUnreviewed) && PathOf(t) != SELF
    ensures BlobText(t) != ""
  {
    hide RefKnown;
  }

  lemma PathsAgree(m: Manifest, allowUnreviewed: bool, index: Index)
    requires TargetsOk(m.files, m.targets, allowUnreviewed) && IndexOk(m, index) && m.schema >= 2
    ensures SamePaths(m.targets, index)
  {
    hide EntryOk, TargetOk;
    forall path: string
      ensures path in index <==> Named(m.targets, path)
    {
      NamedInPaths(m.targets, path);
      assert path in index <==> path in index.Keys;
    }
    forall i, j, path | 0 <= i < j < |m.targets| && Names(m.targets[i], path)
      ensures !Names(m.targets[j], path)
    {
      NamesIsShown(m.targets[i], path);
      if Names(m.targets[j], path) {
        NamesIsShown(m.targets[j], path);
        assert false;
      }
    }
  }

  /**
   With schema 2 and an index, an empty error list means manifest and tree name the same paths, each exactly once, with
   equal blobs and equal recorded modes, and that the declared counts add up to the number of file records.
   */
  lemma StrictAgreementIsExact(m: Manifest, allowUnreviewed: bool, index: Index)
    requires Agreement(m, allowUnreviewed, Some(index)) && m.schema >= 2
    ensures SamePaths(m.targets, index)
    ensures forall i :: 0 <= i < |m.targets| && Value(m.targets[i].fields, "path").Text? ==>
              Value(m.targets[i].fields, "path").text in index && SameContent(m.targets[i], index)
    ensures SumOver(Declared(m.sources).Keys, Declared(m.sources)) == |m.files|
  {
    hide FilesOk, ReviewOk, NoDuplicates;
    PathsAgree(m, allowUnreviewed, index);
    forall i | 0 <= i < |m.targets| && Value(m.targets[i].fields, "path").Text?
      ensures Value(m.targets[i].fields, "path").text in index && SameContent(m.targets[i], index)
    {
      TextEntryIsExact(m, allowUnreviewed, index, i);
    }
    hide TargetsOk, IndexOk, SamePaths;
    DeclaredCountsAddUp(m.files, Declared(m.sources));
  }

  lemma TextEntryIsExact(m: Manifest, allowUnreviewed: bool, index: Index, i: nat)
    requires TargetsOk(m.files, m.targets, allowUnreviewed) && IndexOk(m, index) && m.schema >= 2
    requires i < |m.targets| && Value(m.targets[i].fields, "path").Text?
    ensures Value(m.targets[i].fields, "path").text in index && SameContent(m.targets[i], index)
  {
    var t := m.targets[i];
    hide Distinct, RefsOf;
    assert TargetOk(t, RefsOf(m.files), allowUnreviewed) && EntryOk(t, index);
    assert Names(t, PathOf(t));
    NamedInPaths(m.targets, PathOf(t));
    if PathOf(t) != SELF {
      BlobRecorded(t, RefsOf(m.files), allowUnreviewed);
    }
  }

  // ----- counts add up -----

  ghost function SumOver(keys: set<SourceKey>, counts: map<SourceKey, int>): int
    requires keys <= counts.Keys
  {
    if keys == {} then 0
    else
      var key :| key in keys;
      counts[key] + SumOver(keys - {key}, counts)
  }

  lemma {:induction false} SumOverTakes(keys: set<SourceKey>, counts: map<SourceKey, int>, key: SourceKey)
    requires keys <= counts.Keys && key in keys
    ensures SumOver(keys, counts) == counts[key] + SumOver(keys - {key}, counts)
  {
    var first :| first in keys && SumOver(keys, counts) == counts[first] + SumOver(keys - {first}, counts);
    if first != key {
      SumOverTakes(keys - {first}, counts, key);
      SumOverTakes(keys - {key}, counts, first);
      assert keys - {first} - {key} == keys - {key} - {first};
    }
  }

  lemma {:induction false} SumOverSame(keys: set<SourceKey>, a: map<SourceKey, int>, b: map<SourceKey, int>)
    requires keys <= a.Keys && keys <= b.Keys && forall key :: key in keys ==> a[key] == b[key]
    ensures SumOver(keys, a) == SumOver(keys, b)
  {
    if keys != {} {
      var key :| key in keys;
      SumOverTakes(keys, a, key);
      SumOverTakes(keys, b, key);
      SumOverSame(keys - {key}, a, b);
    }
  }

  lemma {:induction false} SumOverZero(keys: set<SourceKey>, counts: map<SourceKey, int>)
    requires keys <= counts.Keys && forall key :: key in keys ==> counts[key] == 0
    ensures SumOver(keys, counts) == 0
  {
    if keys != {} {
      var key :| key in keys;
      SumOverTakes(keys, counts, key);
      SumOverZero(keys - {key}, counts);
    }
  }

  function CountsOf(files: seq<Record>, keys: set<SourceKey>): map<SourceKey, int> {
    map key | key in keys :: Count(files, KeyOf, key)
  }

  /** Every record is counted under exactly one key. */
  lemma {:induction false} CountsAddUp(files: seq<Record>, keys: set<SourceKey>)
    requires forall i :: 0 <= i < |files| ==> KeyOf(files[i]) in keys
    ensures SumOver(keys, CountsOf(files, keys)) == |files|
  {
    var all := CountsOf(files, keys);
    if files == [] {
      SumOverZero(keys, all);
    } else {
      var n := |files| - 1;
      var key, fewer := KeyOf(files[n]), CountsOf(files[..n], keys);
      CountsAddUp(files[..n], keys);
      forall other | other in keys
        ensures all[other] == fewer[other] + if other == key then 1 else 0
      {
        CountSnoc(files, KeyOf, other, n);
        assert files[..n + 1] == files;
      }
      hide KeyOf, CountsOf;
      SumOverTakes(keys, all, key);
      SumOverTakes(keys, fewer, key);
      SumOverSame(keys - {key}, all, fewer);
    }
  }

  lemma DeclaredCountsAddUp(files: seq<Record>, declared: map<SourceKey, int>)
    requires CountsAgree(files, declared)
    ensures SumOver(declared.Keys, declared) == |files|
  {
    hide Count, KeyOf;
    CountsAddUp(files, declared.Keys);
    SumOverSame(declared.Keys, declared, CountsOf(files, declared.Keys));
  }

  // ----- where agreement is not exact -----

  lemma NamedIsTracked(targets: seq<Target>, index: Index, i: nat)
    requires SamePaths(targets, index) && i < |targets| && Truthy(Value(targets[i].fields, "path"))
    ensures PathOf(targets[i]) in index
  {
    hide Shown;
    assert Names(targets[i], PathOf(targets[i]));
    assert Named(targets, PathOf(targets[i]));
  }

  lemma UnnamedIsUntracked(targets: seq<Target>, index: Index, i: nat)
    requires SamePaths(targets, index) && Distinct(targets, PathOf, AnyKey)
    requires i < |targets| && !Truthy(Value(targets[i].fields, "path"))
    ensures PathOf(targets[i]) !in index
  {
    var path := PathOf(targets[i]);
    hide Distinct, PathOf;
    if Named(targets, path) {
      var j :| 0 <= j < |targets| && Names(targets[j], path);
      NamesIsShown(targets[j], path);
      PathsDiffer(targets, i, j);
    }
  }

  lemma PathsDiffer(targets: seq<Target>, i: nat, j: nat)
    requires Distinct(targets, PathOf, AnyKey) && i < |targets| && j < |targets| && i != j
    ensures PathOf(targets[i]) != PathOf(targets[j])
  {
    hide PathOf;
    assert i < j || j < i;
  }

  /** A record is part of the tree exactly when its path is not null or another false value; nothing else is reported. */
  lemma RecordInTreeIff(m: Manifest, allowUnreviewed: bool, index: Index, i: nat)
    requires Agreement(m, allowUnreviewed, Some(index)) && m.schema >= 2 && i < |m.targets|
    ensures PathOf(m.targets[i]) in index <==> Truthy(Value(m.targets[i].fields, "path"))
  {
    hide FilesOk, ReviewOk, CountsAgree, NoDuplicates, IndexOk, SamePaths, TargetOk, Distinct, PathOf, Truthy;
    PathsAgree(m, allowUnreviewed, index);
    if Truthy(Value(m.targets[i].fields, "path")) {
      NamedIsTracked(m.targets, index, i);
    } else {
      UnnamedIsUntracked(m.targets, index, i);
    }
  }

  const NULL_PATH_RECORD: Target := Target(map["path" := Null, "blob_sha" := Text("0"), "verification" := Text("done")], [])

  /** A record with a null path is accepted against an empty tree. */
  lemma NullPathPassesUnseen(allowUnreviewed: bool)
    ensures Agreement(Manifest(2, [], [], [NULL_PATH_RECORD]), allowUnreviewed, Some(map[]))
  {
  }

  // ----- paths that are not text -----

  /** The tracked entry has the mode and the blob the record states, where it states them. */
  predicate Recorded(t: Target, tracked: Tracked) {
    ShownOr(t.fields, "mode") in {"", tracked.mode} && BlobText(t) in {"", tracked.blob}
  }

  predicate StatesNothing(t: Target) { ShownOr(t.fields, "mode") == "" && BlobText(t) == "" }

  /** Agreement guarantees the record's mode and blob: whatever is tracked under its path satisfies them. */
  ghost predicate Guaranteed(m: Manifest, allowUnreviewed: bool, index: Index, t: Target) {
    forall tracked :: Agreement(m, allowUnreviewed, Some(index[PathOf(t) := tracked])) ==> Recorded(t, tracked)
  }

  /** Replacing what is tracked under a path that no text record names leaves every compared entry alone. */
  lemma EntriesIgnoreNonText(targets: seq<Target>, index: Index, i: nat, tracked: Tracked)
    requires Distinct(targets, PathOf, AnyKey) && i < |targets| && !Value(targets[i].fields, "path").Text?
    requires forall j :: 0 <= j < |targets| ==> EntryOk(targets[j], index)
    ensures forall j :: 0 <= j < |targets| ==> EntryOk(targets[j], index[PathOf(targets[i]) := tracked])
  {
    var path := PathOf(targets[i]);
    forall j | 0 <= j < |targets|
      ensures EntryOk(targets[j], index[path := tracked])
    {
      assert EntryOk(targets[j], index);
      if Value(targets[j].fields, "path").Text? && j != i {
        TextIsShown(targets[j]);
        PathsDiffer(targets, i, j);
      }
      hide PathOf, BlobText, ShownOr, Value, Distinct;
    }
  }

  lemma TextIsShown(t: Target)
    requires Value(t.fields, "path").Text?
    ensures PathOf(t) == Value(t.fields, "path").text
  {
  }

  /** A record whose path is a number or a truth value is in the tree by name, and nothing tracked there is compared. */
  lemma NonTextPathIsUncompared(m: Manifest, allowUnreviewed: bool, index: Index, i: nat, tracked: Tracked)
    requires Agreement(m, allowUnreviewed, Some(index)) && m.schema >= 2 && i < |m.targets|
    requires Truthy(Value(m.targets[i].fields, "path")) && !Value(m.targets[i].fields, "path").Text?
    ensures PathOf(m.targets[i]) in index
    ensures Agreement(m, allowUnreviewed, Some(index[PathOf(m.targets[i]) := tracked]))
  {
    hide FilesOk, ReviewOk, CountsAgree, NoDuplicates, TargetOk, Distinct, EntryOk, Truthy, PathOf, TargetPaths;
    RecordInTreeIff(m, allowUnreviewed, index, i);
    EntriesIgnoreNonText(m.targets, index, i, tracked);
    assert index[PathOf(m.targets[i]) := tracked].Keys == index.Keys;
  }

  /** Under agreement a tree record's mode and blob are guaranteed exactly when its path is text, or when it states neither. */
  lemma ContentGuaranteedExactly(m: Manifest, allowUnreviewed: bool, index: Index, i: nat)
    requires Agreement(m, allowUnreviewed, Some(index)) && m.schema >= 2 && i < |m.targets|
    requires Truthy(Value(m.targets[i].fields, "path"))
    ensures Guaranteed(m, allowUnreviewed, index, m.targets[i])
            <==> Value(m.targets[i].fields, "path").Text? || StatesNothing(m.targets[i])
    ensures PathOf(m.targets[i]) != SELF ==> !StatesNothing(m.targets[i])
  {
    var t := m.targets[i];
    hide FilesOk, ReviewOk, CountsAgree, NoDuplicates, TargetPaths, Distinct, RefsOf, RefKnown;
    assert TargetOk(t, RefsOf(m.files), allowUnreviewed);
    if PathOf(t) != SELF {
      BlobRecorded(t, RefsOf(m.files), allowUnreviewed);
    }
    if Value(t.fields, "path").Text? {
      forall tracked | Agreement(m, allowUnreviewed, Some(index[PathOf(t) := tracked]))
        ensures Recorded(t, tracked)
      {
        assert EntryOk(t, index[PathOf(t) := tracked]);
      }
    } else if !StatesNothing(t) {
      var tracked := Tracked(ShownOr(t.fields, "mode") + "x", BlobText(t) + "x");
      NonTextPathIsUncompared(m, allowUnreviewed, index, i, tracked);
      hide Agreement, BlobText, ShownOr;
      Longer(ShownOr(t.fields, "mode"));
      Longer(BlobText(t));
      assert !Recorded(t, tracked);
    }
  }

  lemma Longer(s: string)
    ensures s + "x" != s
  {
    assert |s + "x"| == |s| + 1;
  }

  const NUMBERED_RECORD: Target := Target(
    map["path" := Other("5", true), "mode" := Text("100755"), "blob_sha" := Text("0"), "verification" := Text("done")], [])

  /** A record with a numeric path is accepted although both mode and blob differ from what is tracked. */
  lemma NumericPathPassesUncompared(allowUnreviewed: bool)
    ensures Agreement(Manifest(2, [], [], [NUMBERED_RECORD]), allowUnreviewed, Some(map["5" := Tracked("100644", "1")]))
    ensures !Recorded(NUMBERED_RECORD, Tracked("100644", "1"))
  {
    var targets := [NUMBERED_RECORD];
    assert TargetPaths(targets) == {"5"} by {
      assert Truthy(Value(targets[0].fields, "path")) && Shown(Value(targets[0].fields, "path")) == "5";
    }
    assert "100755"[3] != "100644"[3];
    hide TargetPaths;
  }

  // ----- record order -----

  lemma {:induction false} FilterMultiset<T(!new)>(s: seq<T>, p: T -> bool, x: T)
    ensures multiset(Filter(s, p))[x] == if p(x) then multiset(s)[x] else 0
  {
    if s != [] {
      var n := |s| - 1;
      InitMultiset(s);
      FilterMultiset(s[..n], p, x);
      if p(s[n]) {
        assert multiset(Filter(s[..n], p) + [s[n]]) == multiset(Filter(s[..n], p)) + multiset{s[n]};
      }
    }
  }

  lemma CountPermuted<T(!new), K>(a: seq<T>, b: seq<T>, key: T -> K, k: K)
    requires multiset(a) == multiset(b)
    ensures Count(a, key, k) == Count(b, key, k)
  {
    var p := x => With(x, key, k);
    var fa, fb := Filter(a, p), Filter(b, p);
    forall x: T
      ensures multiset(fa)[x] == multiset(fb)[x]
    {
      FilterMultiset(a, p, x);
      FilterMultiset(b, p, x);
    }
    assert multiset(fa) == multiset(fb);
    assert |multiset(fa)| == |fa| && |multiset(fb)| == |fb|;
    CountIs(a, key, k, p);
    CountIs(b, key, k, p);
  }

  lemma CountIs<T(!new), K>(s: seq<T>, key: T -> K, k: K, p: T -> bool)
    requires forall x :: p(x) <==> With(x, key, k)
    ensures Count(s, key, k) == |Filter(s, p)|
  {
    FilterSame(s, x => With(x, key, k), p);
  }

  lemma {:induction false} CountedIffSeen<T(!new), K>(s: seq<T>, key: T -> K, k: K, n: nat)
    requires n <= |s|
    ensures Count(s[..n], key, k) > 0 <==> exists i :: 0 <= i < n && key(s[i]) == k
  {
    if n > 0 {
      CountedIffSeen(s, key, k, n - 1);
      CountSnoc(s, key, k, n - 1);
    }
  }

  /** No two items share a relevant key exactly when every such key is counted at most once. */
  lemma {:induction false} DistinctByCount<T(!new), K(!new)>(s: seq<T>, key: T -> K, relevant: K -> bool, n: nat)
    requires n <= |s|
    ensures Distinct(s[..n], key, relevant) <==> forall k :: relevant(k) ==> Count(s[..n], key, k) <= 1
  {
    hide Count, Distinct, Seen;
    if n == 0 {
      NothingSeen(s, key, relevant);
      forall k: K
        ensures Count(s[..0], key, k) == 0
      {
        CountedIffSeen(s, key, k, 0);
      }
    } else {
      DistinctByCount(s, key, relevant, n - 1);
      SeenSnoc(s, key, relevant, n - 1);
      var last := key(s[n - 1]);
      forall k: K
        ensures Count(s[..n], key, k) == Count(s[..n - 1], key, k) + if last == k then 1 else 0
      {
        CountSnoc(s, key, k, n - 1);
      }
      if relevant(last) {
        SeenIffCounted(s, key, relevant, last, n - 1);
      }
    }
  }

  lemma SeenIffCounted<T(!new), K>(s: seq<T>, key: T -> K, relevant: K -> bool, k: K, n: nat)
    requires n <= |s| && relevant(k)
    ensures k in Seen(s[..n], key, relevant) <==> Count(s[..n], key, k) > 0
  {
    hide Count;
    CountedIffSeen(s, key, k, n);
    if i :| 0 <= i < n && key(s[i]) == k {
      assert s[..n][i] == s[i];
    }
  }

  lemma DistinctPermuted<T(!new), K(!new)>(a: seq<T>, b: seq<T>, key: T -> K, relevant: K -> bool)
    requires multiset(a) == multiset(b) && Distinct(a, key, relevant)
    ensures Distinct(b, key, relevant)
  {
    DistinctByCount(a, key, relevant, |a|);
    DistinctByCount(b, key, relevant, |b|);
    assert a[..|a|] == a && b[..|b|] == b;
    hide Count, Distinct;
    forall k | relevant(k)
      ensures Count(b, key, k) <= 1
    {
      CountPermuted(a, b, key, k);
    }
  }

  lemma SamePlaces<T(!new)>(a: seq<T>, b: seq<T>)
    requires multiset(a) == multiset(b)
    ensures forall i :: 0 <= i < |b| ==> b[i] in a
  {
    SameMembers(a, b);
  }

  lemma RecordsOkPermuted(a: seq<Record>, b: seq<Record>)
    requires multiset(a) == multiset(b)
    ensures FilesOk(a) ==> FilesOk(b)
    ensures ReviewOk(a) ==> ReviewOk(b)
  {
    hide FileOk, Reviewed, ImportOk;
    SamePlaces(a, b);
  }

  lemma CountsPermuted(a: seq<Record>, b: seq<Record>, declared: map<SourceKey, int>)
    requires multiset(a) == multiset(b) && CountsAgree(a, declared)
    ensures CountsAgree(b, declared)
  {
    hide Count, KeyOf;
    SamePlaces(a, b);
    forall key | key in declared
      ensures Count(b, KeyOf, key) == declared[key]
    {
      CountPermuted(a, b, KeyOf, key);
    }
  }

  lemma DuplicatesPermuted(a: seq<Record>, b: seq<Record>)
    requires multiset(a) == multiset(b) && NoDuplicates(a)
    ensures NoDuplicates(b)
  {
    hide Distinct;
    DistinctPermuted(a, b, IdOf, AnyKey);
    DistinctPermuted(a, b, DestinationOf, Truthy);
  }

  lemma PathSetsPermuted(a: seq<Record>, b: seq<Record>)
    requires multiset(a) == multiset(b)
    ensures RefsOf(a) == RefsOf(b) && ImportedPaths(a) == ImportedPaths(b)
  {
    hide RefOf, IsImported, DestinationOf, Truthy, Shown;
    SamePlaces(a, b);
    SamePlaces(b, a);
  }

  lemma FilesPermuted(a: seq<Record>, b: seq<Record>, declared: map<SourceKey, int>)
    requires multiset(a) == multiset(b)
    ensures FilesOk(a) ==> FilesOk(b)
    ensures ReviewOk(a) ==> ReviewOk(b)
    ensures CountsAgree(a, declared) ==> CountsAgree(b, declared)
    ensures NoDuplicates(a) ==> NoDuplicates(b)
    ensures RefsOf(a) == RefsOf(b) && ImportedPaths(a) == ImportedPaths(b)
  {
    hide *;
    RecordsOkPermuted(a, b);
    PathSetsPermuted(a, b);
    if CountsAgree(a, declared) {
      CountsPermuted(a, b, declared);
    }
    if NoDuplicates(a) {
      DuplicatesPermuted(a, b);
    }
  }

  lemma TargetsPermuted(m: Manifest, targets: seq<Target>, allowUnreviewed: bool, index: Index)
    requires multiset(m.targets) == multiset(targets)
    ensures TargetsOk(m.files, m.targets, allowUnreviewed) ==> TargetsOk(m.files, targets, allowUnreviewed)
    ensures IndexOk(m, index) ==> IndexOk(m.(targets := targets), index)
  {
    var a, b := m.targets, targets;
    hide TargetOk, Distinct, EntryOk, PathOf, Truthy, ImportedPaths;
    SamePlaces(a, b);
    SamePlaces(b, a);
    assert TargetPaths(a) == TargetPaths(b);
    if TargetsOk(m.files, a, allowUnreviewed) {
      DistinctPermuted(a, b, PathOf, AnyKey);
    }
  }

  lemma AgreementPermutes(m: Manifest, files: seq<Record>, targets: seq<Target>, allowUnreviewed: bool, index: Option<Index>)
    requires multiset(m.files) == multiset(files) && multiset(m.targets) == multiset(targets)
    requires Agreement(m, allowUnreviewed, index)
    ensures Agreement(m.(files := files, targets := targets), allowUnreviewed, index)
  {
    hide FilesOk, ReviewOk, CountsAgree, NoDuplicates, RefsOf, ImportedPaths, TargetOk, EntryOk, Distinct, TargetPaths;
    FilesPermuted(m.files, files, Declared(m.sources));
    TargetsPermuted(m, targets, allowUnreviewed, if index.Some? then index.value else map[]);
  }

  /** Whether anything is reported does not depend on the order of the file records or the target records. */
  lemma RecordOrderIsIrrelevant(m: Manifest, files: seq<Record>, targets: seq<Target>, allowUnreviewed: bool, index: Option<Index>)
    requires multiset(m.files) == multiset(files) && multiset(m.targets) == multiset(targets)
    ensures Agreement(m, allowUnreviewed, index) <==> Agreement(m.(files := files, targets := targets), allowUnreviewed, index)
  {
    hide Agreement;
    if Agreement(m, allowUnreviewed, index) {
      AgreementPermutes(m, files, targets, allowUnreviewed, index);
    }
    if Agreement(m.(files := files, targets := targets), allowUnreviewed, index) {
      AgreementPermutes(m.(files := files, targets := targets), m.files, m.targets, allowUnreviewed, index);
      assert m.(files := files, targets := targets).(files := m.files, targets := m.targets) == m;
    }
  }

  // ----- source order -----

  /** Two entries declare different counts for one key. */
  predicate Conflicting(sources: seq<Source>) {
    exists i, j :: 0 <= i < j < |sources|
                   && sources[i].repo == sources[j].repo && sources[i].sha == sources[j].sha && sources[i].count != sources[j].count
  }

  lemma {:induction false} DeclaredFrom(sources: seq<Source>)
    ensures forall key :: key in Declared(sources) ==>
              exists i :: 0 <= i < |sources| && (sources[i].repo, sources[i].sha) == key && sources[i].count == Declared(sources)[key]
    ensures forall i :: 0 <= i < |sources| ==> (sources[i].repo, sources[i].sha) in Declared(sources)
  {
    if sources != [] {
      DeclaredFrom(sources[..|sources| - 1]);
    }
  }

  /** Without a conflict every entry is declared with its own count. */
  lemma DeclaredAsWritten(sources: seq<Source>, x: Source)
    requires x in sources && !Conflicting(sources)
    ensures (x.repo, x.sha) in Declared(sources) && Declared(sources)[(x.repo, x.sha)] == x.count
  {
    DeclaredFrom(sources);
    hide Declared;
    var k :| 0 <= k < |sources| && sources[k] == x;
    assert (sources[k].repo, sources[k].sha) in Declared(sources);
    var i :| 0 <= i < |sources| && (sources[i].repo, sources[i].sha) == (x.repo, x.sha)
             && sources[i].count == Declared(sources)[(x.repo, x.sha)];
    assert i < k || i == k || k < i;
  }

  lemma AgreeingOrderIsIrrelevant(a: seq<Source>, b: seq<Source>)
    requires multiset(a) == multiset(b) && !Conflicting(a)
    ensures Declared(a) == Declared(b)
  {
    SameMembers(a, b);
    DeclaredFrom(a);
    DeclaredFrom(b);
    hide Declared, Conflicting;
    forall key | key in Declared(a)
      ensures key in Declared(b)
    {
      var i :| 0 <= i < |a| && (a[i].repo, a[i].sha) == key && a[i].count == Declared(a)[key];
      assert a[i] in b;
    }
    forall key | key in Declared(b)
      ensures key in Declared(a) && Declared(a)[key] == Declared(b)[key]
    {
      var j :| 0 <= j < |b| && (b[j].repo, b[j].sha) == key && b[j].count == Declared(b)[key];
      assert b[j] in a;
      DeclaredAsWritten(a, b[j]);
    }
  }

  lemma DeclaredSnoc(sources: seq<Source>, x: Source)
    ensures Declared(sources + [x]) == Declared(sources)[(x.repo, x.sha) := x.count]
  {
    assert (sources + [x])[..|sources|] == sources;
  }

  /** Any two entries can be brought to the end. */
  lemma TwoAtTheEnd(sources: seq<Source>, i: nat, j: nat) returns (rest: seq<Source>)
    requires i < j < |sources|
    ensures multiset(rest) + multiset{sources[i]} + multiset{sources[j]} == multiset(sources)
  {
    var front, middle, back := sources[..i], sources[i + 1..j], sources[j + 1..];
    rest := front + middle + back;
    assert sources == front + [sources[i]] + middle + [sources[j]] + back;
  }

  lemma ConflictShowsInOrder(sources: seq<Source>) returns (first: seq<Source>, second: seq<Source>)
    requires Conflicting(sources)
    ensures multiset(first) == multiset(sources) == multiset(second) && Declared(first) != Declared(second)
  {
    var i, j :| 0 <= i < j < |sources|
                && sources[i].repo == sources[j].repo && sources[i].sha == sources[j].sha && sources[i].count != sources[j].count;
    var x, y := sources[i], sources[j];
    var rest := TwoAtTheEnd(sources, i, j);
    first, second := rest + [x] + [y], rest + [y] + [x];
    hide Declared, Conflicting;
    DeclaredSnoc(rest + [x], y);
    DeclaredSnoc(rest + [y], x);
    assert Declared(first)[(x.repo, x.sha)] == y.count && Declared(second)[(x.repo, x.sha)] == x.count;
  }

  /** The declared counts depend on the order of the sources exactly when two entries of one source disagree. */
  lemma SourceOrderMattersExactly(sources: seq<Source>)
    ensures Conflicting(sources) <==>
            exists first, second :: multiset(first) == multiset(sources) == multiset(second) && Declared(first) != Declared(second)
  {
    hide Conflicting;
    if Conflicting(sources) {
      var first, second := ConflictShowsInOrder(sources);
    } else {
      forall first, second | multiset(first) == multiset(sources) == multiset(second)
        ensures Declared(first) == Declared(second)
      {
        AgreeingOrderIsIrrelevant(sources, first);
        AgreeingOrderIsIrrelevant(sources, second);
      }
    }
  }

  /** The manifest with its sources listed in another order, and the verifier's answer for it. */
  ghost predicate AgreesAs(m: Manifest, allowUnreviewed: bool, index: Option<Index>, sources: seq<Source>) {
    multiset(sources) == multiset(m.sources) && Agreement(m.(sources := sources), allowUnreviewed, index)
  }

  ghost predicate DisagreesAs(m: Manifest, allowUnreviewed: bool, index: Option<Index>, sources: seq<Source>) {
    multiset(sources) == multiset(m.sources) && !Agreement(m.(sources := sources), allowUnreviewed, index)
  }

  lemma SameCountsSameDeclared(files: seq<Record>, a: map<SourceKey, int>, b: map<SourceKey, int>)
    requires CountsAgree(files, a) && CountsAgree(files, b) && a.Keys == b.Keys
    ensures a == b
  {
    hide Count, KeyOf;
    forall key | key in a
      ensures a[key] == b[key]
    {
      assert a[key] == Count(files, KeyOf, key);
      assert key in b;
    }
  }

  lemma SameKeys(a: seq<Source>, b: seq<Source>)
    requires multiset(a) == multiset(b)
    ensures Declared(a).Keys == Declared(b).Keys
  {
    DeclaredFrom(a);
    DeclaredFrom(b);
    SameMembers(a, b);
    hide Declared;
    forall key: SourceKey
      ensures key in Declared(a) <==> key in Declared(b)
    {
      if key in Declared(a) {
        var i :| 0 <= i < |a| && (a[i].repo, a[i].sha) == key;
        assert a[i] in b;
      }
      if key in Declared(b) {
        var i :| 0 <= i < |b| && (b[i].repo, b[i].sha) == key;
        assert b[i] in a;
      }
    }
  }

  /** Two orders that both agree declare the same counts. */
  lemma AgreeingOrdersDeclareAlike(m: Manifest, allowUnreviewed: bool, index: Option<Index>, a: seq<Source>, b: seq<Source>)
    requires AgreesAs(m, allowUnreviewed, index, a) && AgreesAs(m, allowUnreviewed, index, b)
    ensures Declared(a) == Declared(b)
  {
    hide Declared, CountsAgree, FilesOk, ReviewOk, NoDuplicates, TargetsOk, IndexOk;
    SameKeys(a, b);
    SameCountsSameDeclared(m.files, Declared(a), Declared(b));
  }

  lemma AnswerFollowsDeclared(m: Manifest, allowUnreviewed: bool, index: Option<Index>, a: seq<Source>, b: seq<Source>)
    requires Declared(a) == Declared(b)
    ensures Agreement(m.(sources := a), allowUnreviewed, index) == Agreement(m.(sources := b), allowUnreviewed, index)
  {
    hide Declared, CountsAgree, FilesOk, ReviewOk, NoDuplicates, TargetsOk;
  }

  /**
   Whether anything is reported depends on the order of the sources exactly when two entries of one source disagree and
   some order of them agrees.
   */
  lemma AnswerDependsOnSourceOrderExactly(m: Manifest, allowUnreviewed: bool, index: Option<Index>)
    ensures (exists a :: AgreesAs(m, allowUnreviewed, index, a)) && (exists b :: DisagreesAs(m, allowUnreviewed, index, b))
            <==> Conflicting(m.sources) && exists a :: AgreesAs(m, allowUnreviewed, index, a)
  {
    hide Agreement, Conflicting, Declared;
    if Conflicting(m.sources) {
      var first, second := ConflictShowsInOrder(m.sources);
      if AgreesAs(m, allowUnreviewed, index, first) && AgreesAs(m, allowUnreviewed, index, second) {
        AgreeingOrdersDeclareAlike(m, allowUnreviewed, index, first, second);
      }
      assert DisagreesAs(m, allowUnreviewed, index, first) || DisagreesAs(m, allowUnreviewed, index, second);
    } else {
      forall a, b | AgreesAs(m, allowUnreviewed, index, a) && multiset(b) == multiset(m.sources)
        ensures Agreement(m.(sources := b), allowUnreviewed, index)
      {
        AgreeingOrderIsIrrelevant(m.sources, a);
        AgreeingOrderIsIrrelevant(m.sources, b);
        AnswerFollowsDeclared(m, allowUnreviewed, index, a, b);
      }
    }
  }

  const NONE: Source := Source("repo", "sha", 0)
  const ONE: Source := Source("repo", "sha", 1)

  lemma WithoutRecords(sources: seq<Source>, allowUnreviewed: bool)
    ensures Agreement(Manifest(1, [], sources, []), allowUnreviewed, None)
            <==> forall key :: key in Declared(sources) ==> Declared(sources)[key] == 0
  {
    NoRecordsAgree(Declared(sources));
    hide Declared, CountsAgree;
    var m := Manifest(1, [], sources, []);
    assert FilesOk(m.files) && ReviewOk(m.files);
    assert NoDuplicates(m.files);
    assert Agreement(m, allowUnreviewed, None) <==> CountsAgree(m.files, Declared(m.sources));
  }

  lemma NoRecordsAgree(declared: map<SourceKey, int>)
    ensures CountsAgree([], declared) <==> forall key :: key in declared ==> declared[key] == 0
  {
    forall key: SourceKey
      ensures Count([], KeyOf, key) == 0
    {
    }
    hide Count;
  }

  lemma LaterReplaces(x: Source, y: Source)
    requires x.repo == y.repo && x.sha == y.sha
    ensures Declared([x, y]) == map[(y.repo, y.sha) := y.count]
  {
    var key := (y.repo, y.sha);
    DeclaredSnoc([x], y);
    DeclaredSnoc([], x);
    assert [x] + [y] == [x, y] && [] + [x] == [x];
    assert Declared([]) == map[];
    hide Declared;
    assert Declared([x]) == map[key := x.count];
  }

  /** With no file records, the zero count listed last is accepted and listed first is reported. */
  lemma ConflictingSourcesFlipTheAnswer(allowUnreviewed: bool)
    ensures Agreement(Manifest(1, [], [ONE, NONE], []), allowUnreviewed, None)
    ensures !Agreement(Manifest(1, [], [NONE, ONE], []), allowUnreviewed, None)
  {
    hide Agreement, Declared;
    WithoutRecords([ONE, NONE], allowUnreviewed);
    WithoutRecords([NONE, ONE], allowUnreviewed);
    LaterReplaces(ONE, NONE);
    LaterReplaces(NONE, ONE);
    assert ("repo", "sha") in Declared([NONE, ONE]);
  }
}
