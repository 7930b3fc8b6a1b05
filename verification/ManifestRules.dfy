/** Everything the manifest verifier demands, rule by rule (scripts/verify_migration_manifest.py, verify). */
module ManifestRules {
  import opened Common
  import opened Manifest

  ghost function At(r: Record, key: string): Field { if key in r then r[key] else Null }

  /** Missing, null, empty, zero or false. */
  ghost predicate Blank(f: Field) { f == Null || f == Text("") || (f.Other? && !f.truthy) }

  /** The field as str() writes it. */
  ghost function Word(f: Field): string {
    match f
    case Null => "None"
    case Text(s) => s
    case Other(shown, _) => shown
  }

  ghost predicate Imported(r: Record) { At(r, "disposition") in {Text("KEEP"), Text("FIX_FIRST")} }

  lemma BlankMeans(f: Field)
    ensures Truthy(f) <==> !Blank(f)
  {
  }

  lemma WordMeans(f: Field)
    ensures Shown(f) == Word(f)
  {
  }

  // ----- file records -----

  /** All nine fields, and a known disposition. */
  ghost predicate Complete(r: Record) {
    && "source_repo" in r && "source_sha" in r && "source_path" in r && "source_blob_sha" in r && "mode" in r && "destination_path" in r
    && "rationale" in r && "verification" in r && "disposition" in r
    && r["disposition"] in {Text("KEEP"), Text("FIX_FIRST"), Text("SUPERSEDED"), Text("DROP"), Text("QUARANTINE"), Text("UNREVIEWED")}
  }

  ghost predicate Settled(r: Record) {
    At(r, "disposition") != Text("UNREVIEWED") && (Imported(r) ==> !Blank(At(r, "destination_path")) && !Blank(At(r, "verification")))
  }

  lemma CompleteMeans(r: Record)
    ensures FileOk(r) <==> Complete(r)
  {
  }

  lemma SettledMeans(r: Record)
    ensures Reviewed(r) && ImportOk(r) <==> Settled(r)
  {
    BlankMeans(At(r, "destination_path"));
    BlankMeans(At(r, "verification"));
    hide Truthy, Blank;
  }

  // ----- sources -----

  ghost predicate From(r: Record, repo: string, sha: string) { Word(At(r, "source_repo")) == repo && Word(At(r, "source_sha")) == sha }

  /** Entry k is the last one declared of its source. */
  ghost predicate LastDeclared(sources: seq<Source>, k: nat) {
    k < |sources| && forall j :: k < j < |sources| ==> sources[j].repo != sources[k].repo || sources[j].sha != sources[k].sha
  }

  ghost predicate DeclaredSource(r: Record, sources: seq<Source>) { exists s :: s in sources && From(r, s.repo, s.sha) }

  /** The last declaration of every source counts its records. */
  ghost predicate LastCounts(files: seq<Record>, sources: seq<Source>) {
    forall k: nat :: LastDeclared(sources, k) ==> |Filter(files, (r: Record) => From(r, sources[k].repo, sources[k].sha))| == sources[k].count
  }

  /** Every record's source is declared, and the last declaration of a source counts its records. */
  ghost predicate Counted(files: seq<Record>, sources: seq<Source>) {
    (forall r :: r in files ==> DeclaredSource(r, sources)) && LastCounts(files, sources)
  }

  lemma {:induction false} DeclaredNames(sources: seq<Source>, repo: string, sha: string)
    ensures (repo, sha) in Declared(sources) <==> exists s :: s in sources && s.repo == repo && s.sha == sha
  {
    if sources != [] {
      DeclaredNames(sources[..|sources| - 1], repo, sha);
      assert forall s :: s in sources <==> s in sources[..|sources| - 1] || s == sources[|sources| - 1];
    }
  }

  lemma {:induction false} DeclaredCounts(sources: seq<Source>, k: nat)
    requires LastDeclared(sources, k)
    ensures (sources[k].repo, sources[k].sha) in Declared(sources) && Declared(sources)[(sources[k].repo, sources[k].sha)] == sources[k].count
  {
    if k < |sources| - 1 { DeclaredCounts(sources[..|sources| - 1], k); }
  }

  lemma {:induction false} SomeLast(sources: seq<Source>, repo: string, sha: string) returns (k: nat)
    requires exists s :: s in sources && s.repo == repo && s.sha == sha
    ensures LastDeclared(sources, k) && sources[k].repo == repo && sources[k].sha == sha
  {
    var n := |sources| - 1;
    if sources[n].repo == repo && sources[n].sha == sha {
      k := n;
    } else {
      assert forall s :: s in sources <==> s in sources[..n] || s == sources[n];
      k := SomeLast(sources[..n], repo, sha);
    }
  }

  lemma FromMeans(r: Record, repo: string, sha: string)
    ensures KeyOf(r) == (repo, sha) <==> From(r, repo, sha)
  {
    WordMeans(At(r, "source_repo"));
    WordMeans(At(r, "source_sha"));
    hide Shown, Word;
  }

  lemma CountMeans(files: seq<Record>, repo: string, sha: string)
    ensures Count(files, KeyOf, (repo, sha)) == |Filter(files, (r: Record) => From(r, repo, sha))|
  {
    hide KeyOf, From;
    forall r ensures KeyOf(r) == (repo, sha) <==> From(r, repo, sha) { FromMeans(r, repo, sha); }
    FilterSame(files, r => With(r, KeyOf, (repo, sha)), (r: Record) => From(r, repo, sha));
    hide Filter;
  }

  lemma SourceMeans(r: Record, sources: seq<Source>)
    ensures KeyOf(r) in Declared(sources) <==> DeclaredSource(r, sources)
  {
    hide KeyOf, From, Declared;
    var (repo, sha) := KeyOf(r);
    DeclaredNames(sources, repo, sha);
    forall s: Source ensures KeyOf(r) == (s.repo, s.sha) <==> From(r, s.repo, s.sha) { FromMeans(r, s.repo, s.sha); }
  }

  lemma SourcesMean(files: seq<Record>, sources: seq<Source>)
    ensures (forall i :: 0 <= i < |files| ==> KeyOf(files[i]) in Declared(sources)) <==> forall r :: r in files ==> DeclaredSource(r, sources)
  {
    hide KeyOf, Declared, DeclaredSource;
    forall r ensures KeyOf(r) in Declared(sources) <==> DeclaredSource(r, sources) { SourceMeans(r, sources); }
    assert forall r :: r in files <==> exists i :: 0 <= i < |files| && files[i] == r;
  }

  lemma CountsMean(files: seq<Record>, sources: seq<Source>)
    ensures (forall key :: key in Declared(sources) ==> Count(files, KeyOf, key) == Declared(sources)[key]) <==> LastCounts(files, sources)
  {
    hide KeyOf, From, Declared, Count, Filter;
    var declared := Declared(sources);
    if LastCounts(files, sources) {
      forall key | key in declared ensures Count(files, KeyOf, key) == declared[key] {
        DeclaredNames(sources, key.0, key.1);
        var k := SomeLast(sources, key.0, key.1);
        DeclaredCounts(sources, k);
        CountMeans(files, key.0, key.1);
      }
    }
    if forall key :: key in declared ==> Count(files, KeyOf, key) == declared[key] {
      forall k: nat | LastDeclared(sources, k)
        ensures |Filter(files, (r: Record) => From(r, sources[k].repo, sources[k].sha))| == sources[k].count
      {
        DeclaredCounts(sources, k);
        CountMeans(files, sources[k].repo, sources[k].sha);
      }
    }
  }

  // ----- duplicates -----

  ghost predicate SameSource(a: Record, b: Record) {
    && Word(At(a, "source_repo")) == Word(At(b, "source_repo")) && Word(At(a, "source_sha")) == Word(At(b, "source_sha"))
    && Word(At(a, "source_path")) == Word(At(b, "source_path"))
  }

  ghost predicate SameDestination(a: Record, b: Record) {
    At(a, "destination_path") == At(b, "destination_path") && !Blank(At(b, "destination_path"))
  }

  ghost predicate Unrepeated(files: seq<Record>) {
    forall i, j :: 0 <= i < j < |files| ==> !SameSource(files[i], files[j]) && !SameDestination(files[i], files[j])
  }

  lemma SameMeans(a: Record, b: Record)
    ensures IdOf(a) == IdOf(b) <==> SameSource(a, b)
    ensures Truthy(DestinationOf(b)) && DestinationOf(a) == DestinationOf(b) <==> SameDestination(a, b)
  {
    BlankMeans(At(b, "destination_path"));
    forall f ensures Shown(f) == Word(f) { WordMeans(f); }
    hide Truthy, Blank, Shown, Word;
  }

  lemma UnrepeatedMeans(files: seq<Record>)
    ensures NoDuplicates(files) <==> Unrepeated(files)
  {
    hide IdOf, DestinationOf, SameSource, SameDestination, Truthy;
    forall a: Record, b: Record
      ensures IdOf(a) == IdOf(b) <==> SameSource(a, b)
      ensures Truthy(DestinationOf(b)) && DestinationOf(a) == DestinationOf(b) <==> SameDestination(a, b)
    {
      SameMeans(a, b);
    }
  }

  // ----- target records -----

  /** The path as text; a missing one is empty. */
  ghost function Path(t: Target): string { if "path" in t.fields then Word(t.fields["path"]) else "" }

  /** A reference names a file record as repository@revision:path. */
  ghost predicate Refers(ref: Field, r: Record) {
    ref == Text(Word(At(r, "source_repo")) + "@" + Word(At(r, "source_sha")) + ":" + Word(At(r, "source_path")))
  }

  ghost predicate Known(ref: Field, files: seq<Record>) { exists r :: r in files && Refers(ref, r) }

  ghost predicate Sound(t: Target, files: seq<Record>, allowUnreviewed: bool) {
    && Path(t) != "" && (Path(t) == "migration/source-manifest.json" || !Blank(At(t.fields, "blob_sha")))
    && (At(t.fields, "origin") in {Text("legacy_unchanged"), Text("legacy_fixed")} ==> t.refs != [])
    && (forall ref :: ref in t.refs ==> Known(ref, files))
    && (allowUnreviewed || !Blank(At(t.fields, "verification")))
  }

  lemma KnownMeans(ref: Field, files: seq<Record>)
    ensures RefKnown(RefsOf(files), ref) <==> Known(ref, files)
  {
    forall f ensures Shown(f) == Word(f) { WordMeans(f); }
    hide Shown, Word;
    if ref.Text? {
      assert ref.text in RefsOf(files) <==> exists i :: 0 <= i < |files| && RefOf(files[i]) == ref.text;
      assert forall r :: RefOf(r) == ref.text <==> Refers(ref, r);
      hide RefOf, Refers;
      assert forall r :: r in files <==> exists i :: 0 <= i < |files| && files[i] == r;
    }
  }

  lemma SoundMeans(t: Target, files: seq<Record>, allowUnreviewed: bool)
    ensures TargetOk(t, RefsOf(files), allowUnreviewed) <==> Sound(t, files, allowUnreviewed)
    ensures PathOf(t) == Path(t)
  {
    forall f ensures Shown(f) == Word(f) && (Truthy(f) <==> !Blank(f)) { WordMeans(f); BlankMeans(f); }
    forall ref ensures RefKnown(RefsOf(files), ref) <==> Known(ref, files) { KnownMeans(ref, files); }
    hide Shown, Word, Truthy, Blank, RefKnown, RefsOf, Known;
    assert forall ref :: ref in t.refs <==> exists i :: 0 <= i < |t.refs| && t.refs[i] == ref;
  }

  ghost predicate SoundTargets(files: seq<Record>, targets: seq<Target>, allowUnreviewed: bool) {
    && (forall t :: t in targets ==> Sound(t, files, allowUnreviewed))
    && forall i, j :: 0 <= i < j < |targets| ==> Path(targets[i]) != Path(targets[j])
  }

  lemma SoundTargetsMean(files: seq<Record>, targets: seq<Target>, allowUnreviewed: bool)
    ensures TargetsOk(files, targets, allowUnreviewed) <==> SoundTargets(files, targets, allowUnreviewed)
  {
    hide TargetOk, Sound, PathOf, Path, RefsOf;
    forall t: Target
      ensures (TargetOk(t, RefsOf(files), allowUnreviewed) <==> Sound(t, files, allowUnreviewed)) && PathOf(t) == Path(t)
    {
      SoundMeans(t, files, allowUnreviewed);
    }
    assert forall t :: t in targets <==> exists i :: 0 <= i < |targets| && targets[i] == t;
  }

  // ----- the tracked tree -----

  /** A stated text, once there is one. */
  ghost predicate Stated(f: Field, actual: string) { f == Null || Word(f) == "" || Word(f) == actual }

  /** Its stated mode and blob are the tracked ones; a null mode states "None", a null blob nothing. */
  ghost predicate AsTracked(t: Target, index: Index) {
    var path := At(t.fields, "path");
    path.Text? && path.text != "" && path.text in index ==>
      && ("mode" in t.fields ==> Word(t.fields["mode"]) in {"", index[path.text].mode})
      && Stated(At(t.fields, "blob_sha"), index[path.text].blob)
  }

  ghost predicate Listed(m: Manifest, path: string) {
    if m.schema >= 2 then exists t :: t in m.targets && !Blank(At(t.fields, "path")) && Word(At(t.fields, "path")) == path
    else exists r :: r in m.files && Imported(r) && !Blank(At(r, "destination_path")) && Word(At(r, "destination_path")) == path
  }

  ghost predicate MatchesTree(m: Manifest, index: Index) {
    && (forall path :: path in index <==> Listed(m, path))
    && (m.schema >= 2 ==> forall t :: t in m.targets ==> AsTracked(t, index))
  }

  lemma AsTrackedMeans(t: Target, index: Index)
    ensures EntryOk(t, index) <==> AsTracked(t, index)
  {
    forall f ensures Shown(f) == Word(f) { WordMeans(f); }
    hide Shown, Word;
  }

  lemma ListedMeans(m: Manifest, path: string)
    ensures path in (if m.schema >= 2 then TargetPaths(m.targets) else ImportedPaths(m.files)) <==> Listed(m, path)
  {
    if m.schema >= 2 { TargetListed(m, path); } else { FileListed(m, path); }
  }

  lemma TargetListed(m: Manifest, path: string)
    requires m.schema >= 2
    ensures path in TargetPaths(m.targets) <==> Listed(m, path)
  {
    forall f ensures Shown(f) == Word(f) && (Truthy(f) <==> !Blank(f)) { WordMeans(f); BlankMeans(f); }
    hide Shown, Word, Truthy, Blank;
    if path in TargetPaths(m.targets) {
      var i :| 0 <= i < |m.targets| && Truthy(Value(m.targets[i].fields, "path")) && Shown(Value(m.targets[i].fields, "path")) == path;
      assert m.targets[i] in m.targets;
    }
    if Listed(m, path) {
      var t :| t in m.targets && !Blank(At(t.fields, "path")) && Word(At(t.fields, "path")) == path;
      var i :| 0 <= i < |m.targets| && m.targets[i] == t;
      assert Truthy(Value(m.targets[i].fields, "path")) && Shown(Value(m.targets[i].fields, "path")) == path;
    }
  }

  lemma FileListed(m: Manifest, path: string)
    requires m.schema < 2
    ensures path in ImportedPaths(m.files) <==> Listed(m, path)
  {
    forall f ensures Shown(f) == Word(f) && (Truthy(f) <==> !Blank(f)) { WordMeans(f); BlankMeans(f); }
    hide Shown, Word, Truthy, Blank;
    if path in ImportedPaths(m.files) {
      var i :| 0 <= i < |m.files| && IsImported(m.files[i]) && Truthy(DestinationOf(m.files[i])) && Shown(DestinationOf(m.files[i])) == path;
      assert m.files[i] in m.files;
    }
    if Listed(m, path) {
      var r :| r in m.files && Imported(r) && !Blank(At(r, "destination_path")) && Word(At(r, "destination_path")) == path;
      var i :| 0 <= i < |m.files| && m.files[i] == r;
      assert IsImported(m.files[i]) && Truthy(DestinationOf(m.files[i])) && Shown(DestinationOf(m.files[i])) == path;
    }
  }

  lemma MatchesTreeMeans(m: Manifest, index: Index)
    ensures IndexOk(m, index) <==> MatchesTree(m, index)
  {
    hide TargetPaths, ImportedPaths, Listed, EntryOk, AsTracked;
    forall path: string
      ensures path in (if m.schema >= 2 then TargetPaths(m.targets) else ImportedPaths(m.files)) <==> Listed(m, path)
    {
      ListedMeans(m, path);
    }
    forall t: Target ensures EntryOk(t, index) <==> AsTracked(t, index) { AsTrackedMeans(t, index); }
    assert forall t :: t in m.targets <==> exists i :: 0 <= i < |m.targets| && m.targets[i] == t;
    assert forall path :: path in index <==> path in index.Keys;
  }

  // ----- the whole verification -----

  /** No error is reported exactly when every rule holds of the manifest and, where one is given, of the tracked tree. */
  lemma AgreesExactly(m: Manifest, allowUnreviewed: bool, index: Option<Index>)
    ensures Agreement(m, allowUnreviewed, index) <==>
            && (forall r :: r in m.files ==> Complete(r))
            && (allowUnreviewed || forall r :: r in m.files ==> Settled(r))
            && Counted(m.files, m.sources) && Unrepeated(m.files)
            && (m.schema >= 2 ==> SoundTargets(m.files, m.targets, allowUnreviewed))
            && (index.Some? ==> MatchesTree(m, index.value))
  {
    FilesMean(m.files);
    SourcesMean(m.files, m.sources);
    CountsMean(m.files, m.sources);
    UnrepeatedMeans(m.files);
    SoundTargetsMean(m.files, m.targets, allowUnreviewed);
    if index.Some? { MatchesTreeMeans(m, index.value); }
    hide FilesOk, ReviewOk, Complete, Settled, Declared, Count, KeyOf, DeclaredSource, LastCounts, NoDuplicates, Unrepeated, TargetsOk, SoundTargets,
      IndexOk, MatchesTree;
  }

  lemma FilesMean(files: seq<Record>)
    ensures FilesOk(files) <==> forall r :: r in files ==> Complete(r)
    ensures ReviewOk(files) <==> forall r :: r in files ==> Settled(r)
  {
    hide FileOk, Complete, Reviewed, ImportOk, Settled;
    forall r: Record ensures (FileOk(r) <==> Complete(r)) && (Reviewed(r) && ImportOk(r) <==> Settled(r)) {
      CompleteMeans(r);
      SettledMeans(r);
    }
    assert forall r :: r in files <==> exists i :: 0 <= i < |files| && files[i] == r;
  }
}
