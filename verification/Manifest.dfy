/**
 The migration manifest verifier (scripts/verify_migration_manifest.py, verify).

 JSON fields are null, text, or some other scalar given by the text str() makes of it and by its truth value.
 */
module Manifest {
  import opened Common

  type ScalarText = s: string | s != "" witness "0"

  datatype Field = Null | Text(text: string) | Other(shown: ScalarText, truthy: bool)

  type Record = map<string, Field>

  type SourceKey = (string, string)

  type SourceId = (string, string, string)

  /** A declared source, its repository and revision as text; a missing count is -1. */
  datatype Source = Source(repo: string, sha: string, count: int)

  /** A target record with its source references, an absent or empty value being no references. */
  datatype Target = Target(fields: Record, refs: seq<Field>)

  datatype Manifest = Manifest(schema: int, files: seq<Record>, sources: seq<Source>, targets: seq<Target>)

  datatype Tracked = Tracked(mode: string, blob: string)

  type Index = map<string, Tracked>

  datatype Error =
    | MissingField(field: string)
    | UnknownDisposition
    | UnreviewedRemain(count: nat)
    | DestinationRequired
    | VerificationRequired
    | UndeclaredSource(key: SourceKey)
    | FileCountMismatch(key: SourceKey, expected: int, observed: int)
    | DuplicateSource(id: SourceId)
    | DuplicateDestination(destination: Field)
    | TargetPathRequired
    | DuplicateTarget(path: string)
    | BlobRequired(path: string)
    | SourceRefsRequired(path: string)
    | UnknownSourceRef(path: string, ref: Field)
    | UnmanifestedPath(path: string)
    | MissingFromTarget(path: string)
    | ModeMismatch(path: string)
    | BlobMismatch(path: string)

  const SELF: string := "migration/source-manifest.json"

  const IMPORTED: set<Field> := {Text("KEEP"), Text("FIX_FIRST")}

  const ALLOWED_DISPOSITIONS: set<Field> :=
    {Text("KEEP"), Text("FIX_FIRST"), Text("SUPERSEDED"), Text("DROP"), Text("QUARANTINE"), Text("UNREVIEWED")}

  const REQUIRED_FILE_FIELDS: set<string> := {
    "source_repo", "source_sha", "source_path", "source_blob_sha", "mode", "disposition", "destination_path", "rationale",
    "verification"}

  // ----- fields -----

  function Value(r: Record, key: string): Field { if key in r then r[key] else Null }

  predicate Truthy(f: Field) {
    match f
    case Null => false
    case Text(s) => s != ""
    case Other(_, truthy) => truthy
  }

  function Shown(f: Field): string {
    match f
    case Null => "None"
    case Text(s) => s
    case Other(shown, _) => shown
  }

  /** str(item.get(key, "")): an absent field is empty, a null one reads "None". */
  function ShownOr(r: Record, key: string): string { if key in r then Shown(r[key]) else "" }

  function KeyOf(r: Record): SourceKey { (Shown(Value(r, "source_repo")), Shown(Value(r, "source_sha"))) }

  function IdOf(r: Record): SourceId {
    (Shown(Value(r, "source_repo")), Shown(Value(r, "source_sha")), Shown(Value(r, "source_path")))
  }

  function RefOf(r: Record): string {
    Shown(Value(r, "source_repo")) + "@" + Shown(Value(r, "source_sha")) + ":" + Shown(Value(r, "source_path"))
  }

  function DestinationOf(r: Record): Field { Value(r, "destination_path") }

  function PathOf(t: Target): string { ShownOr(t.fields, "path") }

  predicate IsImported(r: Record) { Value(r, "disposition") in IMPORTED }

  // ----- agreement, declaratively -----

  predicate FileOk(r: Record) { REQUIRED_FILE_FIELDS <= r.Keys && Value(r, "disposition") in ALLOWED_DISPOSITIONS }

  predicate Reviewed(r: Record) { Value(r, "disposition") != Text("UNREVIEWED") }

  predicate ImportOk(r: Record) {
    IsImported(r) ==> Truthy(DestinationOf(r)) && Truthy(Value(r, "verification"))
  }

  predicate With<T, K(==)>(x: T, key: T -> K, k: K) { key(x) == k }

  /** How many items carry a key. */
  function Count<T(!new), K(==)>(s: seq<T>, key: T -> K, k: K): nat { |Filter(s, x => With(x, key, k))| }

  predicate Distinct<T(!new), K(==)>(s: seq<T>, key: T -> K, relevant: K -> bool) {
    forall i, j :: 0 <= i < j < |s| && relevant(key(s[j])) ==> key(s[i]) != key(s[j])
  }

  /** The dictionary of declared sources: a later entry of the same key replaces an earlier one. */
  function Declared(sources: seq<Source>): map<SourceKey, int> {
    if sources == [] then map[]
    else
      var last := sources[|sources| - 1];
      Declared(sources[..|sources| - 1])[(last.repo, last.sha) := last.count]
  }

  predicate CountsAgree(files: seq<Record>, declared: map<SourceKey, int>) {
    && (forall i :: 0 <= i < |files| ==> KeyOf(files[i]) in declared)
    && (forall key :: key in declared ==> Count(files, KeyOf, key) == declared[key])
  }

  function RefsOf(files: seq<Record>): set<string> { set i | 0 <= i < |files| :: RefOf(files[i]) }

  predicate RefKnown(refs: set<string>, ref: Field) { ref.Text? && ref.text in refs }

  predicate TargetOk(t: Target, refs: set<string>, allowUnreviewed: bool) {
    && PathOf(t) != ""
    && (PathOf(t) != SELF ==> Truthy(Value(t.fields, "blob_sha")))
    && (Value(t.fields, "origin") in {Text("legacy_unchanged"), Text("legacy_fixed")} ==> t.refs != [])
    && (forall i :: 0 <= i < |t.refs| ==> RefKnown(refs, t.refs[i]))
    && (!allowUnreviewed ==> Truthy(Value(t.fields, "verification")))
  }

  predicate AnyKey<K>(k: K) { true }

  predicate TargetsOk(files: seq<Record>, targets: seq<Target>, allowUnreviewed: bool) {
    && (forall i :: 0 <= i < |targets| ==> TargetOk(targets[i], RefsOf(files), allowUnreviewed))
    && Distinct(targets, PathOf, AnyKey)
  }

  function TargetPaths(targets: seq<Target>): set<string> {
    set i | 0 <= i < |targets| && Truthy(Value(targets[i].fields, "path")) :: Shown(Value(targets[i].fields, "path"))
  }

  function ImportedPaths(files: seq<Record>): set<string> {
    set i | 0 <= i < |files| && IsImported(files[i]) && Truthy(DestinationOf(files[i])) :: Shown(DestinationOf(files[i]))
  }

  function BlobText(t: Target): string {
    if Value(t.fields, "blob_sha").Null? then "" else Shown(Value(t.fields, "blob_sha"))
  }

  /** Mode and blob are compared only for a record whose path is text naming a tracked file. */
  predicate EntryOk(t: Target, index: Index) {
    var path := Value(t.fields, "path");
    path.Text? && path.text != "" && path.text in index ==>
      && ShownOr(t.fields, "mode") in {"", index[path.text].mode}
      && BlobText(t) in {"", index[path.text].blob}
  }

  predicate IndexOk(m: Manifest, index: Index) {
    if m.schema >= 2 then
      TargetPaths(m.targets) == index.Keys && forall i :: 0 <= i < |m.targets| ==> EntryOk(m.targets[i], index)
    else ImportedPaths(m.files) == index.Keys
  }

  predicate FilesOk(files: seq<Record>) { forall i :: 0 <= i < |files| ==> FileOk(files[i]) }

  predicate ReviewOk(files: seq<Record>) { forall i :: 0 <= i < |files| ==> Reviewed(files[i]) && ImportOk(files[i]) }

  predicate NoDuplicates(files: seq<Record>) { Distinct(files, IdOf, AnyKey) && Distinct(files, DestinationOf, Truthy) }

  predicate Agreement(m: Manifest, allowUnreviewed: bool, index: Option<Index>) {
    && FilesOk(m.files)
    && (!allowUnreviewed ==> ReviewOk(m.files))
    && CountsAgree(m.files, Declared(m.sources))
    && NoDuplicates(m.files)
    && (m.schema >= 2 ==> TargetsOk(m.files, m.targets, allowUnreviewed))
    && (index.Some? ==> IndexOk(m, index.value))
  }

  // ----- the verifier -----

  method MissingFields(r: Record) returns (errors: seq<Error>)
    ensures errors == [] <==> REQUIRED_FILE_FIELDS <= r.Keys
  {
    errors := [];
    var missing := REQUIRED_FILE_FIELDS - r.Keys;
    while missing != {}
      invariant missing <= REQUIRED_FILE_FIELDS - r.Keys
      invariant errors == [] <==> missing == REQUIRED_FILE_FIELDS - r.Keys
      decreases |missing|
    {
      var field :| field in missing;
      errors := errors + [MissingField(field)];
      missing := missing - {field};
    }
  }

  method CheckFiles(files: seq<Record>) returns (errors: seq<Error>)
    ensures errors == [] <==> FilesOk(files)
  {
    errors := [];
    for k := 0 to |files|
      invariant errors == [] <==> forall i :: 0 <= i < k ==> FileOk(files[i])
    {
      var missing := MissingFields(files[k]);
      errors := errors + missing;
      if Value(files[k], "disposition") !in ALLOWED_DISPOSITIONS {
        errors := errors + [UnknownDisposition];
      }
    }
  }

  method CheckReview(files: seq<Record>) returns (errors: seq<Error>)
    ensures errors == [] <==> ReviewOk(files)
  {
    errors := [];
    var pending := 0;
    for k := 0 to |files|
      invariant pending >= 0 && (pending == 0 <==> forall i :: 0 <= i < k ==> Reviewed(files[i]))
    {
      if Value(files[k], "disposition") == Text("UNREVIEWED") {
        pending := pending + 1;
      }
    }
    if pending > 0 {
      errors := [UnreviewedRemain(pending)];
    }
    for k := 0 to |files|
      invariant errors == [] <==>
        (forall i :: 0 <= i < |files| ==> Reviewed(files[i])) && (forall i :: 0 <= i < k ==> ImportOk(files[i]))
    {
      if IsImported(files[k]) {
        if !Truthy(DestinationOf(files[k])) {
          errors := errors + [DestinationRequired];
        }
        if !Truthy(Value(files[k], "verification")) {
          errors := errors + [VerificationRequired];
        }
      }
    }
  }

  lemma CountSnoc<T(!new), K>(s: seq<T>, key: T -> K, k: K, n: nat)
    requires n < |s|
    ensures Count(s[..n + 1], key, k) == Count(s[..n], key, k) + if key(s[n]) == k then 1 else 0
  {
    assert s[..n + 1][..n] == s[..n];
  }

  method DeclaredSources(sources: seq<Source>) returns (declared: map<SourceKey, int>)
    ensures declared == Declared(sources)
  {
    declared := map[];
    for k := 0 to |sources|
      invariant declared == Declared(sources[..k])
    {
      assert sources[..k + 1][..k] == sources[..k];
      declared := declared[(sources[k].repo, sources[k].sha) := sources[k].count];
    }
    assert sources[..|sources|] == sources;
  }

  function Observed(counts: map<SourceKey, nat>, key: SourceKey): nat { if key in counts then counts[key] else 0 }

  method CheckSources(files: seq<Record>, declared: map<SourceKey, int>) returns (errors: seq<Error>)
    ensures errors == [] <==> CountsAgree(files, declared)
  {
    hide Count;
    errors := [];
    var observed: map<SourceKey, nat> := map[];
    EmptyCount(files);
    for k := 0 to |files|
      invariant forall key :: Observed(observed, key) == Count(files[..k], KeyOf, key)
      invariant errors == [] <==> forall i :: 0 <= i < k ==> KeyOf(files[i]) in declared
    {
      var key := KeyOf(files[k]);
      var more := observed[key := Observed(observed, key) + 1];
      forall other: SourceKey
        ensures Observed(more, other) == Count(files[..k + 1], KeyOf, other)
      {
        CountSnoc(files, KeyOf, other, k);
        assert Observed(observed, other) == Count(files[..k], KeyOf, other);
      }
      observed := more;
      if key !in declared {
        errors := errors + [UndeclaredSource(key)];
      }
    }
    assert files[..|files|] == files;
    var remaining := declared.Keys;
    while remaining != {}
      invariant remaining <= declared.Keys
      invariant errors == [] <==>
        && (forall i :: 0 <= i < |files| ==> KeyOf(files[i]) in declared)
        && (forall key :: key in declared && key !in remaining ==> Count(files, KeyOf, key) == declared[key])
      decreases |remaining|
    {
      var key :| key in remaining;
      remaining := remaining - {key};
      if Observed(observed, key) != declared[key] {
        errors := errors + [FileCountMismatch(key, declared[key], Observed(observed, key))];
      }
    }
  }

  lemma EmptyCount(files: seq<Record>)
    ensures forall key :: Count(files[..0], KeyOf, key) == 0
  {
  }

  /** The relevant keys a scan has seen. */
  function Seen<T, K(==)>(s: seq<T>, key: T -> K, relevant: K -> bool): set<K> {
    set i | 0 <= i < |s| && relevant(key(s[i])) :: key(s[i])
  }

  lemma SeenSnoc<T(!new), K>(s: seq<T>, key: T -> K, relevant: K -> bool, n: nat)
    requires n < |s|
    ensures Seen(s[..n + 1], key, relevant) == Seen(s[..n], key, relevant) + if relevant(key(s[n])) then {key(s[n])} else {}
    ensures Distinct(s[..n + 1], key, relevant)
            <==> Distinct(s[..n], key, relevant) && !(relevant(key(s[n])) && key(s[n]) in Seen(s[..n], key, relevant))
  {
    assert forall i :: 0 <= i < n ==> s[..n + 1][i] == s[..n][i];
    assert s[..n + 1][n] == s[n];
  }

  lemma NothingSeen<T(!new), K>(s: seq<T>, key: T -> K, relevant: K -> bool)
    ensures Seen(s[..0], key, relevant) == {} && Distinct(s[..0], key, relevant)
  {
  }

  method CheckDuplicates(files: seq<Record>) returns (errors: seq<Error>)
    ensures errors == [] <==> NoDuplicates(files)
  {
    hide Seen, Distinct, IdOf, DestinationOf, Truthy;
    errors := [];
    var sources: set<SourceId>, destinations: set<Field> := {}, {};
    NothingSeen(files, IdOf, AnyKey);
    NothingSeen(files, DestinationOf, Truthy);
    for k := 0 to |files|
      invariant sources == Seen(files[..k], IdOf, AnyKey) && destinations == Seen(files[..k], DestinationOf, Truthy)
      invariant errors == [] <==> Distinct(files[..k], IdOf, AnyKey) && Distinct(files[..k], DestinationOf, Truthy)
    {
      SeenSnoc(files, IdOf, AnyKey, k);
      SeenSnoc(files, DestinationOf, Truthy, k);
      var id, destination := IdOf(files[k]), DestinationOf(files[k]);
      if id in sources {
        errors := errors + [DuplicateSource(id)];
      }
      sources := sources + {id};
      if Truthy(destination) {
        if destination in destinations {
          errors := errors + [DuplicateDestination(destination)];
        }
        destinations := destinations + {destination};
      }
    }
    assert files[..|files|] == files;
  }

  method CheckTarget(t: Target, refs: set<string>, allowUnreviewed: bool) returns (errors: seq<Error>)
    requires PathOf(t) != ""
    ensures errors == [] <==> TargetOk(t, refs, allowUnreviewed)
  {
    hide Truthy, RefKnown, PathOf, Value;
    errors := [];
    if PathOf(t) != SELF && !Truthy(Value(t.fields, "blob_sha")) {
      errors := errors + [BlobRequired(PathOf(t))];
    }
    if Value(t.fields, "origin") in {Text("legacy_unchanged"), Text("legacy_fixed")} && t.refs == [] {
      errors := errors + [SourceRefsRequired(PathOf(t))];
    }
    ghost var before := errors;
    for k := 0 to |t.refs|
      invariant errors == [] <==> before == [] && forall i :: 0 <= i < k ==> RefKnown(refs, t.refs[i])
    {
      if !RefKnown(refs, t.refs[k]) {
        errors := errors + [UnknownSourceRef(PathOf(t), t.refs[k])];
      }
    }
    if !allowUnreviewed && !Truthy(Value(t.fields, "verification")) {
      errors := errors + [VerificationRequired];
    }
  }

  method CheckTargets(files: seq<Record>, targets: seq<Target>, allowUnreviewed: bool) returns (errors: seq<Error>)
    ensures errors == [] <==> TargetsOk(files, targets, allowUnreviewed)
  {
    hide TargetOk, PathOf;
    errors := [];
    var refs, seen: set<string> := RefsOf(files), {};
    hide RefsOf;
    for k := 0 to |targets|
      invariant seen <= set i | 0 <= i < k :: PathOf(targets[i])
      invariant errors == [] ==> seen == set i | 0 <= i < k :: PathOf(targets[i])
      invariant errors == [] <==>
        && (forall i :: 0 <= i < k ==> TargetOk(targets[i], refs, allowUnreviewed))
        && (forall i, j :: 0 <= i < j < k ==> PathOf(targets[i]) != PathOf(targets[j]))
    {
      var path := PathOf(targets[k]);
      if path == "" {
        NoPathFails(targets[k], refs, allowUnreviewed);
        errors := errors + [TargetPathRequired];
      } else {
        if path in seen {
          errors := errors + [DuplicateTarget(path)];
        }
        seen := seen + {path};
        var more := CheckTarget(targets[k], refs, allowUnreviewed);
        errors := errors + more;
      }
    }
  }

  lemma NoPathFails(t: Target, refs: set<string>, allowUnreviewed: bool)
    requires PathOf(t) == ""
    ensures !TargetOk(t, refs, allowUnreviewed)
  {
  }

  method CheckPaths(expected: set<string>, actual: set<string>) returns (errors: seq<Error>)
    ensures errors == [] <==> expected == actual
  {
    errors := [];
    var unmanifested, absent := actual - expected, expected - actual;
    while unmanifested != {}
      invariant unmanifested <= actual - expected
      invariant errors == [] <==> unmanifested == actual - expected
      decreases |unmanifested|
    {
      var path :| path in unmanifested;
      unmanifested := unmanifested - {path};
      errors := errors + [UnmanifestedPath(path)];
    }
    ghost var before := errors;
    while absent != {}
      invariant absent <= expected - actual
      invariant errors == [] <==> before == [] && absent == expected - actual
      decreases |absent|
    {
      var path :| path in absent;
      absent := absent - {path};
      errors := errors + [MissingFromTarget(path)];
    }
  }

  method CheckIndex(m: Manifest, index: Index) returns (errors: seq<Error>)
    ensures errors == [] <==> IndexOk(m, index)
  {
    if m.schema < 2 {
      errors := CheckPaths(ImportedPaths(m.files), index.Keys);
      return;
    }
    errors := CheckPaths(TargetPaths(m.targets), index.Keys);
    hide TargetPaths;
    for k := 0 to |m.targets|
      invariant errors == [] <==>
        TargetPaths(m.targets) == index.Keys && forall i :: 0 <= i < k ==> EntryOk(m.targets[i], index)
    {
      var fields := m.targets[k].fields;
      var path := Value(fields, "path");
      if path.Text? && path.text != "" && path.text in index {
        if ShownOr(fields, "mode") != "" && index[path.text].mode != ShownOr(fields, "mode") {
          errors := errors + [ModeMismatch(path.text)];
        }
        if BlobText(m.targets[k]) != "" && index[path.text].blob != BlobText(m.targets[k]) {
          errors := errors + [BlobMismatch(path.text)];
        }
      }
    }
  }

  /** No error is reported exactly when manifest, sources and tracked tree agree. */
  method Verify(m: Manifest, allowUnreviewed: bool, index: Option<Index>) returns (errors: seq<Error>)
    ensures errors == [] <==> Agreement(m, allowUnreviewed, index)
  {
    hide FilesOk, ReviewOk, CountsAgree, NoDuplicates, TargetsOk, IndexOk;
    errors := CheckFiles(m.files);
    if !allowUnreviewed {
      var review := CheckReview(m.files);
      errors := errors + review;
    }
    var declared := DeclaredSources(m.sources);
    var counts := CheckSources(m.files, declared);
    var duplicates := CheckDuplicates(m.files);
    errors := errors + counts + duplicates;
    if m.schema >= 2 {
      var targets := CheckTargets(m.files, m.targets, allowUnreviewed);
      errors := errors + targets;
    }
    if index.Some? {
      var tree := CheckIndex(m, index.value);
      errors := errors + tree;
    }
  }
}
