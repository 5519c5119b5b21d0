/**
 * What a public snapshot keeps back, what it writes and when it is refused
 * (scripts/create-public-source-snapshot.ts:20-69, 146-296), in terms of the segments of paths.
 */
module SnapshotRules {
  import opened Wrappers
  import opened Seqs
  import opened Texts
  import opened Snapshot

  // ----- Paths by their segments -----

  function Last(pieces: seq<string>): string
    requires pieces != []
  {
    pieces[|pieces| - 1]
  }

  /** The name of the file a path leads to. */
  function NameOf(path: string): string {
    Last(Split(path))
  }

  /** The root's segments are the first segments of the path. */
  predicate Inside(path: string, root: string) {
    Split(root) <= Split(path)
  }

  lemma {:induction false} WithinIsInside(path: string, root: string)
    ensures Within(path, root) <==> Inside(path, root)
  {
    if root == "" {
      WithinTop(path);
    } else if path != "" && root[0] == path[0] {
      WithinIsInside(path[1..], root[1..]);
      WithinTail(path, root);
      InsideTail(path, root);
    } else {
      Apart(path, root);
    }
  }

  lemma WithinTop(path: string)
    ensures Within(path, "") <==> Inside(path, "")
  {
    assert path[..0] == "";
    assert Split("") == [""];
    assert Inside(path, "") <==> Split(path)[0] == "";
  }

  lemma FirstPiece(s: string)
    requires s != ""
    ensures if s[0] == '/' then Split(s)[0] == "" && |Split(s)| > 1 else Split(s)[0] != "" && Split(s)[0][0] == s[0]
  {}

  lemma Apart(path: string, root: string)
    requires root != "" && (path == "" || root[0] != path[0])
    ensures !Within(path, root) && !Inside(path, root)
  {
    FirstPiece(root);
    if path == "" {
      assert Split(path) == [""];
    } else {
      FirstPiece(path);
      assert |root| <= |path| ==> path[..|root|][0] == path[0];
      assert Split(path)[0] != Split(root)[0];
    }
  }

  lemma WithinTail(path: string, root: string)
    requires root != "" && path != "" && root[0] == path[0]
    ensures Within(path, root) <==> Within(path[1..], root[1..])
  {
    if Within(path[1..], root[1..]) && path[1..] != root[1..] {
      assert path[..|root|] == [path[0]] + path[1..][..|root[1..]|];
      assert root == [root[0]] + root[1..];
    }
    if Within(path, root) && path != root {
      assert path[1..][..|root[1..]|] == path[..|root|][1..];
    }
    assert root == [root[0]] + root[1..] && path == [path[0]] + path[1..];
  }

  lemma InsideTail(path: string, root: string)
    requires root != "" && path != "" && root[0] == path[0]
    ensures Inside(path, root) <==> Inside(path[1..], root[1..])
  {
    var p, r := Split(path[1..]), Split(root[1..]);
    if root[0] == '/' {
      assert Split(path)[1..] == p && Split(root)[1..] == r;
    } else {
      assert Split(path)[1..] == p[1..] && Split(root)[1..] == r[1..];
      assert Split(path)[0][1..] == p[0] && Split(root)[0][1..] == r[0];
      assert p == [p[0]] + p[1..] && r == [r[0]] + r[1..];
      assert Split(path) == [Split(path)[0]] + p[1..] && Split(root) == [Split(root)[0]] + r[1..];
    }
  }

  lemma {:induction false} OnePiece(s: string)
    ensures |Split(s)| == 1 <==> '/' !in s
    ensures |Split(s)| == 1 ==> Split(s) == [s]
  {
    if s != "" {
      OnePiece(s[1..]);
      assert s == [s[0]] + s[1..];
    }
  }

  /** A path leads to a name exactly if it is the name, or ends in it after a slash. */
  lemma {:induction false} NameIs(path: string, name: string, suffix: string)
    requires '/' !in name && suffix == "/" + name
    ensures path == name || EndsWith(path, suffix) <==> NameOf(path) == name
  {
    OnePiece(path);
    if path != "" {
      OnePiece(path[1..]);
      NameIs(path[1..], name, suffix);
      assert path == [path[0]] + path[1..];
      NameTail(path, name, suffix);
    }
  }

  lemma NameTail(path: string, name: string, suffix: string)
    requires '/' !in name && suffix == "/" + name && path != ""
    ensures EndsWith(path, suffix) <==> EndsWith(path[1..], suffix) || (path[0] == '/' && path[1..] == name)
  {
    if |suffix| < |path| {
      assert path[|path| - |suffix|..] == path[1..][|path[1..]| - |suffix|..];
    } else if |suffix| == |path| {
      assert path[0..] == path && suffix[1..] == name;
    }
  }

  // ----- What is kept back -----

  /** A path inside an exclusion, or one that leads to instructions for agents. */
  predicate KeptBack(exclusions: seq<string>, path: string) {
    || (exists i :: 0 <= i < |exclusions| && Inside(path, exclusions[i]))
    || NameOf(path) == "AGENTS.md" || NameOf(path) == "CLAUDE.md"
  }

  lemma KeptBackIff(exclusions: seq<string>, path: string)
    ensures ExcludedPath(exclusions, path) <==> KeptBack(exclusions, path)
  {
    forall i | 0 <= i < |exclusions| ensures Within(path, exclusions[i]) <==> Inside(path, exclusions[i]) {
      WithinIsInside(path, exclusions[i]);
    }
    AgentsIff(path);
    ClaudeIff(path);
  }

  lemma AgentsIff(path: string)
    ensures path == "AGENTS.md" || EndsWith(path, "/AGENTS.md") <==> NameOf(path) == "AGENTS.md"
  {
    NameIs(path, "AGENTS.md", "/AGENTS.md");
  }

  lemma ClaudeIff(path: string)
    ensures path == "CLAUDE.md" || EndsWith(path, "/CLAUDE.md") <==> NameOf(path) == "CLAUDE.md"
  {
    NameIs(path, "CLAUDE.md", "/CLAUDE.md");
  }

  lemma ManifestIff(path: string)
    ensures IsPackage(path) <==> NameOf(path) == "package.json"
  {
    NameIs(path, "package.json", "/package.json");
  }

  lemma LicenseIff(path: string)
    ensures path == "LICENSE.md" || EndsWith(path, "/LICENSE.md") <==> NameOf(path) == "LICENSE.md"
  {
    NameIs(path, "LICENSE.md", "/LICENSE.md");
  }

  lemma {:induction false} ExcludedAre(exclusions: seq<string>, entries: seq<Entry>, path: string)
    ensures path in ExcludedPaths(exclusions, entries) <==>
            ExcludedPath(exclusions, path) && exists i :: 0 <= i < |entries| && entries[i].path == path
  {
    if entries != [] {
      ExcludedAre(exclusions, entries[1..], path);
      assert entries == [entries[0]] + entries[1..];
      assert forall i :: 0 <= i < |entries[1..]| ==> entries[1..][i] == entries[i + 1];
    }
  }

  /** The paths reported as excluded are the entries inside an exclusion and the instructions for agents. */
  lemma ExcludedExactly(
    env: Env, exclusions: seq<string>, privateRoots: seq<string>, inputs: seq<string>, entries: seq<Entry>, path: string)
    requires Snapshot.Snapshot(env, exclusions, privateRoots, inputs, entries).Ok? && IsTree(entries)
    ensures path in Snapshot.Snapshot(env, exclusions, privateRoots, inputs, entries).value.excluded <==>
            KeptBack(exclusions, path) && exists i :: 0 <= i < |entries| && entries[i].path == path
  {
    var license := env.blob(FindEntry(entries, "LICENSE.md").value.blobId);
    RootLicense(env, entries);
    ExportPartitions(env, exclusions, license, entries);
    ExcludedAre(exclusions, entries, path);
    KeptBackIff(exclusions, path);
  }

  /**
   * No file of a snapshot leads to instructions for agents or lies inside an exclusion, except a licence that was
   * added beside a written manifest and is itself the exclusion.
   */
  lemma NothingKeptBackIsWritten(
    env: Env, exclusions: seq<string>, privateRoots: seq<string>, inputs: seq<string>, entries: seq<Entry>, i: nat)
    requires Snapshot.Snapshot(env, exclusions, privateRoots, inputs, entries).Ok? && IsTree(entries)
    requires i < |Snapshot.Snapshot(env, exclusions, privateRoots, inputs, entries).value.files|
    ensures var path := Snapshot.Snapshot(env, exclusions, privateRoots, inputs, entries).value.files[i].path;
            && NameOf(path) != "AGENTS.md" && NameOf(path) != "CLAUDE.md"
            && forall r :: r in exclusions && Inside(path, r) ==>
                 path == r && LicenseBelongsAt(path, exclusions, entries)
  {
    var license := env.blob(FindEntry(entries, "LICENSE.md").value.blobId);
    var done := ExportTree(env, exclusions, license, entries).value;
    var path := done.files[i].path;
    RootLicense(env, entries);
    ExportPartitions(env, exclusions, license, entries);
    KeptBackIff(exclusions, path);
    if i < |WrittenPaths(exclusions, entries)| {
      assert WrittenPaths(exclusions, entries)[i] == FilePaths(done.files)[i] == path;
      WrittenAreEntries(exclusions, entries, path);
    } else {
      AddedLicense(env, exclusions, license, entries, path, i);
    }
  }

  lemma AddedLicense(
    env: Env, exclusions: seq<string>, license: Bytes, entries: seq<Entry>, path: string, i: nat)
    requires ExportTree(env, exclusions, license, entries).Ok? && RootIsLicense(env, license, entries)
    requires forall k :: 0 <= k < |entries| ==> SafePath(entries[k].path)
    requires i < |ExportTree(env, exclusions, license, entries).value.files|
    requires i >= |WrittenPaths(exclusions, entries)|
    requires path == ExportTree(env, exclusions, license, entries).value.files[i].path
    ensures NameOf(path) == "LICENSE.md" && LicenseBelongsAt(path, exclusions, entries)
    ensures forall r :: r in exclusions && Inside(path, r) ==> path == r
  {
    var done := ExportTree(env, exclusions, license, entries).value;
    ExportPartitions(env, exclusions, license, entries);
    var st := ExportEntries(env, exclusions, license, Nothing, entries).value;
    EntriesKeep(env, exclusions, license, Nothing, entries);
    AddLicensesKeep(license, st, st.packageRoots);
    var k :| 0 <= k < |st.packageRoots| && path == LicensePath(st.packageRoots[k]);
    RootsFromManifests(env, exclusions, license, Nothing, entries, st.packageRoots[k]);
    var m :| 0 <= m < |entries| && IsManifestIn(st.packageRoots[k], exclusions, entries[m]);
    LicensePathIs(st.packageRoots[k]);
    LicenseIff(path);
    forall r | r in exclusions && Inside(path, r) ensures path == r {
      WithinIsInside(path, r);
      LicenseStaysPublic(entries[m].path, r);
    }
  }

  // ----- What is written -----

  predicate IsLicenseCopy(path: string) {
    NameOf(path) == "LICENSE.md" && path != "LICENSE.md"
  }

  /** A manifest is a record with this repository's licence or none; a licence copy says what the licence says. */
  predicate Reviewed(env: Env, license: Bytes, e: Entry) {
    var blob := env.blob(e.blobId);
    && (NameOf(e.path) == "package.json" ==> env.manifest(blob).Record? && env.manifest(blob).license != Different)
    && (IsLicenseCopy(e.path) ==> blob == license || env.normalized(blob) == env.normalized(license))
  }

  predicate LacksLicense(env: Env, e: Entry) {
    NameOf(e.path) == "package.json" && env.manifest(env.blob(e.blobId)) == Record(Absent)
  }

  /** A manifest without a licence gets one, a licence copy is the licence, and anything else stays as it is. */
  function Wanted(env: Env, license: Bytes, e: Entry): Bytes {
    if LacksLicense(env, e) then env.withLicense(env.blob(e.blobId))
    else if IsLicenseCopy(e.path) then license
    else env.blob(e.blobId)
  }

  function Changes(env: Env, license: Bytes, e: Entry): seq<Transformation> {
    var blob := env.blob(e.blobId);
    if LacksLicense(env, e) then [Transformation(e.path, PackageLicenseMetadata, Some(blob))]
    else if IsLicenseCopy(e.path) && blob != license then [Transformation(e.path, CanonicalLicenseCopy, Some(blob))]
    else []
  }

  lemma ManifestIs(env: Env, e: Entry)
    ensures var blob := env.blob(e.blobId);
            var r := PrepareManifest(env, e.path, blob);
            if NameOf(e.path) != "package.json" then r == Ok(Prepared(blob, []))
            else match env.manifest(blob)
              case Record(Different) => r == Err(ReviewLicense(e.path))
              case Record(Absent) =>
                r == Ok(Prepared(env.withLicense(blob), [Transformation(e.path, PackageLicenseMetadata, Some(blob))]))
              case Record(Canonical) => r == Ok(Prepared(blob, []))
              case _ => r == Err(InvalidManifest(e.path))
  {
    ManifestIff(e.path);
  }

  lemma CopyIff(path: string)
    ensures EndsWith(path, "/LICENSE.md") <==> IsLicenseCopy(path)
  {
    LicenseIff(path);
    assert path == "LICENSE.md" ==> |path| < |"/LICENSE.md"|;
  }

  /** One entry that is not kept back and can be written. */
  lemma EntryIs(env: Env, exclusions: seq<string>, license: Bytes, st: Export, e: Entry)
    requires !ExcludedPath(exclusions, e.path) && !Blocked(st.files, e.path)
    ensures ExportEntry(env, exclusions, license, st, e).Ok? <==> Reviewed(env, license, e)
    ensures Reviewed(env, license, e) ==>
              var next := ExportEntry(env, exclusions, license, st, e).value;
              && next.files == st.files + [File(e.path, e.mode, Wanted(env, license, e))]
              && next.transformations == st.transformations + Changes(env, license, e)
    ensures !Reviewed(env, license, e) ==> Explains(env, license, ExportEntry(env, exclusions, license, st, e).error, e)
  {
    var blob := env.blob(e.blobId);
    ManifestIs(env, e);
    CopyIff(e.path);
    if NameOf(e.path) == "package.json" { ManifestNoCopy(e.path); }
    assert st.transformations + [] + Changes(env, license, e) == st.transformations + Changes(env, license, e);
    assert st.transformations + Changes(env, license, e) + [] == st.transformations + Changes(env, license, e);
  }

  lemma ManifestNoCopy(path: string)
    requires NameOf(path) == "package.json"
    ensures NameOf(path) != "LICENSE.md"
  {
    assert "package.json"[0] != "LICENSE.md"[0];
  }

  /** What an error of the first loop says of the entry it is about. */
  predicate Explains(env: Env, license: Bytes, error: Error, e: Entry) {
    var blob := env.blob(e.blobId);
    match error
    case InvalidManifest(path) => path == e.path && NameOf(path) == "package.json" && !env.manifest(blob).Record?
    case ReviewLicense(path) =>
      path == e.path && NameOf(path) == "package.json" && env.manifest(blob) == Record(Different)
    case ReviewTerms(path) => path == e.path && IsLicenseCopy(path) && env.normalized(blob) != env.normalized(license)
    case _ => false
  }

  /** The files of the entries that are not kept back, in order. */
  function WantedFiles(env: Env, exclusions: seq<string>, license: Bytes, entries: seq<Entry>): seq<File> {
    if entries == [] then []
    else (if KeptBack(exclusions, entries[0].path) then []
          else [File(entries[0].path, entries[0].mode, Wanted(env, license, entries[0]))])
         + WantedFiles(env, exclusions, license, entries[1..])
  }

  function AllChanges(env: Env, exclusions: seq<string>, license: Bytes, entries: seq<Entry>): seq<Transformation> {
    if entries == [] then []
    else (if KeptBack(exclusions, entries[0].path) then [] else Changes(env, license, entries[0]))
         + AllChanges(env, exclusions, license, entries[1..])
  }

  ghost predicate AllReviewed(env: Env, exclusions: seq<string>, license: Bytes, entries: seq<Entry>) {
    forall i :: 0 <= i < |entries| && !KeptBack(exclusions, entries[i].path) ==> Reviewed(env, license, entries[i])
  }

  lemma ReviewedUnfold(env: Env, exclusions: seq<string>, license: Bytes, entries: seq<Entry>)
    requires entries != []
    ensures AllReviewed(env, exclusions, license, entries) <==>
            (KeptBack(exclusions, entries[0].path) || Reviewed(env, license, entries[0]))
            && AllReviewed(env, exclusions, license, entries[1..])
  {
    assert entries == [entries[0]] + entries[1..];
  }

  ghost predicate SomeExplains(env: Env, exclusions: seq<string>, license: Bytes, error: Error, entries: seq<Entry>) {
    exists i :: 0 <= i < |entries| && !KeptBack(exclusions, entries[i].path) && Explains(env, license, error, entries[i])
  }

  lemma {:induction false} EntriesAre(env: Env, exclusions: seq<string>, license: Bytes, st: Export, entries: seq<Entry>)
    requires IsTree(entries) && Clear(st.files, entries)
    ensures ExportEntries(env, exclusions, license, st, entries).Ok? <==> AllReviewed(env, exclusions, license, entries)
    ensures AllReviewed(env, exclusions, license, entries) ==>
              var done := ExportEntries(env, exclusions, license, st, entries).value;
              && done.files == st.files + WantedFiles(env, exclusions, license, entries)
              && done.transformations == st.transformations + AllChanges(env, exclusions, license, entries)
    ensures !AllReviewed(env, exclusions, license, entries) ==>
              SomeExplains(env, exclusions, license, ExportEntries(env, exclusions, license, st, entries).error, entries)
    decreases |entries|
  {
    if entries == [] {
      assert st.files + [] == st.files && st.transformations + [] == st.transformations;
    } else {
      var e := entries[0];
      KeptBackIff(exclusions, e.path);
      ReviewedUnfold(env, exclusions, license, entries);
      assert IsTree(entries[1..]);
      if KeptBack(exclusions, e.path) {
        RestAre(env, exclusions, license, st, st.(excluded := st.excluded + [e.path]), entries, [], []);
      } else {
        assert !Blocked(st.files, e.path);
        EntryIs(env, exclusions, license, st, e);
        if Reviewed(env, license, e) {
          var next := ExportEntry(env, exclusions, license, st, e).value;
          RestAre(env, exclusions, license, st, next, entries,
                  [File(e.path, e.mode, Wanted(env, license, e))], Changes(env, license, e));
        }
      }
    }
  }

  /** The entries after the first one. */
  lemma {:induction false} RestAre(
    env: Env, exclusions: seq<string>, license: Bytes, st: Export, next: Export, entries: seq<Entry>,
    file: seq<File>, changes: seq<Transformation>)
    requires entries != [] && IsTree(entries) && IsTree(entries[1..]) && Clear(st.files, entries)
    requires next.files == st.files + file && next.transformations == st.transformations + changes
    requires |file| <= 1 && forall i :: 0 <= i < |file| ==> file[i].path == entries[0].path
    ensures ExportEntries(env, exclusions, license, next, entries[1..]).Ok? <==>
            AllReviewed(env, exclusions, license, entries[1..])
    ensures AllReviewed(env, exclusions, license, entries[1..]) ==>
              var done := ExportEntries(env, exclusions, license, next, entries[1..]).value;
              && done.files == st.files + (file + WantedFiles(env, exclusions, license, entries[1..]))
              && done.transformations == st.transformations + (changes + AllChanges(env, exclusions, license, entries[1..]))
    ensures !AllReviewed(env, exclusions, license, entries[1..]) ==>
              SomeExplains(env, exclusions, license,
                           ExportEntries(env, exclusions, license, next, entries[1..]).error, entries)
    decreases |entries|, 0
  {
    assert Clear(next.files, entries[1..]) by {
      forall i, j | 0 <= i < |next.files| && 0 <= j < |entries[1..]|
        ensures !Overlap(next.files[i].path, entries[1..][j].path)
      {
        assert entries[1..][j] == entries[j + 1];
        if i >= |st.files| { assert next.files[i].path == entries[0].path; }
      }
    }
    EntriesAre(env, exclusions, license, next, entries[1..]);
    if AllReviewed(env, exclusions, license, entries[1..]) {
      Associate(st.files, file, WantedFiles(env, exclusions, license, entries[1..]));
      Associate(st.transformations, changes, AllChanges(env, exclusions, license, entries[1..]));
    } else {
      var error := ExportEntries(env, exclusions, license, next, entries[1..]).error;
      var i :| 0 <= i < |entries[1..]| && !KeptBack(exclusions, entries[1..][i].path)
               && Explains(env, license, error, entries[1..][i]);
      assert entries[i + 1] == entries[1..][i];
    }
  }

  // ----- The licences that are added -----

  predicate StrictlyBelow(path: string, root: string) {
    Within(path, root) && path != root
  }

  ghost predicate Unobstructed(files: seq<File>, place: string) {
    forall i :: 0 <= i < |files| ==> !StrictlyBelow(files[i].path, place)
  }

  /** Every root is the directory of a manifest among the files. */
  ghost predicate RootsHaveManifests(files: seq<File>, roots: seq<string>) {
    forall k :: 0 <= k < |roots| ==> HasManifest(files, roots[k])
  }

  ghost predicate HasManifest(files: seq<File>, root: string) {
    exists i :: 0 <= i < |files| && ManifestOf(files[i].path, root)
  }

  predicate ManifestOf(path: string, root: string) {
    IsPackage(path) && SafePath(path) && Dirname(path) == root
  }

  ghost predicate Incomparable(files: seq<File>) {
    forall i, j :: 0 <= i < j < |files| ==> !Overlap(files[i].path, files[j].path)
  }

  /** A place for a licence is blocked exactly by a file below it. */
  lemma BlockedIff(files: seq<File>, root: string)
    requires Incomparable(files) && HasManifest(files, root) && !HasFile(files, LicensePath(root))
    ensures Blocked(files, LicensePath(root)) <==> !Unobstructed(files, LicensePath(root))
  {
    var place := LicensePath(root);
    var m :| 0 <= m < |files| && ManifestOf(files[m].path, root);
    forall i | 0 <= i < |files| && Overlap(files[i].path, place) ensures StrictlyBelow(files[i].path, place) {
      if Within(place, files[i].path) {
        LicenseStaysPublic(files[m].path, files[i].path);
        assert Overlap(files[m].path, files[i].path) && Overlap(files[i].path, files[m].path);
        assert i == m;
        LicenseNotBelowManifest(files[m].path, root);
      }
    }
    if i :| 0 <= i < |files| && StrictlyBelow(files[i].path, place) { assert Overlap(files[i].path, place); }
  }

  lemma LicenseNotBelowManifest(path: string, root: string)
    requires ManifestOf(path, root)
    ensures !Within(LicensePath(root), path)
  {
    if path == "package.json" {
      LicenseAtRoot();
    } else {
      var dir := path[..|path| - |"/package.json"|];
      assert path == dir + "/package.json";
      LicenseBeside(dir);
    }
  }

  ghost predicate AllUnobstructed(files: seq<File>, roots: seq<string>) {
    forall k :: 0 <= k < |roots| ==> Unobstructed(files, LicensePath(roots[k]))
  }

  lemma UnobstructedUnfold(files: seq<File>, roots: seq<string>)
    requires roots != []
    ensures AllUnobstructed(files, roots) <==>
            Unobstructed(files, LicensePath(roots[0])) && AllUnobstructed(files, roots[1..])
  {
    assert roots == [roots[0]] + roots[1..];
  }

  /** A licence that is there already has nothing below it. */
  lemma PresentIsUnobstructed(files: seq<File>, place: string)
    requires Incomparable(files) && HasFile(files, place)
    ensures Unobstructed(files, place)
  {
    var j :| 0 <= j < |files| && files[j].path == place;
    forall i | 0 <= i < |files| ensures !StrictlyBelow(files[i].path, place) {
      if StrictlyBelow(files[i].path, place) {
        assert Overlap(files[i].path, files[j].path) && Overlap(files[j].path, files[i].path);
        assert false;
      }
    }
  }

  /** Where the place of a licence is below another, its manifest is too. */
  lemma LicenseBelow(files: seq<File>, root: string, other: string)
    requires HasManifest(files, root) && StrictlyBelow(LicensePath(root), LicensePath(other))
    ensures !Unobstructed(files, LicensePath(other))
  {
    var m :| 0 <= m < |files| && ManifestOf(files[m].path, root);
    LicenseStaysPublic(files[m].path, LicensePath(other));
    LicensePathIs(other);
    assert StrictlyBelow(files[m].path, LicensePath(other));
  }

  /** An added licence obstructs no place that was not obstructed by its manifest before. */
  lemma AddingObstructsNothing(files: seq<File>, added: File, root: string, roots: seq<string>)
    requires HasManifest(files, root) && added.path == LicensePath(root)
    ensures forall k :: 0 <= k < |roots| ==>
              (Unobstructed(files + [added], LicensePath(roots[k])) <==> Unobstructed(files, LicensePath(roots[k])))
  {
    forall k | 0 <= k < |roots|
      ensures Unobstructed(files + [added], LicensePath(roots[k])) <==> Unobstructed(files, LicensePath(roots[k]))
    {
      var place := LicensePath(roots[k]);
      if StrictlyBelow(added.path, place) { LicenseBelow(files, root, roots[k]); }
      assert forall i :: 0 <= i < |files| ==> (files + [added])[i] == files[i];
    }
  }

  lemma HasManifestMore(files: seq<File>, added: File, roots: seq<string>)
    requires RootsHaveManifests(files, roots)
    ensures RootsHaveManifests(files + [added], roots)
  {
    forall k | 0 <= k < |roots| ensures HasManifest(files + [added], roots[k]) {
      assert HasManifest(files, roots[k]);
      var i :| 0 <= i < |files| && ManifestOf(files[i].path, roots[k]);
      assert (files + [added])[i] == files[i];
    }
  }

  /** The licences can be added exactly if no place is obstructed; otherwise the error names such a place. */
  lemma {:induction false} AddedIff(license: Bytes, st: Export, roots: seq<string>)
    requires Incomparable(st.files) && RootsHaveManifests(st.files, roots)
    ensures AddLicenses(license, st, roots).Ok? <==> AllUnobstructed(st.files, roots)
    ensures AddLicenses(license, st, roots).Err? ==>
              exists k :: 0 <= k < |roots| && !Unobstructed(st.files, LicensePath(roots[k]))
                          && AddLicenses(license, st, roots).error == AlreadyThere(LicensePath(roots[k]))
    decreases |roots|
  {
    if roots != [] {
      var root, place := roots[0], LicensePath(roots[0]);
      assert RootsHaveManifests(st.files, roots[1..]);
      UnobstructedUnfold(st.files, roots);
      assert HasManifest(st.files, root);
      if HasFile(st.files, place) {
        PresentIsUnobstructed(st.files, place);
        AddedIff(license, st, roots[1..]);
        LaterPlace(license, st, st, roots);
      } else {
        BlockedIff(st.files, root);
        if Unobstructed(st.files, place) {
          var next := OneAdded(license, st, roots);
          AddedIff(license, next, roots[1..]);
          LaterPlace(license, st, next, roots);
        }
      }
    }
  }

  lemma OneAdded(license: Bytes, st: Export, roots: seq<string>) returns (next: Export)
    requires Incomparable(st.files) && RootsHaveManifests(st.files, roots) && roots != []
    requires !HasFile(st.files, LicensePath(roots[0])) && !Blocked(st.files, LicensePath(roots[0]))
    ensures AddLicense(license, st, roots[0]) == Ok(next) && Incomparable(next.files)
    ensures RootsHaveManifests(next.files, roots[1..])
    ensures forall k :: 0 <= k < |roots[1..]| ==>
              (Unobstructed(next.files, LicensePath(roots[1..][k])) <==> Unobstructed(st.files, LicensePath(roots[1..][k])))
  {
    next := AddLicense(license, st, roots[0]).value;
    var added := File(LicensePath(roots[0]), "100644", license);
    assert next.files == st.files + [added];
    assert HasManifest(st.files, roots[0]);
    forall k | 0 <= k < |roots[1..]| ensures HasManifest(st.files, roots[1..][k]) {
      assert HasManifest(st.files, roots[k + 1]);
    }
    HasManifestMore(st.files, added, roots[1..]);
    AddingObstructsNothing(st.files, added, roots[0], roots[1..]);
  }

  lemma LaterPlace(license: Bytes, st: Export, next: Export, roots: seq<string>)
    requires roots != [] && AddLicense(license, st, roots[0]) == Ok(next)
    requires forall k :: 0 <= k < |roots[1..]| ==>
               (Unobstructed(next.files, LicensePath(roots[1..][k])) <==> Unobstructed(st.files, LicensePath(roots[1..][k])))
    requires AddLicenses(license, next, roots[1..]).Err? ==>
               exists k :: 0 <= k < |roots[1..]| && !Unobstructed(next.files, LicensePath(roots[1..][k]))
                           && AddLicenses(license, next, roots[1..]).error == AlreadyThere(LicensePath(roots[1..][k]))
    ensures AddLicenses(license, st, roots).Err? ==>
              exists k :: 0 <= k < |roots| && !Unobstructed(st.files, LicensePath(roots[k]))
                          && AddLicenses(license, st, roots).error == AlreadyThere(LicensePath(roots[k]))
  {
    if AddLicenses(license, next, roots[1..]).Err? {
      var k :| 0 <= k < |roots[1..]| && !Unobstructed(next.files, LicensePath(roots[1..][k]))
               && AddLicenses(license, next, roots[1..]).error == AlreadyThere(LicensePath(roots[1..][k]));
      assert roots[k + 1] == roots[1..][k];
    }
  }

  // ----- When a snapshot is made, and what it is -----

  predicate WrittenEntry(exclusions: seq<string>, e: Entry) {
    !KeptBack(exclusions, e.path)
  }

  lemma {:induction false} WantedPaths(env: Env, exclusions: seq<string>, license: Bytes, entries: seq<Entry>, path: string)
    ensures HasFile(WantedFiles(env, exclusions, license, entries), path) <==>
            exists j :: 0 <= j < |entries| && entries[j].path == path && WrittenEntry(exclusions, entries[j])
  {
    if entries != [] {
      var e := entries[0];
      var first := if KeptBack(exclusions, e.path) then [] else [File(e.path, e.mode, Wanted(env, license, e))];
      WantedPaths(env, exclusions, license, entries[1..], path);
      HasFileConcat(first, WantedFiles(env, exclusions, license, entries[1..]), path);
      assert HasFile(first, path) <==> e.path == path && WrittenEntry(exclusions, e) by {
        if first != [] { assert first[0].path == e.path; }
      }
      assert entries == [e] + entries[1..];
      assert forall j :: 0 <= j < |entries[1..]| ==> entries[1..][j] == entries[j + 1];
    }
  }

  lemma HasFileConcat(a: seq<File>, b: seq<File>, path: string)
    ensures HasFile(a + b, path) <==> HasFile(a, path) || HasFile(b, path)
  {
    if i :| 0 <= i < |a| && a[i].path == path { assert (a + b)[i].path == path; }
    if i :| 0 <= i < |b| && b[i].path == path { assert (a + b)[|a| + i].path == path; }
  }

  lemma {:induction false} WantedIncomparable(env: Env, exclusions: seq<string>, license: Bytes, entries: seq<Entry>)
    requires IsTree(entries)
    ensures Incomparable(WantedFiles(env, exclusions, license, entries))
  {
    if entries != [] {
      var rest := WantedFiles(env, exclusions, license, entries[1..]);
      assert IsTree(entries[1..]);
      WantedIncomparable(env, exclusions, license, entries[1..]);
      forall i | 0 <= i < |rest| ensures !Overlap(entries[0].path, rest[i].path) {
        WantedPaths(env, exclusions, license, entries[1..], rest[i].path);
        assert HasFile(rest, rest[i].path);
        var j :| 0 <= j < |entries[1..]| && entries[1..][j].path == rest[i].path;
        assert entries[j + 1] == entries[1..][j];
      }
    }
  }

  /** No written file lies below the place where the licence of a written manifest belongs. */
  ghost predicate PlacesFree(exclusions: seq<string>, entries: seq<Entry>) {
    forall i, j :: 0 <= i < |entries| && 0 <= j < |entries|
                   && NameOf(entries[i].path) == "package.json"
                   && WrittenEntry(exclusions, entries[i]) && WrittenEntry(exclusions, entries[j]) ==>
      !StrictlyBelow(entries[j].path, LicensePath(Dirname(entries[i].path)))
  }

  ghost predicate AllSafe(entries: seq<Entry>) {
    forall i :: 0 <= i < |entries| ==> SafePath(entries[i].path)
  }

  /** The roots remembered by the first loop are the directories of the written manifests. */
  lemma RootsAre(env: Env, exclusions: seq<string>, license: Bytes, entries: seq<Entry>)
    requires ExportEntries(env, exclusions, license, Nothing, entries).Ok? && RootIsLicense(env, license, entries)
    requires IsTree(entries) && AllSafe(entries)
    ensures var st := ExportEntries(env, exclusions, license, Nothing, entries).value;
            RootsHaveManifests(st.files, st.packageRoots)
    ensures var st := ExportEntries(env, exclusions, license, Nothing, entries).value;
            AllUnobstructed(st.files, st.packageRoots) <==> PlacesFree(exclusions, entries)
  {
    var st := ExportEntries(env, exclusions, license, Nothing, entries).value;
    EntriesAre(env, exclusions, license, Nothing, entries);
    assert st.files == WantedFiles(env, exclusions, license, entries);
    forall k | 0 <= k < |st.packageRoots|
      ensures HasManifest(st.files, st.packageRoots[k])
      ensures PlacesFree(exclusions, entries) ==> Unobstructed(st.files, LicensePath(st.packageRoots[k]))
    {
      RootHasManifest(env, exclusions, license, entries, st.packageRoots[k]);
    }
    if AllUnobstructed(st.files, st.packageRoots) {
      EntriesKeep(env, exclusions, license, Nothing, entries);
      forall i, j | 0 <= i < |entries| && 0 <= j < |entries| && NameOf(entries[i].path) == "package.json"
                    && WrittenEntry(exclusions, entries[i]) && WrittenEntry(exclusions, entries[j])
        ensures !StrictlyBelow(entries[j].path, LicensePath(Dirname(entries[i].path)))
      {
        PlaceOfEntry(env, exclusions, license, entries, st, i, j);
      }
    }
  }

  lemma RootHasManifest(env: Env, exclusions: seq<string>, license: Bytes, entries: seq<Entry>, root: string)
    requires ExportEntries(env, exclusions, license, Nothing, entries).Ok? && AllSafe(entries)
    requires root in ExportEntries(env, exclusions, license, Nothing, entries).value.packageRoots
    ensures HasManifest(WantedFiles(env, exclusions, license, entries), root)
    ensures PlacesFree(exclusions, entries) ==>
              Unobstructed(WantedFiles(env, exclusions, license, entries), LicensePath(root))
  {
    RootsFromManifests(env, exclusions, license, Nothing, entries, root);
    var i :| 0 <= i < |entries| && IsManifestIn(root, exclusions, entries[i]);
    KeptBackIff(exclusions, entries[i].path);
    ManifestIff(entries[i].path);
    ManifestIsWanted(env, exclusions, license, entries, i, root);
    if PlacesFree(exclusions, entries) { PlaceIsFree(env, exclusions, license, entries, i, root); }
  }

  lemma ManifestIsWanted(env: Env, exclusions: seq<string>, license: Bytes, entries: seq<Entry>, i: nat, root: string)
    requires i < |entries| && WrittenEntry(exclusions, entries[i]) && ManifestOf(entries[i].path, root)
    ensures HasManifest(WantedFiles(env, exclusions, license, entries), root)
  {
    var files := WantedFiles(env, exclusions, license, entries);
    WantedPaths(env, exclusions, license, entries, entries[i].path);
    var m :| 0 <= m < |files| && files[m].path == entries[i].path;
    assert ManifestOf(files[m].path, root);
  }

  lemma PlaceIsFree(env: Env, exclusions: seq<string>, license: Bytes, entries: seq<Entry>, i: nat, root: string)
    requires i < |entries| && WrittenEntry(exclusions, entries[i]) && NameOf(entries[i].path) == "package.json"
    requires PlacesFree(exclusions, entries) && root == Dirname(entries[i].path)
    ensures Unobstructed(WantedFiles(env, exclusions, license, entries), LicensePath(root))
  {
    var files := WantedFiles(env, exclusions, license, entries);
    forall f | 0 <= f < |files| ensures !StrictlyBelow(files[f].path, LicensePath(root)) {
      assert HasFile(files, files[f].path);
      WantedPaths(env, exclusions, license, entries, files[f].path);
      var j :| 0 <= j < |entries| && entries[j].path == files[f].path && WrittenEntry(exclusions, entries[j]);
    }
  }

  lemma PlaceOfEntry(
    env: Env, exclusions: seq<string>, license: Bytes, entries: seq<Entry>, st: Export, i: nat, j: nat)
    requires st.files == WantedFiles(env, exclusions, license, entries) && RootsKnown(st)
    requires AllUnobstructed(st.files, st.packageRoots)
    requires i < |entries| && j < |entries| && NameOf(entries[i].path) == "package.json"
    requires WrittenEntry(exclusions, entries[i]) && WrittenEntry(exclusions, entries[j])
    ensures !StrictlyBelow(entries[j].path, LicensePath(Dirname(entries[i].path)))
  {
    ManifestIff(entries[i].path);
    WantedPaths(env, exclusions, license, entries, entries[i].path);
    WantedPaths(env, exclusions, license, entries, entries[j].path);
    var m :| 0 <= m < |st.files| && st.files[m].path == entries[i].path;
    var f :| 0 <= f < |st.files| && st.files[f].path == entries[j].path;
    var k :| 0 <= k < |st.packageRoots| && st.packageRoots[k] == Dirname(entries[i].path);
    assert Unobstructed(st.files, LicensePath(st.packageRoots[k]));
  }

  /** A regular file, or one that is kept back, under a path without empty, dotted or Git segments. */
  ghost predicate EntryFits(exclusions: seq<string>, e: Entry) {
    && e.kind == "blob" && (e.mode == "100644" || e.mode == "100755" || KeptBack(exclusions, e.path))
    && '\\' !in e.path && PlainParts(e.path)
  }

  predicate PlainPart(part: string) {
    part !in ["", ".", "..", ".git"]
  }

  ghost predicate PlainParts(path: string) {
    forall k :: 0 <= k < |Split(path)| ==> PlainPart(Split(path)[k])
  }

  lemma PlainPartIff(part: string)
    ensures PlainPart(part) <==> IsSafePart(part)
  {}

  lemma PlainPartsIff(path: string)
    ensures PlainParts(path) <==> SafeParts(path)
  {
    forall k | 0 <= k < |Split(path)| ensures PlainPart(Split(path)[k]) <==> IsSafePart(Split(path)[k]) {
      PlainPartIff(Split(path)[k]);
    }
  }

  lemma SafePathIff(path: string)
    ensures SafePath(path) <==> '\\' !in path && PlainParts(path)
  {
    PlainPartsIff(path);
    if path == "" {
      assert !PlainPart(Split(path)[0]);
    } else if path[0] == '/' {
      FirstPiece(path);
      assert !PlainPart(Split(path)[0]);
    }
  }

  predicate ExplicitChar(c: char) {
    c !in ['*', '?', '!', ':', '[', ']', '\\'] && c as int >= 32
  }

  /** An input is explicit if it holds no pattern, control or drive character, no backslash and no such segment. */
  lemma ExplicitIff(input: string)
    ensures IsExplicit(input) <==>
            && (forall i :: 0 <= i < |input| ==> ExplicitChar(input[i]))
            && PlainParts(input)
  {
    SafePathIff(input);
    forall i | 0 <= i < |input| ensures ExplicitChar(input[i]) <==>
      !IsPatternChar(input[i]) && input[i] != '\\' && input[i] as int >= 32 {}
    if '\\' in input {
      var i :| 0 <= i < |input| && input[i] == '\\';
      assert !ExplicitChar(input[i]);
    }
  }

  /** Every error of the allowlist check names an input and what is wrong with it. */
  lemma {:induction false} InputErrorsTell(inputs: seq<string>, privateRoots: seq<string>, error: InputError)
    requires error in ValidatePublicSnapshotInputs(inputs, privateRoots)
    ensures error.input in inputs
    ensures match error
            case NotExplicit(input) => !IsExplicit(input)
            case OverlapsPrivate(input, root) =>
              IsExplicit(input) && root in privateRoots && !NoCommonPath(input, root)
  {
    if error in ValidateInput(inputs[0], privateRoots) {
      if error.OverlapsPrivate? { OverlapMeansCommonPath(error.input, error.root); }
    } else {
      InputErrorsTell(inputs[1..], privateRoots, error);
    }
  }

  ghost predicate AllFit(exclusions: seq<string>, entries: seq<Entry>) {
    forall i :: 0 <= i < |entries| ==> EntryFits(exclusions, entries[i])
  }

  lemma EntryFitsIff(exclusions: seq<string>, e: Entry)
    ensures CheckEntry(exclusions, e) == None <==> EntryFits(exclusions, e)
    ensures CheckEntry(exclusions, e).Some? ==>
              CheckEntry(exclusions, e).value == NotRegular(e.path) || CheckEntry(exclusions, e).value == UnsafePath(e.path)
    ensures CheckEntry(exclusions, e) == Some(UnsafePath(e.path)) ==> !SafePath(e.path)
  {
    SafePathIff(e.path);
    KeptBackIff(exclusions, e.path);
  }

  ghost predicate SomeUnfit(exclusions: seq<string>, error: Error, entries: seq<Entry>) {
    exists i :: 0 <= i < |entries| && !EntryFits(exclusions, entries[i])
                && (error == NotRegular(entries[i].path) || (error == UnsafePath(entries[i].path) && !SafePath(entries[i].path)))
  }

  lemma {:induction false} EntriesFitIff(exclusions: seq<string>, entries: seq<Entry>)
    ensures CheckEntries(exclusions, entries) == None <==> AllFit(exclusions, entries)
    ensures CheckEntries(exclusions, entries).Some? ==>
              SomeUnfit(exclusions, CheckEntries(exclusions, entries).value, entries)
  {
    if entries != [] {
      EntryFitsIff(exclusions, entries[0]);
      EntriesFitIff(exclusions, entries[1..]);
      assert entries == [entries[0]] + entries[1..];
      if CheckEntry(exclusions, entries[0]) == None && CheckEntries(exclusions, entries[1..]).Some? {
        var error := CheckEntries(exclusions, entries[1..]).value;
        var i :| 0 <= i < |entries[1..]| && !EntryFits(exclusions, entries[1..][i])
                 && (error == NotRegular(entries[1..][i].path)
                     || (error == UnsafePath(entries[1..][i].path) && !SafePath(entries[1..][i].path)));
        assert entries[i + 1] == entries[1..][i];
      }
    }
  }

  ghost predicate Reaches(input: string, entries: seq<Entry>) {
    exists j :: 0 <= j < |entries| && Inside(entries[j].path, input)
  }

  lemma ReachesIff(input: string, entries: seq<Entry>)
    ensures Populated(input, entries) <==> Reaches(input, entries)
  {
    forall j | 0 <= j < |entries| ensures Within(entries[j].path, input) <==> Inside(entries[j].path, input) {
      WithinIsInside(entries[j].path, input);
    }
  }

  lemma {:induction false} InputsReachIff(inputs: seq<string>, entries: seq<Entry>)
    ensures CheckInputs(inputs, entries) == None <==> forall i :: 0 <= i < |inputs| ==> Reaches(inputs[i], entries)
    ensures CheckInputs(inputs, entries).Some? ==>
              exists i :: 0 <= i < |inputs| && !Reaches(inputs[i], entries)
                          && CheckInputs(inputs, entries).value == InputMissing(inputs[i])
  {
    if inputs != [] {
      ReachesIff(inputs[0], entries);
      InputsReachIff(inputs[1..], entries);
      assert inputs == [inputs[0]] + inputs[1..];
      if Reaches(inputs[0], entries) && CheckInputs(inputs[1..], entries).Some? {
        var i :| 0 <= i < |inputs[1..]| && !Reaches(inputs[1..][i], entries)
                 && CheckInputs(inputs[1..], entries).value == InputMissing(inputs[1..][i]);
        assert inputs[i + 1] == inputs[1..][i];
      }
    }
  }

  lemma {:induction false} LicenseFoundIff(entries: seq<Entry>)
    ensures FindEntry(entries, "LICENSE.md").Some? <==> exists i :: 0 <= i < |entries| && entries[i].path == "LICENSE.md"
  {
    if entries != [] {
      LicenseFoundIff(entries[1..]);
      assert entries == [entries[0]] + entries[1..];
      if i :| 0 <= i < |entries[1..]| && entries[1..][i].path == "LICENSE.md" { assert entries[i + 1] == entries[1..][i]; }
    }
  }

  /** The bytes of the root licence. */
  function TheLicense(env: Env, entries: seq<Entry>): Bytes {
    match FindEntry(entries, "LICENSE.md")
    case Some(e) => env.blob(e.blobId)
    case None => ""
  }

  /** The checks before anything is written. */
  ghost predicate Admitted(
    exclusions: seq<string>, privateRoots: seq<string>, inputs: seq<string>, entries: seq<Entry>)
  {
    && (forall i :: 0 <= i < |inputs| ==> IsExplicit(inputs[i]) && Separated(inputs[i], privateRoots))
    && AllFit(exclusions, entries)
    && (forall i :: 0 <= i < |inputs| ==> Reaches(inputs[i], entries))
    && exists i :: 0 <= i < |entries| && entries[i].path == "LICENSE.md"
  }

  /**
   * A snapshot of a tree is made exactly if its inputs and entries are admitted, every written manifest and licence
   * copy has been reviewed, and no written file lies below the place of a licence.
   */
  lemma SnapshotMadeIff(
    env: Env, exclusions: seq<string>, privateRoots: seq<string>, inputs: seq<string>, entries: seq<Entry>)
    requires IsTree(entries)
    ensures Snapshot.Snapshot(env, exclusions, privateRoots, inputs, entries).Ok? <==>
            Admitted(exclusions, privateRoots, inputs, entries)
            && AllReviewed(env, exclusions, TheLicense(env, entries), entries) && PlacesFree(exclusions, entries)
  {
    InputsSeparated(inputs, privateRoots);
    EntriesFitIff(exclusions, entries);
    InputsReachIff(inputs, entries);
    LicenseFoundIff(entries);
    if Admitted(exclusions, privateRoots, inputs, entries) {
      TreeExportedIff(env, exclusions, entries);
    }
  }

  lemma TreeExportedIff(env: Env, exclusions: seq<string>, entries: seq<Entry>)
    requires IsTree(entries) && AllFit(exclusions, entries) && FindEntry(entries, "LICENSE.md").Some?
    ensures ExportTree(env, exclusions, TheLicense(env, entries), entries).Ok? <==>
            AllReviewed(env, exclusions, TheLicense(env, entries), entries) && PlacesFree(exclusions, entries)
  {
    var license := TheLicense(env, entries);
    RootLicense(env, entries);
    EntriesAre(env, exclusions, license, Nothing, entries);
    if AllReviewed(env, exclusions, license, entries) {
      var st := ExportEntries(env, exclusions, license, Nothing, entries).value;
      forall i | 0 <= i < |entries| ensures SafePath(entries[i].path) {
        assert EntryFits(exclusions, entries[i]);
        SafePathIff(entries[i].path);
      }
      RootsAre(env, exclusions, license, entries);
      WantedIncomparable(env, exclusions, license, entries);
      assert [] + WantedFiles(env, exclusions, license, entries) == WantedFiles(env, exclusions, license, entries);
      AddedIff(license, st, st.packageRoots);
    }
  }

  // ----- The licences that were added -----

  ghost predicate AddedOnly(license: Bytes, files: seq<File>, changes: seq<Transformation>) {
    && |files| == |changes|
    && forall i :: 0 <= i < |files| ==>
         && files[i] == File(files[i].path, "100644", license)
         && changes[i] == Transformation(files[i].path, CanonicalLicenseCopy, None)
  }

  lemma {:induction false} AddedAre(license: Bytes, st: Export, roots: seq<string>)
    returns (files: seq<File>, changes: seq<Transformation>)
    requires AddLicenses(license, st, roots).Ok?
    ensures AddLicenses(license, st, roots).value.files == st.files + files
    ensures AddLicenses(license, st, roots).value.transformations == st.transformations + changes
    ensures AddedOnly(license, files, changes)
    decreases |roots|
  {
    if roots == [] {
      files, changes := [], [];
    } else {
      var next := AddLicense(license, st, roots[0]).value;
      var file, change := OneIsAdded(license, st, roots[0]);
      var moreFiles, moreChanges := AddedAre(license, next, roots[1..]);
      Associate(st.files, file, moreFiles);
      Associate(st.transformations, change, moreChanges);
      files, changes := file + moreFiles, change + moreChanges;
      AddedConcat(license, file, change, moreFiles, moreChanges);
    }
  }

  lemma AddedConcat(
    license: Bytes, files: seq<File>, changes: seq<Transformation>, moreFiles: seq<File>, moreChanges: seq<Transformation>)
    requires AddedOnly(license, files, changes) && AddedOnly(license, moreFiles, moreChanges)
    ensures AddedOnly(license, files + moreFiles, changes + moreChanges)
  {}

  lemma OneIsAdded(license: Bytes, st: Export, root: string) returns (file: seq<File>, change: seq<Transformation>)
    requires AddLicense(license, st, root).Ok?
    ensures AddLicense(license, st, root).value.files == st.files + file
    ensures AddLicense(license, st, root).value.transformations == st.transformations + change
    ensures AddedOnly(license, file, change)
  {
    var place := LicensePath(root);
    if HasFile(st.files, place) {
      file, change := [], [];
    } else {
      file, change := [File(place, "100644", license)], [Transformation(place, CanonicalLicenseCopy, None)];
    }
  }

  /**
   * A snapshot holds, in order, the wanted form of every entry that is not kept back, and then the licences that were
   * added; its record holds, in the same order, what was changed and what was added, and nothing else.
   */
  lemma SnapshotIs(
    env: Env, exclusions: seq<string>, privateRoots: seq<string>, inputs: seq<string>, entries: seq<Entry>)
    returns (files: seq<File>, changes: seq<Transformation>)
    requires IsTree(entries) && Snapshot.Snapshot(env, exclusions, privateRoots, inputs, entries).Ok?
    ensures var license, made := TheLicense(env, entries),
                                 Snapshot.Snapshot(env, exclusions, privateRoots, inputs, entries).value;
            && made.files == WantedFiles(env, exclusions, license, entries) + files
            && made.transformations == AllChanges(env, exclusions, license, entries) + changes
            && AddedOnly(license, files, changes)
  {
    var license := TheLicense(env, entries);
    EntriesAre(env, exclusions, license, Nothing, entries);
    var st := ExportEntries(env, exclusions, license, Nothing, entries).value;
    assert st.files == WantedFiles(env, exclusions, license, entries);
    assert st.transformations == AllChanges(env, exclusions, license, entries);
    files, changes := AddedAre(license, st, st.packageRoots);
  }

  // ----- What an error says -----

  ghost predicate Tells(
    env: Env, exclusions: seq<string>, privateRoots: seq<string>, inputs: seq<string>, entries: seq<Entry>, error: Error)
  {
    match error
    case InvalidInputs(_) =>
      exists i :: 0 <= i < |inputs| && !(IsExplicit(inputs[i]) && Separated(inputs[i], privateRoots))
    case NotRegular(_) => SomeUnfit(exclusions, error, entries)
    case UnsafePath(_) => SomeUnfit(exclusions, error, entries)
    case InputMissing(input) => input in inputs && !Reaches(input, entries)
    case NoLicense => forall i :: 0 <= i < |entries| ==> entries[i].path != "LICENSE.md"
    case AlreadyThere(place) =>
      exists i, j :: 0 <= i < |entries| && 0 <= j < |entries| && IsManifestIn(Dirname(entries[i].path), exclusions, entries[i])
                     && place == LicensePath(Dirname(entries[i].path)) && StrictlyBelow(entries[j].path, place)
    case _ => SomeExplains(env, exclusions, TheLicense(env, entries), error, entries)
  }

  /** A snapshot that is refused names what is wrong. */
  lemma ErrorTells(
    env: Env, exclusions: seq<string>, privateRoots: seq<string>, inputs: seq<string>, entries: seq<Entry>)
    requires IsTree(entries) && Snapshot.Snapshot(env, exclusions, privateRoots, inputs, entries).Err?
    ensures Tells(env, exclusions, privateRoots, inputs, entries,
                  Snapshot.Snapshot(env, exclusions, privateRoots, inputs, entries).error)
  {
    InputsSeparated(inputs, privateRoots);
    EntriesFitIff(exclusions, entries);
    InputsReachIff(inputs, entries);
    LicenseFoundIff(entries);
    if Admitted(exclusions, privateRoots, inputs, entries) {
      ExportErrorTells(env, exclusions, privateRoots, inputs, entries);
    }
  }

  lemma ExportErrorTells(
    env: Env, exclusions: seq<string>, privateRoots: seq<string>, inputs: seq<string>, entries: seq<Entry>)
    requires IsTree(entries) && AllFit(exclusions, entries) && FindEntry(entries, "LICENSE.md").Some?
    requires ExportTree(env, exclusions, TheLicense(env, entries), entries).Err?
    ensures Tells(env, exclusions, privateRoots, inputs, entries,
                  ExportTree(env, exclusions, TheLicense(env, entries), entries).error)
  {
    var license := TheLicense(env, entries);
    RootLicense(env, entries);
    EntriesAre(env, exclusions, license, Nothing, entries);
    if AllReviewed(env, exclusions, license, entries) {
      var st := ExportEntries(env, exclusions, license, Nothing, entries).value;
      assert st.files == WantedFiles(env, exclusions, license, entries);
      forall i | 0 <= i < |entries| ensures SafePath(entries[i].path) {
        assert EntryFits(exclusions, entries[i]);
        SafePathIff(entries[i].path);
      }
      RootsAre(env, exclusions, license, entries);
      WantedIncomparable(env, exclusions, license, entries);
      AddedIff(license, st, st.packageRoots);
      var k :| 0 <= k < |st.packageRoots| && !Unobstructed(st.files, LicensePath(st.packageRoots[k]))
               && AddLicenses(license, st, st.packageRoots).error == AlreadyThere(LicensePath(st.packageRoots[k]));
      ObstructedTells(env, exclusions, license, entries, st.packageRoots[k]);
    } else {
      UnreviewedTells(env, exclusions, privateRoots, inputs, entries,
                       ExportEntries(env, exclusions, license, Nothing, entries).error);
    }
  }

  lemma UnreviewedTells(
    env: Env, exclusions: seq<string>, privateRoots: seq<string>, inputs: seq<string>, entries: seq<Entry>, error: Error)
    requires SomeExplains(env, exclusions, TheLicense(env, entries), error, entries)
    ensures Tells(env, exclusions, privateRoots, inputs, entries, error)
  {}

  lemma ObstructedTells(env: Env, exclusions: seq<string>, license: Bytes, entries: seq<Entry>, root: string)
    requires ExportEntries(env, exclusions, license, Nothing, entries).Ok?
    requires root in ExportEntries(env, exclusions, license, Nothing, entries).value.packageRoots
    requires !Unobstructed(WantedFiles(env, exclusions, license, entries), LicensePath(root))
    ensures exists i, j :: 0 <= i < |entries| && 0 <= j < |entries|
                           && IsManifestIn(Dirname(entries[i].path), exclusions, entries[i])
                           && LicensePath(root) == LicensePath(Dirname(entries[i].path))
                           && StrictlyBelow(entries[j].path, LicensePath(root))
  {
    var files := WantedFiles(env, exclusions, license, entries);
    RootsFromManifests(env, exclusions, license, Nothing, entries, root);
    var i :| 0 <= i < |entries| && IsManifestIn(root, exclusions, entries[i]);
    var f :| 0 <= f < |files| && StrictlyBelow(files[f].path, LicensePath(root));
    WantedPaths(env, exclusions, license, entries, files[f].path);
    var j :| 0 <= j < |entries| && entries[j].path == files[f].path;
    assert IsManifestIn(Dirname(entries[i].path), exclusions, entries[i]);
  }
}
