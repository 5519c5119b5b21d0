/**
 * The public source snapshot (scripts/create-public-source-snapshot.ts:20-69, 127-296).
 *
 * Git's answers, JSON and the texts of licences are parameters: `Env` gives a blob's bytes, what its
 * package manifest says, the same manifest with a licence added, and a licence text normalized.
 */
module Snapshot {
  import opened Wrappers
  import opened Seqs
  import opened Texts

  type Bytes = string

  predicate Within(path: string, root: string) {
    path == root || (|path| > |root| && path[..|root|] == root && path[|root|] == '/')
  }

  predicate Overlap(a: string, b: string) {
    Within(a, b) || Within(b, a)
  }

  // ----- The allowlist -----

  predicate IsSafePart(part: string) {
    part != "" && part != "." && part != ".." && part != ".git"
  }

  predicate IsPatternChar(c: char) {
    c == '*' || c == '?' || c == '!' || c == '[' || c == ']' || c == ':'
  }

  predicate SafeParts(path: string) {
    forall i :: 0 <= i < |Split(path)| ==> IsSafePart(Split(path)[i])
  }

  /** An explicit positive path. */
  predicate IsExplicit(input: string) {
    && input != "" && input[0] != '/' && '\\' !in input
    && (forall i :: 0 <= i < |input| ==> !IsPatternChar(input[i]) && input[i] as int >= 32)
    && SafeParts(input)
  }

  datatype InputError = NotExplicit(input: string) | OverlapsPrivate(input: string, root: string)

  function FirstOverlap(input: string, privateRoots: seq<string>): (root: Option<string>)
    ensures root.Some? ==> root.value in privateRoots && Overlap(root.value, input)
    ensures root.None? ==> forall r :: r in privateRoots ==> !Overlap(r, input)
  {
    if privateRoots == [] then None
    else if Overlap(privateRoots[0], input) then Some(privateRoots[0])
    else FirstOverlap(input, privateRoots[1..])
  }

  function ValidateInput(input: string, privateRoots: seq<string>): seq<InputError> {
    if !IsExplicit(input) then [NotExplicit(input)]
    else match FirstOverlap(input, privateRoots)
      case Some(root) => [OverlapsPrivate(input, root)]
      case None => []
  }

  function ValidatePublicSnapshotInputs(inputs: seq<string>, privateRoots: seq<string>): seq<InputError> {
    if inputs == [] then []
    else ValidateInput(inputs[0], privateRoots) + ValidatePublicSnapshotInputs(inputs[1..], privateRoots)
  }

  /** Two roots of one path are comparable. */
  lemma RootsComparable(path: string, a: string, b: string)
    requires Within(path, a) && Within(path, b)
    ensures Overlap(a, b)
  {
    if |a| < |b| {
      assert b == path[..|b|] && b[..|a|] == path[..|a|] && b[|a|] == path[|a|];
    } else if |b| < |a| {
      assert a == path[..|a|] && a[..|b|] == path[..|b|] && a[|b|] == path[|b|];
    }
  }

  ghost predicate NoCommonPath(input: string, root: string) {
    forall path :: !(Within(path, input) && Within(path, root))
  }

  lemma OverlapMeansCommonPath(input: string, root: string)
    ensures Overlap(root, input) <==> !NoCommonPath(input, root)
  {
    if Overlap(root, input) {
      var path := if Within(root, input) then root else input;
      assert Within(path, input) && Within(path, root);
    } else {
      forall path ensures !(Within(path, input) && Within(path, root)) {
        if Within(path, input) && Within(path, root) { RootsComparable(path, root, input); }
      }
    }
  }

  ghost predicate Separated(input: string, privateRoots: seq<string>) {
    forall root :: root in privateRoots ==> NoCommonPath(input, root)
  }

  /** The check reports nothing exactly if every input is explicit and no path lies under an input and a private root. */
  lemma {:induction false} InputsSeparated(inputs: seq<string>, privateRoots: seq<string>)
    ensures ValidatePublicSnapshotInputs(inputs, privateRoots) == [] <==>
            forall i :: 0 <= i < |inputs| ==> IsExplicit(inputs[i]) && Separated(inputs[i], privateRoots)
  {
    if inputs != [] {
      InputsSeparated(inputs[1..], privateRoots);
      assert inputs == [inputs[0]] + inputs[1..];
      forall root | root in privateRoots ensures Overlap(root, inputs[0]) <==> !NoCommonPath(inputs[0], root) {
        OverlapMeansCommonPath(inputs[0], root);
      }
      assert ValidateInput(inputs[0], privateRoots) == [] <==> IsExplicit(inputs[0]) && Separated(inputs[0], privateRoots);
    }
  }

  // ----- The tree's entries -----

  datatype Entry = Entry(mode: string, kind: string, blobId: string, path: string)

  datatype ManifestLicense = Absent | Canonical | Different

  datatype Manifest = NotJson | NotRecord | Record(license: ManifestLicense)

  datatype Env = Env(
    blob: string -> Bytes,
    manifest: Bytes -> Manifest,
    withLicense: Bytes -> Bytes,
    normalized: Bytes -> string)

  datatype Reason = PackageLicenseMetadata | CanonicalLicenseCopy

  datatype Transformation = Transformation(path: string, reason: Reason, source: Option<Bytes>)

  datatype File = File(path: string, mode: string, content: Bytes)

  datatype Export = Export(
    excluded: seq<string>, files: seq<File>, transformations: seq<Transformation>, packageRoots: seq<string>)

  datatype Error =
    | InvalidInputs(errors: seq<InputError>)
    | NotRegular(path: string)
    | UnsafePath(path: string)
    | InputMissing(input: string)
    | NoLicense
    | InvalidManifest(path: string)
    | ReviewLicense(path: string)
    | ReviewTerms(path: string)
    | AlreadyThere(path: string)

  predicate EndsWith(s: string, suffix: string) {
    |suffix| <= |s| && s[|s| - |suffix|..] == suffix
  }

  predicate ExcludedPath(exclusions: seq<string>, path: string) {
    (exists i :: 0 <= i < |exclusions| && Within(path, exclusions[i]))
    || path == "AGENTS.md" || EndsWith(path, "/AGENTS.md")
    || path == "CLAUDE.md" || EndsWith(path, "/CLAUDE.md")
  }

  predicate IsPackage(path: string) {
    path == "package.json" || EndsWith(path, "/package.json")
  }

  function LastSlash(path: string): (i: Option<nat>)
    ensures i.Some? ==> i.value < |path|
  {
    if path == "" then None
    else if path[|path| - 1] == '/' then Some(|path| - 1)
    else LastSlash(path[..|path| - 1])
  }

  function Dirname(path: string): string {
    match LastSlash(path)
    case None => "."
    case Some(i) => if i == 0 then "/" else path[..i]
  }

  function LicensePath(root: string): string {
    if root == "." then "LICENSE.md" else root + "/LICENSE.md"
  }

  /** The bytes to write, and what was changed to get them. */
  datatype Prepared = Prepared(content: Bytes, changes: seq<Transformation>)

  function PrepareManifest(env: Env, path: string, content: Bytes): Result<Prepared, Error> {
    if !IsPackage(path) then Ok(Prepared(content, []))
    else match env.manifest(content)
      case NotJson => Err(InvalidManifest(path))
      case NotRecord => Err(InvalidManifest(path))
      case Record(Different) => Err(ReviewLicense(path))
      case Record(Canonical) => Ok(Prepared(content, []))
      case Record(Absent) =>
        Ok(Prepared(env.withLicense(content), [Transformation(path, PackageLicenseMetadata, Some(content))]))
  }

  function PrepareLicense(env: Env, license: Bytes, path: string, content: Bytes): Result<Prepared, Error> {
    if !EndsWith(path, "/LICENSE.md") || content == license then Ok(Prepared(content, []))
    else if env.normalized(content) != env.normalized(license) then Err(ReviewTerms(path))
    else Ok(Prepared(license, [Transformation(path, CanonicalLicenseCopy, Some(content))]))
  }

  /** A file cannot be written where a file is, below a file, or where a directory is. */
  predicate Blocked(files: seq<File>, path: string) {
    exists i :: 0 <= i < |files| && Overlap(files[i].path, path)
  }

  function Write(st: Export, file: File): Result<Export, Error> {
    if Blocked(st.files, file.path) then Err(AlreadyThere(file.path))
    else Ok(st.(files := st.files + [file]))
  }

  function ExportEntry(env: Env, exclusions: seq<string>, license: Bytes, st: Export, e: Entry)
    : Result<Export, Error>
  {
    if ExcludedPath(exclusions, e.path) then Ok(st.(excluded := st.excluded + [e.path]))
    else match PrepareManifest(env, e.path, env.blob(e.blobId))
      case Err(error) => Err(error)
      case Ok(Prepared(manifest, changes)) =>
        match PrepareLicense(env, license, e.path, manifest)
        case Err(error) => Err(error)
        case Ok(Prepared(content, more)) =>
          Write(st.(packageRoots := st.packageRoots + if IsPackage(e.path) then [Dirname(e.path)] else [],
                    transformations := st.transformations + changes + more),
                File(e.path, e.mode, content))
  }

  /** The first loop. */
  function ExportEntries(env: Env, exclusions: seq<string>, license: Bytes, st: Export, entries: seq<Entry>)
    : Result<Export, Error>
    decreases |entries|
  {
    if entries == [] then Ok(st)
    else match ExportEntry(env, exclusions, license, st, entries[0])
      case Err(error) => Err(error)
      case Ok(next) => ExportEntries(env, exclusions, license, next, entries[1..])
  }

  predicate HasFile(files: seq<File>, path: string) {
    exists i :: 0 <= i < |files| && files[i].path == path
  }

  function AddLicense(license: Bytes, st: Export, root: string): Result<Export, Error> {
    var path := LicensePath(root);
    if HasFile(st.files, path) then Ok(st)
    else Write(st.(transformations := st.transformations + [Transformation(path, CanonicalLicenseCopy, None)]),
               File(path, "100644", license))
  }

  /** The second loop. */
  function AddLicenses(license: Bytes, st: Export, roots: seq<string>): Result<Export, Error>
    decreases |roots|
  {
    if roots == [] then Ok(st)
    else match AddLicense(license, st, roots[0])
      case Err(error) => Err(error)
      case Ok(next) => AddLicenses(license, next, roots[1..])
  }

  const Nothing := Export([], [], [], [])

  function ExportTree(env: Env, exclusions: seq<string>, license: Bytes, entries: seq<Entry>): Result<Export, Error> {
    match ExportEntries(env, exclusions, license, Nothing, entries)
    case Err(error) => Err(error)
    case Ok(st) => AddLicenses(license, st, st.packageRoots)
  }

  predicate IsRegular(e: Entry) {
    e.mode == "100644" || e.mode == "100755"
  }

  predicate SafePath(path: string) {
    path != "" && path[0] != '/' && '\\' !in path && SafeParts(path)
  }

  function CheckEntry(exclusions: seq<string>, e: Entry): Option<Error> {
    if e.path == "" || e.kind != "blob" || (!IsRegular(e) && !ExcludedPath(exclusions, e.path)) then
      Some(NotRegular(e.path))
    else if !SafePath(e.path) then Some(UnsafePath(e.path))
    else None
  }

  function CheckEntries(exclusions: seq<string>, entries: seq<Entry>): (error: Option<Error>)
    ensures error.None? ==> forall i :: 0 <= i < |entries| ==> SafePath(entries[i].path)
  {
    if entries == [] then None
    else match CheckEntry(exclusions, entries[0])
      case Some(error) => Some(error)
      case None => CheckEntries(exclusions, entries[1..])
  }

  predicate Populated(input: string, entries: seq<Entry>) {
    exists i :: 0 <= i < |entries| && Within(entries[i].path, input)
  }

  function CheckInputs(inputs: seq<string>, entries: seq<Entry>): Option<Error> {
    if inputs == [] then None
    else if !Populated(inputs[0], entries) then Some(InputMissing(inputs[0]))
    else CheckInputs(inputs[1..], entries)
  }

  function FindEntry(entries: seq<Entry>, path: string): (found: Option<Entry>)
    ensures found.Some? ==> found.value in entries && found.value.path == path
  {
    if entries == [] then None
    else if entries[0].path == path then Some(entries[0])
    else FindEntry(entries[1..], path)
  }

  function Snapshot(
    env: Env, exclusions: seq<string>, privateRoots: seq<string>, inputs: seq<string>, entries: seq<Entry>)
    : Result<Export, Error>
  {
    var errors := ValidatePublicSnapshotInputs(inputs, privateRoots);
    if errors != [] then Err(InvalidInputs(errors))
    else match CheckEntries(exclusions, entries)
      case Some(error) => Err(error)
      case None =>
        match CheckInputs(inputs, entries)
        case Some(error) => Err(error)
        case None =>
          match FindEntry(entries, "LICENSE.md")
          case None => Err(NoLicense)
          case Some(license) => ExportTree(env, exclusions, env.blob(license.blobId), entries)
  }

  // ----- What the loops keep -----

  function ExcludedPaths(exclusions: seq<string>, entries: seq<Entry>): seq<string> {
    if entries == [] then []
    else (if ExcludedPath(exclusions, entries[0].path) then [entries[0].path] else []) + ExcludedPaths(exclusions, entries[1..])
  }

  function WrittenPaths(exclusions: seq<string>, entries: seq<Entry>): seq<string> {
    if entries == [] then []
    else (if ExcludedPath(exclusions, entries[0].path) then [] else [entries[0].path]) + WrittenPaths(exclusions, entries[1..])
  }

  function FilePaths(files: seq<File>): (paths: seq<string>)
    ensures |paths| == |files| && forall i :: 0 <= i < |files| ==> paths[i] == files[i].path
  {
    if files == [] then [] else [files[0].path] + FilePaths(files[1..])
  }

  ghost predicate DistinctFiles(files: seq<File>) {
    forall i, j :: 0 <= i < j < |files| ==> files[i].path != files[j].path
  }

  /** A copy of the licence holds the canonical bytes. */
  ghost predicate LicensesCanonical(files: seq<File>, license: Bytes) {
    forall i :: 0 <= i < |files| && (files[i].path == "LICENSE.md" || EndsWith(files[i].path, "/LICENSE.md")) ==>
      files[i].content == license
  }

  /** Every written manifest's directory is remembered. */
  ghost predicate RootsKnown(st: Export) {
    forall i :: 0 <= i < |st.files| && IsPackage(st.files[i].path) ==> Dirname(st.files[i].path) in st.packageRoots
  }

  ghost predicate RootIsLicense(env: Env, license: Bytes, entries: seq<Entry>) {
    forall i :: 0 <= i < |entries| && entries[i].path == "LICENSE.md" ==> env.blob(entries[i].blobId) == license
  }

  lemma {:induction false} FilePathsAppend(files: seq<File>, file: File)
    ensures FilePaths(files + [file]) == FilePaths(files) + [file.path]
  {
    if files == [] {
      assert files + [file] == [file];
    } else {
      assert (files + [file])[1..] == files[1..] + [file];
      FilePathsAppend(files[1..], file);
    }
  }

  /** One entry is excluded or written, never both, under its own path. */
  lemma EntryPartitioned(env: Env, exclusions: seq<string>, license: Bytes, st: Export, e: Entry)
    requires ExportEntry(env, exclusions, license, st, e).Ok?
    ensures var next := ExportEntry(env, exclusions, license, st, e).value;
            if ExcludedPath(exclusions, e.path) then next == st.(excluded := st.excluded + [e.path])
            else next.excluded == st.excluded && FilePaths(next.files) == FilePaths(st.files) + [e.path]
  {
    if !ExcludedPath(exclusions, e.path) {
      var next := ExportEntry(env, exclusions, license, st, e).value;
      FilePathsAppend(st.files, next.files[|st.files|]);
    }
  }

  lemma {:induction false} EntriesExcluded(
    env: Env, exclusions: seq<string>, license: Bytes, st: Export, entries: seq<Entry>)
    requires ExportEntries(env, exclusions, license, st, entries).Ok?
    ensures ExportEntries(env, exclusions, license, st, entries).value.excluded
         == st.excluded + ExcludedPaths(exclusions, entries)
    decreases |entries|
  {
    if entries != [] {
      var next := ExportEntry(env, exclusions, license, st, entries[0]).value;
      EntryPartitioned(env, exclusions, license, st, entries[0]);
      EntriesExcluded(env, exclusions, license, next, entries[1..]);
      Associate(st.excluded, if ExcludedPath(exclusions, entries[0].path) then [entries[0].path] else [],
                ExcludedPaths(exclusions, entries[1..]));
    }
  }

  lemma {:induction false} EntriesWritten(
    env: Env, exclusions: seq<string>, license: Bytes, st: Export, entries: seq<Entry>)
    requires ExportEntries(env, exclusions, license, st, entries).Ok?
    ensures FilePaths(ExportEntries(env, exclusions, license, st, entries).value.files)
         == FilePaths(st.files) + WrittenPaths(exclusions, entries)
    decreases |entries|
  {
    if entries != [] {
      var next := ExportEntry(env, exclusions, license, st, entries[0]).value;
      EntryPartitioned(env, exclusions, license, st, entries[0]);
      EntriesWritten(env, exclusions, license, next, entries[1..]);
      Associate(FilePaths(st.files), if ExcludedPath(exclusions, entries[0].path) then [] else [entries[0].path],
                WrittenPaths(exclusions, entries[1..]));
    }
  }

  ghost predicate Kept(st: Export, license: Bytes) {
    DistinctFiles(st.files) && LicensesCanonical(st.files, license) && RootsKnown(st)
  }

  lemma EntryKeeps(env: Env, exclusions: seq<string>, license: Bytes, st: Export, e: Entry)
    requires Kept(st, license) && ExportEntry(env, exclusions, license, st, e).Ok?
    requires e.path == "LICENSE.md" ==> env.blob(e.blobId) == license
    ensures Kept(ExportEntry(env, exclusions, license, st, e).value, license)
  {
    if !ExcludedPath(exclusions, e.path) {
      var next := ExportEntry(env, exclusions, license, st, e).value;
      var file := next.files[|st.files|];
      assert next.files == st.files + [file] && file.path == e.path;
      assert forall i :: 0 <= i < |st.files| ==> !Overlap(st.files[i].path, e.path);
      assert EndsWith(e.path, "/LICENSE.md") ==> file.content == license;
      assert e.path == "LICENSE.md" ==> !IsPackage(e.path) && !EndsWith(e.path, "/LICENSE.md");
    }
  }

  lemma {:induction false} EntriesKeep(
    env: Env, exclusions: seq<string>, license: Bytes, st: Export, entries: seq<Entry>)
    requires Kept(st, license) && RootIsLicense(env, license, entries)
    requires ExportEntries(env, exclusions, license, st, entries).Ok?
    ensures Kept(ExportEntries(env, exclusions, license, st, entries).value, license)
    decreases |entries|
  {
    if entries != [] {
      EntryKeeps(env, exclusions, license, st, entries[0]);
      EntriesKeep(env, exclusions, license, ExportEntry(env, exclusions, license, st, entries[0]).value, entries[1..]);
    }
  }

  lemma LicensePathIs(root: string)
    ensures var path := LicensePath(root);
            (path == "LICENSE.md" || EndsWith(path, "/LICENSE.md")) && !IsPackage(path)
  {
    var path := LicensePath(root);
    if root != "." {
      assert path[|root|..] == "/LICENSE.md";
    }
    assert path[|path| - 1] == 'd';
    var n := |path| - |"/package.json"|;
    assert n >= 0 ==> path[n..][12] == path[|path| - 1];
  }

  lemma AddLicenseKeeps(license: Bytes, st: Export, root: string)
    requires Kept(st, license) && AddLicense(license, st, root).Ok?
    ensures var next := AddLicense(license, st, root).value;
            && Kept(next, license) && HasFile(next.files, LicensePath(root)) && st.files <= next.files
            && next.excluded == st.excluded && next.packageRoots == st.packageRoots
  {
    var path := LicensePath(root);
    LicensePathIs(root);
    if !HasFile(st.files, path) {
      var next := AddLicense(license, st, root).value;
      assert next.files == st.files + [File(path, "100644", license)];
      assert next.files[|st.files|].path == path;
      assert forall i :: 0 <= i < |st.files| ==> !Overlap(st.files[i].path, path);
    }
  }

  lemma {:induction false} AddLicensesKeep(license: Bytes, st: Export, roots: seq<string>)
    requires Kept(st, license) && AddLicenses(license, st, roots).Ok?
    ensures var done := AddLicenses(license, st, roots).value;
            && Kept(done, license) && st.files <= done.files
            && done.excluded == st.excluded && done.packageRoots == st.packageRoots
            && forall i :: 0 <= i < |roots| ==> HasFile(done.files, LicensePath(roots[i]))
    decreases |roots|
  {
    if roots != [] {
      var next := AddLicense(license, st, roots[0]).value;
      var done := AddLicenses(license, st, roots).value;
      AddLicenseKeeps(license, st, roots[0]);
      AddLicensesKeep(license, next, roots[1..]);
      var k :| 0 <= k < |next.files| && next.files[k].path == LicensePath(roots[0]);
      assert done.files[k] == next.files[k];
      assert forall i :: 1 <= i < |roots| ==> roots[i] == roots[1..][i - 1];
    }
  }

  /** The licence that belongs beside a manifest is written once, with the canonical bytes. */
  ghost predicate Licensed(files: seq<File>, license: Bytes, root: string) {
    && (exists j :: 0 <= j < |files| && files[j].path == LicensePath(root) && files[j].content == license)
    && (forall j, k :: 0 <= j < k < |files| ==> files[j].path != LicensePath(root) || files[k].path != LicensePath(root))
  }

  lemma KeptMeansLicensed(st: Export, license: Bytes, root: string)
    requires Kept(st, license) && HasFile(st.files, LicensePath(root))
    ensures Licensed(st.files, license, root)
  {
    LicensePathIs(root);
    var j :| 0 <= j < |st.files| && st.files[j].path == LicensePath(root);
    assert st.files[j].content == license;
  }

  /** Every written package manifest has one licence beside it. */
  lemma LicenseClosure(env: Env, exclusions: seq<string>, license: Bytes, entries: seq<Entry>)
    requires RootIsLicense(env, license, entries) && ExportTree(env, exclusions, license, entries).Ok?
    ensures var files := ExportTree(env, exclusions, license, entries).value.files;
            forall i :: 0 <= i < |files| && IsPackage(files[i].path) ==> Licensed(files, license, Dirname(files[i].path))
  {
    var st := ExportEntries(env, exclusions, license, Nothing, entries).value;
    EntriesKeep(env, exclusions, license, Nothing, entries);
    AddLicensesKeep(license, st, st.packageRoots);
    var done := ExportTree(env, exclusions, license, entries).value;
    forall i | 0 <= i < |done.files| && IsPackage(done.files[i].path)
      ensures Licensed(done.files, license, Dirname(done.files[i].path))
    {
      var root := Dirname(done.files[i].path);
      assert root in done.packageRoots;
      var k :| 0 <= k < |st.packageRoots| && st.packageRoots[k] == root;
      KeptMeansLicensed(done, license, root);
    }
  }

  /** The entries are partitioned, in order, into excluded paths and written files; only licences are added. */
  lemma ExportPartitions(env: Env, exclusions: seq<string>, license: Bytes, entries: seq<Entry>)
    requires RootIsLicense(env, license, entries) && ExportTree(env, exclusions, license, entries).Ok?
    ensures var done := ExportTree(env, exclusions, license, entries).value;
            && done.excluded == ExcludedPaths(exclusions, entries)
            && WrittenPaths(exclusions, entries) <= FilePaths(done.files)
            && DistinctFiles(done.files)
            && forall i :: |WrittenPaths(exclusions, entries)| <= i < |done.files| ==>
                 LicenseOf(done.files[i].path, done.packageRoots)
  {
    var st := ExportEntries(env, exclusions, license, Nothing, entries).value;
    EntriesExcluded(env, exclusions, license, Nothing, entries);
    EntriesWritten(env, exclusions, license, Nothing, entries);
    EntriesKeep(env, exclusions, license, Nothing, entries);
    AddLicensesKeep(license, st, st.packageRoots);
    forall i: nat | |st.files| <= i < |AddLicenses(license, st, st.packageRoots).value.files|
      ensures LicenseOf(AddLicenses(license, st, st.packageRoots).value.files[i].path, st.packageRoots)
    {
      AddedIsLicense(license, st, st.packageRoots, i);
    }
    assert [] + WrittenPaths(exclusions, entries) == WrittenPaths(exclusions, entries);
    assert [] + ExcludedPaths(exclusions, entries) == ExcludedPaths(exclusions, entries);
    var done := ExportTree(env, exclusions, license, entries).value;
    assert FilePaths(done.files)[..|st.files|] == FilePaths(st.files);
  }

  ghost predicate LicenseOf(path: string, roots: seq<string>) {
    exists k :: 0 <= k < |roots| && path == LicensePath(roots[k])
  }

  lemma LicenseOfMore(path: string, roots: seq<string>)
    requires roots != [] && (path == LicensePath(roots[0]) || LicenseOf(path, roots[1..]))
    ensures LicenseOf(path, roots)
  {
    if LicenseOf(path, roots[1..]) {
      var k :| 0 <= k < |roots[1..]| && path == LicensePath(roots[1..][k]);
      assert roots[k + 1] == roots[1..][k];
    }
  }

  lemma AddLicenseAdds(license: Bytes, st: Export, root: string, i: nat)
    requires AddLicense(license, st, root).Ok?
    ensures var next := AddLicense(license, st, root).value;
            |st.files| <= i < |next.files| ==> next.files[i].path == LicensePath(root)
  {}

  lemma {:induction false} AddedIsLicense(license: Bytes, st: Export, roots: seq<string>, i: nat)
    requires Kept(st, license) && AddLicenses(license, st, roots).Ok?
    requires |st.files| <= i < |AddLicenses(license, st, roots).value.files|
    ensures LicenseOf(AddLicenses(license, st, roots).value.files[i].path, roots)
    decreases |roots|
  {
    var next, done := AddLicense(license, st, roots[0]).value, AddLicenses(license, st, roots).value;
    AddLicenseKeeps(license, st, roots[0]);
    AddLicensesKeep(license, next, roots[1..]);
    if i < |next.files| {
      AddLicenseAdds(license, st, roots[0], i);
      assert done.files[i] == next.files[i];
    } else {
      AddedIsLicense(license, next, roots[1..], i);
    }
    LicenseOfMore(done.files[i].path, roots);
  }

  // ----- Every change is on record -----

  predicate Recorded(changes: seq<Transformation>, path: string, source: Option<Bytes>) {
    exists k :: 0 <= k < |changes| && changes[k].path == path && changes[k].source == source
  }

  /** A file is its entry's blob, or a recorded change of it: a manifest given a licence, or the canonical licence. */
  predicate Copies(env: Env, license: Bytes, file: File, e: Entry, changes: seq<Transformation>) {
    var blob := env.blob(e.blobId);
    && file.path == e.path && file.mode == e.mode
    && (file.content == blob
        || (Recorded(changes, e.path, Some(blob))
            && ((IsPackage(e.path) && file.content == env.withLicense(blob))
                || (EndsWith(e.path, "/LICENSE.md") && file.content == license))))
  }

  predicate Added(license: Bytes, file: File, changes: seq<Transformation>) {
    file.content == license && Recorded(changes, file.path, None)
  }

  ghost predicate Faithful(env: Env, license: Bytes, file: File, entries: seq<Entry>, changes: seq<Transformation>) {
    Added(license, file, changes) || exists j :: 0 <= j < |entries| && Copies(env, license, file, entries[j], changes)
  }

  ghost predicate AllFaithful(env: Env, license: Bytes, st: Export, entries: seq<Entry>) {
    forall i :: 0 <= i < |st.files| ==> Faithful(env, license, st.files[i], entries, st.transformations)
  }

  lemma RecordedMore(changes: seq<Transformation>, more: seq<Transformation>, path: string, source: Option<Bytes>)
    requires changes <= more && Recorded(changes, path, source)
    ensures Recorded(more, path, source)
  {
    var k :| 0 <= k < |changes| && changes[k].path == path && changes[k].source == source;
    assert more[k] == changes[k];
  }

  lemma FaithfulMore(
    env: Env, license: Bytes, file: File, entries: seq<Entry>, changes: seq<Transformation>, more: seq<Transformation>)
    requires changes <= more && Faithful(env, license, file, entries, changes)
    ensures Faithful(env, license, file, entries, more)
  {
    if Added(license, file, changes) {
      RecordedMore(changes, more, file.path, None);
    } else {
      var j :| 0 <= j < |entries| && Copies(env, license, file, entries[j], changes);
      var blob := env.blob(entries[j].blobId);
      if file.content != blob { RecordedMore(changes, more, file.path, Some(blob)); }
      assert Copies(env, license, file, entries[j], more);
    }
  }

  lemma LicenseIsNoPackage(path: string)
    requires EndsWith(path, "/LICENSE.md")
    ensures !IsPackage(path)
  {
    assert path[|path| - |"/LICENSE.md"|..][10] == path[|path| - 1];
    var n := |path| - |"/package.json"|;
    assert n >= 0 ==> path[n..][12] == path[|path| - 1];
  }

  lemma EntryCopied(env: Env, exclusions: seq<string>, license: Bytes, st: Export, e: Entry)
    requires ExportEntry(env, exclusions, license, st, e).Ok? && !ExcludedPath(exclusions, e.path)
    ensures var next := ExportEntry(env, exclusions, license, st, e).value;
            && st.transformations <= next.transformations && |next.files| == |st.files| + 1 && st.files <= next.files
            && Copies(env, license, next.files[|st.files|], e, next.transformations)
  {
    var next := ExportEntry(env, exclusions, license, st, e).value;
    var blob := env.blob(e.blobId);
    var Prepared(manifest, changes) := PrepareManifest(env, e.path, blob).value;
    var Prepared(content, more) := PrepareLicense(env, license, e.path, manifest).value;
    assert next.transformations == st.transformations + changes + more;
    if EndsWith(e.path, "/LICENSE.md") { LicenseIsNoPackage(e.path); }
    if content != blob {
      assert next.transformations[|st.transformations|] == (changes + more)[0];
    }
  }

  lemma {:induction false} EntriesFaithful(
    env: Env, exclusions: seq<string>, license: Bytes, st: Export, entries: seq<Entry>, all: seq<Entry>)
    requires AllFaithful(env, license, st, all) && ExportEntries(env, exclusions, license, st, entries).Ok?
    requires forall i :: 0 <= i < |entries| ==> entries[i] in all
    ensures AllFaithful(env, license, ExportEntries(env, exclusions, license, st, entries).value, all)
    decreases |entries|
  {
    if entries != [] {
      var next := ExportEntry(env, exclusions, license, st, entries[0]).value;
      assert entries[0] in all;
      NextFaithful(env, exclusions, license, st, entries[0], all);
      EntriesFaithful(env, exclusions, license, next, entries[1..], all);
    }
  }

  lemma NextFaithful(env: Env, exclusions: seq<string>, license: Bytes, st: Export, e: Entry, all: seq<Entry>)
    requires AllFaithful(env, license, st, all) && ExportEntry(env, exclusions, license, st, e).Ok? && e in all
    ensures AllFaithful(env, license, ExportEntry(env, exclusions, license, st, e).value, all)
  {
    var next := ExportEntry(env, exclusions, license, st, e).value;
    if !ExcludedPath(exclusions, e.path) {
      EntryCopied(env, exclusions, license, st, e);
      var j :| 0 <= j < |all| && all[j] == e;
      forall i | 0 <= i < |next.files| ensures Faithful(env, license, next.files[i], all, next.transformations) {
        if i < |st.files| {
          FaithfulMore(env, license, st.files[i], all, st.transformations, next.transformations);
        } else {
          assert Copies(env, license, next.files[i], all[j], next.transformations);
        }
      }
    }
  }

  lemma {:induction false} AddedFaithful(env: Env, license: Bytes, st: Export, roots: seq<string>, all: seq<Entry>)
    requires AllFaithful(env, license, st, all) && AddLicenses(license, st, roots).Ok?
    ensures AllFaithful(env, license, AddLicenses(license, st, roots).value, all)
    decreases |roots|
  {
    if roots != [] {
      var next := AddLicense(license, st, roots[0]).value;
      forall i | 0 <= i < |next.files| ensures Faithful(env, license, next.files[i], all, next.transformations) {
        if i < |st.files| {
          FaithfulMore(env, license, st.files[i], all, st.transformations, next.transformations);
        } else {
          assert next.transformations[|st.transformations|].path == next.files[i].path;
          assert Added(license, next.files[i], next.transformations);
        }
      }
      AddedFaithful(env, license, next, roots[1..], all);
    }
  }

  /**
   * Every file of an export is its entry's blob with its mode, or differs from it as the receipt records:
   * a manifest that got its licence, a licence made canonical, or a licence that was added.
   */
  lemma ChangesRecorded(env: Env, exclusions: seq<string>, license: Bytes, entries: seq<Entry>)
    requires ExportTree(env, exclusions, license, entries).Ok?
    ensures AllFaithful(env, license, ExportTree(env, exclusions, license, entries).value, entries)
  {
    var st := ExportEntries(env, exclusions, license, Nothing, entries).value;
    EntriesFaithful(env, exclusions, license, Nothing, entries, entries);
    AddedFaithful(env, license, st, st.packageRoots, entries);
  }

  // ----- A Git tree never makes the first loop overwrite a file -----

  ghost predicate IsTree(entries: seq<Entry>) {
    forall i, j :: 0 <= i < j < |entries| ==> !Overlap(entries[i].path, entries[j].path)
  }

  ghost predicate Clear(files: seq<File>, entries: seq<Entry>) {
    forall i, j :: 0 <= i < |files| && 0 <= j < |entries| ==> !Overlap(files[i].path, entries[j].path)
  }

  lemma {:induction false} NeverOverwrites(
    env: Env, exclusions: seq<string>, license: Bytes, st: Export, entries: seq<Entry>, path: string)
    requires IsTree(entries) && Clear(st.files, entries)
    ensures ExportEntries(env, exclusions, license, st, entries) != Err(AlreadyThere(path))
    decreases |entries|
  {
    if entries != [] {
      var r := ExportEntry(env, exclusions, license, st, entries[0]);
      assert !Blocked(st.files, entries[0].path);
      if r.Ok? {
        var next := r.value;
        assert next.files == st.files
          || (next.files == st.files + [next.files[|st.files|]] && next.files[|st.files|].path == entries[0].path);
        assert Clear(next.files, entries[1..]);
        assert IsTree(entries[1..]);
        NeverOverwrites(env, exclusions, license, next, entries[1..], path);
      }
    }
  }

  // ----- Nothing private is written -----

  lemma {:induction false} LastSlashIs(dir: string, name: string)
    requires '/' !in name
    ensures LastSlash(dir + "/" + name) == Some(|dir|)
    decreases |name|
  {
    var path := dir + "/" + name;
    if name != "" {
      assert path[|path| - 1] == name[|name| - 1];
      assert path[..|path| - 1] == dir + "/" + name[..|name| - 1];
      LastSlashIs(dir, name[..|name| - 1]);
    }
  }

  lemma NamedDirectory(dir: string)
    requires SafePath(dir + "/package.json")
    ensures dir != "" && dir != "."
  {
    var path := dir + "/package.json";
    assert path[0] == if dir == "" then '/' else dir[0];
    if dir == "." {
      assert path == "./package.json";
      DotIsUnsafe();
      assert false;
    }
  }

  /** The licence of a package in a directory is in that directory. */
  lemma LicenseBeside(dir: string)
    requires SafePath(dir + "/package.json")
    ensures LicensePath(Dirname(dir + "/package.json")) == dir + "/LICENSE.md"
  {
    NamedDirectory(dir);
    assert dir + "/package.json" == dir + "/" + "package.json";
    LastSlashIs(dir, "package.json");
    assert (dir + "/package.json")[..|dir|] == dir;
  }

  /** The licence of the package in the root directory is in the root directory. */
  lemma LicenseAtRoot()
    ensures LicensePath(Dirname("package.json")) == "LICENSE.md"
  {
    NoSlash("package.json");
  }

  lemma {:induction false} NoSlash(name: string)
    requires '/' !in name
    ensures LastSlash(name) == None
  {
    if name != "" {
      NoSlash(name[..|name| - 1]);
    }
  }

  lemma DotIsUnsafe()
    ensures !SafeParts("./package.json")
  {
    var path := "./package.json";
    var rest := Split(path[1..]);
    assert path[1..][0] == '/' && rest[0] == "";
    assert Split(path)[0] == ".";
  }

  lemma AboveDirectory(dir: string, root: string)
    requires Within(dir + "/LICENSE.md", root) && root != dir + "/LICENSE.md"
    ensures Within(dir + "/package.json", root)
  {
    var path, manifest := dir + "/LICENSE.md", dir + "/package.json";
    assert |root| <= |dir|;
    assert manifest[..|root|] == dir[..|root|] == path[..|root|];
    assert manifest[|root|] == path[|root|];
  }

  /** A licence is beside its manifest: what lies above the one, and is not the licence itself, lies above the other. */
  lemma LicenseStaysPublic(manifest: string, root: string)
    requires IsPackage(manifest) && SafePath(manifest) && Within(LicensePath(Dirname(manifest)), root)
    ensures root == LicensePath(Dirname(manifest)) || Within(manifest, root)
  {
    if manifest == "package.json" {
      LicenseAtRoot();
      AtTop(root);
    } else {
      var dir := manifest[..|manifest| - |"/package.json"|];
      assert manifest == dir + "/package.json";
      LicenseBeside(dir);
      if root != dir + "/LICENSE.md" { AboveDirectory(dir, root); }
    }
  }

  lemma AtTop(root: string)
    requires Within("LICENSE.md", root)
    ensures root == "LICENSE.md"
  {
    assert forall i :: 0 <= i < |"LICENSE.md"| ==> "LICENSE.md"[i] != '/';
  }

  /** The directory of a package manifest that is exported. */
  ghost predicate FromManifest(dir: string, exclusions: seq<string>, entries: seq<Entry>) {
    exists i :: 0 <= i < |entries| && IsManifestIn(dir, exclusions, entries[i])
  }

  predicate IsManifestIn(dir: string, exclusions: seq<string>, e: Entry) {
    IsPackage(e.path) && !ExcludedPath(exclusions, e.path) && dir == Dirname(e.path)
  }

  lemma FromManifestMore(dir: string, exclusions: seq<string>, entries: seq<Entry>)
    requires entries != [] && FromManifest(dir, exclusions, entries[1..])
    ensures FromManifest(dir, exclusions, entries)
  {
    var i :| 0 <= i < |entries[1..]| && IsManifestIn(dir, exclusions, entries[1..][i]);
    assert entries[i + 1] == entries[1..][i];
  }

  lemma {:induction false} RootsFromManifests(
    env: Env, exclusions: seq<string>, license: Bytes, st: Export, entries: seq<Entry>, dir: string)
    requires ExportEntries(env, exclusions, license, st, entries).Ok?
    requires dir in ExportEntries(env, exclusions, license, st, entries).value.packageRoots
    ensures dir in st.packageRoots || FromManifest(dir, exclusions, entries)
    decreases |entries|
  {
    if entries != [] {
      var next := ExportEntry(env, exclusions, license, st, entries[0]).value;
      RootsFromManifests(env, exclusions, license, next, entries[1..], dir);
      if FromManifest(dir, exclusions, entries[1..]) {
        FromManifestMore(dir, exclusions, entries);
      } else if dir !in st.packageRoots {
        assert IsManifestIn(dir, exclusions, entries[0]);
      }
    }
  }

  lemma {:induction false} WrittenAreEntries(exclusions: seq<string>, entries: seq<Entry>, path: string)
    ensures path in WrittenPaths(exclusions, entries) <==>
            exists i :: 0 <= i < |entries| && entries[i].path == path && !ExcludedPath(exclusions, path)
  {
    if entries != [] {
      WrittenAreEntries(exclusions, entries[1..], path);
      assert entries == [entries[0]] + entries[1..];
      assert forall i :: 0 <= i < |entries[1..]| ==> entries[1..][i] == entries[i + 1];
    }
  }

  ghost predicate UnderInputs(inputs: seq<string>, entries: seq<Entry>) {
    forall i :: 0 <= i < |entries| ==> UnderInput(inputs, entries[i].path)
  }

  ghost predicate UnderInput(inputs: seq<string>, path: string) {
    exists j :: 0 <= j < |inputs| && Within(path, inputs[j])
  }

  lemma EntryIsPublic(inputs: seq<string>, privateRoots: seq<string>, path: string, root: string)
    requires ValidatePublicSnapshotInputs(inputs, privateRoots) == []
    requires UnderInput(inputs, path) && root in privateRoots
    ensures !Within(path, root)
  {
    InputsSeparated(inputs, privateRoots);
    var j :| 0 <= j < |inputs| && Within(path, inputs[j]);
    assert NoCommonPath(inputs[j], root);
  }

  lemma RootLicense(env: Env, entries: seq<Entry>)
    requires IsTree(entries) && FindEntry(entries, "LICENSE.md").Some?
    ensures RootIsLicense(env, env.blob(FindEntry(entries, "LICENSE.md").value.blobId), entries)
  {
    var license := FindEntry(entries, "LICENSE.md").value;
    var k :| 0 <= k < |entries| && entries[k] == license;
    forall i | 0 <= i < |entries| && entries[i].path == "LICENSE.md" ensures entries[i] == license {
      assert Overlap(entries[i].path, entries[k].path) && Overlap(entries[k].path, entries[i].path);
    }
  }

  /** Some exported manifest's licence belongs exactly at `root`. */
  ghost predicate LicenseBelongsAt(root: string, exclusions: seq<string>, entries: seq<Entry>) {
    exists i :: 0 <= i < |entries| && IsPackage(entries[i].path) && !ExcludedPath(exclusions, entries[i].path)
                && root == LicensePath(Dirname(entries[i].path))
  }

  /** A file of a snapshot that lies under a private root is that root itself, and a licence that was added. */
  lemma FileIsPublic(
    env: Env, exclusions: seq<string>, license: Bytes, privateRoots: seq<string>, inputs: seq<string>,
    entries: seq<Entry>, i: nat, root: string)
    requires ValidatePublicSnapshotInputs(inputs, privateRoots) == [] && UnderInputs(inputs, entries)
    requires forall k :: 0 <= k < |entries| ==> SafePath(entries[k].path)
    requires ExportTree(env, exclusions, license, entries).Ok? && RootIsLicense(env, license, entries)
    requires i < |ExportTree(env, exclusions, license, entries).value.files| && root in privateRoots
    ensures var path := ExportTree(env, exclusions, license, entries).value.files[i].path;
            Within(path, root) ==> path == root && LicenseBelongsAt(root, exclusions, entries)
  {
    var done := ExportTree(env, exclusions, license, entries).value;
    var path := done.files[i].path;
    ExportPartitions(env, exclusions, license, entries);
    if i < |WrittenPaths(exclusions, entries)| {
      assert WrittenPaths(exclusions, entries)[i] == FilePaths(done.files)[i] == path;
      WrittenAreEntries(exclusions, entries, path);
      EntryIsPublic(inputs, privateRoots, path, root);
    } else {
      AddedIsPublic(env, exclusions, license, privateRoots, inputs, entries, path, root);
    }
  }

  lemma AddedIsPublic(
    env: Env, exclusions: seq<string>, license: Bytes, privateRoots: seq<string>, inputs: seq<string>,
    entries: seq<Entry>, path: string, root: string)
    requires ValidatePublicSnapshotInputs(inputs, privateRoots) == [] && UnderInputs(inputs, entries)
    requires forall i :: 0 <= i < |entries| ==> SafePath(entries[i].path)
    requires ExportTree(env, exclusions, license, entries).Ok? && RootIsLicense(env, license, entries)
    requires LicenseOf(path, ExportTree(env, exclusions, license, entries).value.packageRoots)
    requires root in privateRoots
    ensures Within(path, root) ==> path == root && LicenseBelongsAt(root, exclusions, entries)
  {
    var st := ExportEntries(env, exclusions, license, Nothing, entries).value;
    EntriesKeep(env, exclusions, license, Nothing, entries);
    AddLicensesKeep(license, st, st.packageRoots);
    var k :| 0 <= k < |st.packageRoots| && path == LicensePath(st.packageRoots[k]);
    RootsFromManifests(env, exclusions, license, Nothing, entries, st.packageRoots[k]);
    var i :| 0 <= i < |entries| && IsManifestIn(st.packageRoots[k], exclusions, entries[i]);
    EntryIsPublic(inputs, privateRoots, entries[i].path, root);
    if Within(path, root) {
      LicenseStaysPublic(entries[i].path, root);
    }
  }

  /** The licence of every exported manifest is a file of the export. */
  lemma LicenseIsWritten(env: Env, exclusions: seq<string>, license: Bytes, entries: seq<Entry>, root: string)
    requires ExportTree(env, exclusions, license, entries).Ok? && RootIsLicense(env, license, entries)
    requires LicenseBelongsAt(root, exclusions, entries)
    ensures HasFile(ExportTree(env, exclusions, license, entries).value.files, root)
  {
    var files := ExportTree(env, exclusions, license, entries).value.files;
    var i :| 0 <= i < |entries| && IsPackage(entries[i].path) && !ExcludedPath(exclusions, entries[i].path)
             && root == LicensePath(Dirname(entries[i].path));
    WrittenAreEntries(exclusions, entries, entries[i].path);
    ExportPartitions(env, exclusions, license, entries);
    var k :| 0 <= k < |WrittenPaths(exclusions, entries)| && WrittenPaths(exclusions, entries)[k] == entries[i].path;
    assert FilePaths(files)[k] == files[k].path == entries[i].path;
    LicenseClosure(env, exclusions, license, entries);
    assert Licensed(files, license, Dirname(files[k].path));
  }

  /**
   * A file of a snapshot lies under a private root exactly if that root is the very place where the
   * licence of an exported manifest belongs; then that licence is the only such file.
   */
  lemma SnapshotIsPublic(
    env: Env, exclusions: seq<string>, privateRoots: seq<string>, inputs: seq<string>, entries: seq<Entry>, root: string)
    requires Snapshot(env, exclusions, privateRoots, inputs, entries).Ok?
    requires IsTree(entries) && UnderInputs(inputs, entries) && root in privateRoots
    ensures var files := Snapshot(env, exclusions, privateRoots, inputs, entries).value.files;
            && ((exists i :: 0 <= i < |files| && Within(files[i].path, root))
                <==> LicenseBelongsAt(root, exclusions, entries))
            && forall i :: 0 <= i < |files| && Within(files[i].path, root) ==> files[i].path == root
  {
    var license := env.blob(FindEntry(entries, "LICENSE.md").value.blobId);
    var files := Snapshot(env, exclusions, privateRoots, inputs, entries).value.files;
    RootLicense(env, entries);
    forall i: nat | i < |files| && Within(files[i].path, root)
      ensures files[i].path == root && LicenseBelongsAt(root, exclusions, entries)
    {
      FileIsPublic(env, exclusions, license, privateRoots, inputs, entries, i, root);
    }
    if LicenseBelongsAt(root, exclusions, entries) {
      LicenseIsWritten(env, exclusions, license, entries, root);
      var j :| 0 <= j < |files| && files[j].path == root;
      assert Within(files[j].path, root);
    }
  }

  // ----- An input whose added licence lies under a private root -----

  const LICENSE_ENTRY := Entry("100644", "blob", "l", "LICENSE.md")
  const PACKAGE_ENTRY := Entry("100644", "blob", "m", "a/package.json")

  lemma SafeName(name: string)
    requires '/' !in name && IsSafePart(name)
    ensures Split(name) == [name] && SafeParts(name)
  {
    SplitPiece(name, "");
    assert name + "" == name;
  }

  lemma SafeBelow(dir: string, name: string)
    requires '/' !in dir && '/' !in name && IsSafePart(dir) && IsSafePart(name)
    ensures SafeParts(dir + ("/" + name))
  {
    SafeName(name);
    assert ("/" + name)[1..] == name;
    SplitPiece(dir, "/" + name);
    assert dir + "" == dir;
    assert Split(dir + ("/" + name)) == [dir, name];
  }

  lemma SafeText(path: string, dir: string, name: string)
    requires path == dir + ("/" + name) && '/' !in dir && '/' !in name && IsSafePart(dir) && IsSafePart(name)
    ensures SafeParts(path)
  {
    SafeBelow(dir, name);
  }

  lemma PackagePathIsSafe()
    ensures SafeParts("a/package.json")
  {
    SafeText("a/package.json", "a", "package.json");
  }

  lemma SmallPathsAreSafe()
    ensures SafeParts("LICENSE.md") && SafeParts("a/package.json")
  {
    SafeName("LICENSE.md");
    PackagePathIsSafe();
  }

  lemma SmallInputsAreAllowed()
    ensures ValidatePublicSnapshotInputs(["LICENSE.md", "a/package.json"], ["a/LICENSE.md"]) == []
  {
    var inputs, privateRoots := ["LICENSE.md", "a/package.json"], ["a/LICENSE.md"];
    SmallPathsAreSafe();
    assert IsExplicit(inputs[0]) && IsExplicit(inputs[1]);
    assert !Overlap(privateRoots[0], inputs[0]) && !Overlap(privateRoots[0], inputs[1]);
    assert FirstOverlap(inputs[0], privateRoots) == None && FirstOverlap(inputs[1], privateRoots) == None;
    assert inputs[1..] == ["a/package.json"] && inputs[1..][1..] == [];
    assert ValidatePublicSnapshotInputs(inputs[1..], privateRoots) == [] + [];
  }

  lemma SmallEntriesAreChecked()
    ensures CheckEntries([], [LICENSE_ENTRY, PACKAGE_ENTRY]) == None
    ensures CheckInputs(["LICENSE.md", "a/package.json"], [LICENSE_ENTRY, PACKAGE_ENTRY]) == None
  {
    var inputs, entries := ["LICENSE.md", "a/package.json"], [LICENSE_ENTRY, PACKAGE_ENTRY];
    SmallPathsAreSafe();
    assert CheckEntry([], entries[0]) == None && CheckEntry([], entries[1]) == None;
    assert entries[1..] == [PACKAGE_ENTRY] && entries[1..][1..] == [];
    assert CheckEntries([], entries[1..]) == None;
    assert Within(entries[0].path, inputs[0]) && Within(entries[1].path, inputs[1]);
    assert inputs[1..] == ["a/package.json"] && inputs[1..][1..] == [];
    assert CheckInputs(inputs[1..], entries) == None;
  }

  /** An entry that is no package and no copy of the licence is written as it is. */
  lemma FileIsExported(env: Env, license: Bytes, st: Export, e: Entry)
    requires !IsPackage(e.path) && !EndsWith(e.path, "/LICENSE.md") && !ExcludedPath([], e.path) && !Blocked(st.files, e.path)
    ensures ExportEntry(env, [], license, st, e)
         == Ok(st.(files := st.files + [File(e.path, e.mode, env.blob(e.blobId))]))
  {
    assert st.transformations + [] + [] == st.transformations && st.packageRoots + [] == st.packageRoots;
  }

  lemma ManifestIsExported(env: Env, license: Bytes, st: Export, e: Entry)
    requires IsPackage(e.path) && env.manifest(env.blob(e.blobId)) == Record(Canonical)
    requires !EndsWith(e.path, "/LICENSE.md") && !ExcludedPath([], e.path) && !Blocked(st.files, e.path)
    ensures ExportEntry(env, [], license, st, e)
         == Ok(st.(files := st.files + [File(e.path, e.mode, env.blob(e.blobId))],
                   packageRoots := st.packageRoots + [Dirname(e.path)]))
  {
    assert st.transformations + [] + [] == st.transformations;
    assert PrepareManifest(env, e.path, env.blob(e.blobId)) == Ok(Prepared(env.blob(e.blobId), []));
  }

  /** A file and a manifest elsewhere are exported, if the place of the manifest's licence is free. */
  lemma TwoEntriesExport(env: Env, license: Bytes, file: Entry, manifest: Entry)
    requires IsPackage(manifest.path) && env.manifest(env.blob(manifest.blobId)) == Record(Canonical)
    requires !IsPackage(file.path) && !EndsWith(file.path, "/LICENSE.md") && !EndsWith(manifest.path, "/LICENSE.md")
    requires !ExcludedPath([], file.path) && !ExcludedPath([], manifest.path)
    requires var place := LicensePath(Dirname(manifest.path));
             !Overlap(file.path, manifest.path) && !Overlap(file.path, place) && !Overlap(manifest.path, place)
    ensures ExportTree(env, [], license, [file, manifest]).Ok?
  {
    FileIsExported(env, license, Nothing, file);
    var st := ExportEntry(env, [], license, Nothing, file).value;
    ManifestIsExported(env, license, st, manifest);
    var done := ExportEntry(env, [], license, st, manifest).value;
    assert [file, manifest][1..] == [manifest] && [manifest][1..] == [];
    assert ExportEntries(env, [], license, st, [manifest]) == Ok(done);
    AddsOneLicense(license, done, Dirname(manifest.path));
  }

  lemma AddsOneLicense(license: Bytes, st: Export, root: string)
    requires st.packageRoots == [root] && !Blocked(st.files, LicensePath(root))
    ensures AddLicenses(license, st, st.packageRoots).Ok?
  {
    assert st.packageRoots[1..] == [];
    assert AddLicense(license, st, root).Ok?;
  }

  lemma DifferAt(a: string, b: string, i: nat)
    requires i < |a| && i < |b| && a[i] != b[i]
    ensures !Overlap(a, b)
  {}

  lemma SmallLicensePath()
    ensures LicensePath(Dirname("a/package.json")) == "a/LICENSE.md"
  {
    LastSlashIs("a", "package.json");
    assert "a" + "/" + "package.json" == "a/package.json" && "a/package.json"[..1] == "a";
    assert "a" + "/LICENSE.md" == "a/LICENSE.md";
  }

  lemma SmallPathsApart()
    ensures LicensePath(Dirname("a/package.json")) == "a/LICENSE.md"
    ensures !Overlap("LICENSE.md", "a/package.json")
    ensures !Overlap("LICENSE.md", "a/LICENSE.md") && !Overlap("a/package.json", "a/LICENSE.md")
  {
    SmallLicensePath();
    DifferAt("LICENSE.md", "a/package.json", 0);
    DifferAt("LICENSE.md", "a/LICENSE.md", 0);
    DifferAt("a/package.json", "a/LICENSE.md", 2);
  }

  lemma SmallPathKinds()
    ensures IsPackage("a/package.json") && !IsPackage("LICENSE.md")
    ensures !EndsWith("LICENSE.md", "/LICENSE.md") && !EndsWith("a/package.json", "/LICENSE.md")
    ensures !ExcludedPath([], "LICENSE.md") && !ExcludedPath([], "a/package.json")
  {
    assert "a/package.json"[1..] == "/package.json";
    EndsOtherwise("LICENSE.md", "/package.json");
    EndsOtherwise("a/package.json", "/LICENSE.md");
    EndsOtherwise("a/package.json", "/AGENTS.md");
    EndsOtherwise("a/package.json", "/CLAUDE.md");
    assert "LICENSE.md"[0..] == "LICENSE.md" && "LICENSE.md"[0] != '/';
    assert "LICENSE.md" != "/AGENTS.md" && "LICENSE.md" != "/CLAUDE.md";
  }

  lemma SmallExport(env: Env, license: Bytes)
    requires env.manifest(env.blob("m")) == Record(Canonical)
    ensures ExportTree(env, [], license, [LICENSE_ENTRY, PACKAGE_ENTRY]).Ok?
    ensures LicenseBelongsAt("a/LICENSE.md", [], [LICENSE_ENTRY, PACKAGE_ENTRY])
  {
    SmallPathsApart();
    SmallPathKinds();
    TwoEntriesExport(env, license, LICENSE_ENTRY, PACKAGE_ENTRY);
    var entries := [LICENSE_ENTRY, PACKAGE_ENTRY];
    assert entries[1].path == "a/package.json";
  }

  lemma SmallRootLicense()
    ensures FindEntry([LICENSE_ENTRY, PACKAGE_ENTRY], "LICENSE.md") == Some(LICENSE_ENTRY)
    ensures PACKAGE_ENTRY.path != "LICENSE.md"
  {
    assert "LICENSE.md"[0] != PACKAGE_ENTRY.path[0];
  }

  lemma SnapshotWrites(
    env: Env, privateRoots: seq<string>, inputs: seq<string>, entries: seq<Entry>, license: Entry, root: string)
    requires ValidatePublicSnapshotInputs(inputs, privateRoots) == []
    requires CheckEntries([], entries) == None && CheckInputs(inputs, entries) == None
    requires FindEntry(entries, "LICENSE.md") == Some(license)
    requires forall i :: 0 <= i < |entries| && entries[i].path == "LICENSE.md" ==> entries[i] == license
    requires ExportTree(env, [], env.blob(license.blobId), entries).Ok? && LicenseBelongsAt(root, [], entries)
    ensures var r := Snapshot(env, [], privateRoots, inputs, entries);
            r.Ok? && HasFile(r.value.files, root)
  {
    LicenseIsWritten(env, [], env.blob(license.blobId), entries, root);
  }

  /** The allowlist check passes, and the licence that is added lies under a private root. */
  lemma AddedLicenseCanBePrivate(env: Env)
    requires env.manifest(env.blob("m")) == Record(Canonical)
    ensures var r := Snapshot(env, [], ["a/LICENSE.md"], ["LICENSE.md", "a/package.json"], [LICENSE_ENTRY, PACKAGE_ENTRY]);
            r.Ok? && HasFile(r.value.files, "a/LICENSE.md")
  {
    var entries := [LICENSE_ENTRY, PACKAGE_ENTRY];
    var license := env.blob("l");
    SmallInputsAreAllowed();
    SmallEntriesAreChecked();
    SmallExport(env, license);
    SmallRootLicense();
    SnapshotWrites(env, ["a/LICENSE.md"], ["LICENSE.md", "a/package.json"], entries, LICENSE_ENTRY, "a/LICENSE.md");
  }

  /** The private roots of the repository. */
  const PRIVATE_SOURCE_PROJECT_ROOTS: seq<string> := [
    "cloud/access-review-inventory-role", "cloud/access-review-management-role", "cloud/bootstrap-aws-account",
    "cloud/management-billing-role", "cloud/org", "cloud/org/console", "cloud/org/console-e2e", "cloud/scripts",
    "examples/school", "examples/tbsnz", "fixtures/private-consumer", "infra/demo-lambda", "infra/github",
    "infra/network", "infra/soc2", "runtime/aws", "tools/build-tests", "tools/repository-tests",
    "tools/publication-tests"]

  lemma EndsOtherwise(s: string, suffix: string)
    requires s != "" && suffix != "" && s[|s| - 1] != suffix[|suffix| - 1]
    ensures !EndsWith(s, suffix)
  {
    var n := |s| - |suffix|;
    assert n >= 0 ==> s[n..][|suffix| - 1] == s[|s| - 1];
  }

  lemma ShippedRootsEndOtherwise(root: string)
    requires root in PRIVATE_SOURCE_PROJECT_ROOTS
    ensures root != "" && root[|root| - 1] != 'd'
  {}

  lemma OrdinaryRootHoldsNoLicense(root: string, exclusions: seq<string>, entries: seq<Entry>)
    requires root != "LICENSE.md" && !EndsWith(root, "/LICENSE.md")
    ensures !LicenseBelongsAt(root, exclusions, entries)
  {
    forall i | 0 <= i < |entries| ensures root != LicensePath(Dirname(entries[i].path)) {
      LicensePathIs(Dirname(entries[i].path));
    }
  }

  /** No root is named like a licence. */
  ghost predicate OrdinaryRoots(roots: seq<string>) {
    forall root :: root in roots ==> root != "LICENSE.md" && !EndsWith(root, "/LICENSE.md")
  }

  lemma ShippedRootsAreOrdinary()
    ensures OrdinaryRoots(PRIVATE_SOURCE_PROJECT_ROOTS)
  {
    forall root | root in PRIVATE_SOURCE_PROJECT_ROOTS
      ensures root != "LICENSE.md" && !EndsWith(root, "/LICENSE.md")
    {
      ShippedRootsEndOtherwise(root);
      EndsOtherwise(root, "/LICENSE.md");
      assert "LICENSE.md"[|"LICENSE.md"| - 1] == 'd';
    }
  }

  /** No file of a snapshot lies within a private root, if no root is named like a licence. */
  lemma OrdinarySnapshotIsPublic(
    env: Env, exclusions: seq<string>, privateRoots: seq<string>, inputs: seq<string>, entries: seq<Entry>)
    requires Snapshot(env, exclusions, privateRoots, inputs, entries).Ok?
    requires IsTree(entries) && UnderInputs(inputs, entries) && OrdinaryRoots(privateRoots)
    ensures var files := Snapshot(env, exclusions, privateRoots, inputs, entries).value.files;
            forall i, root :: 0 <= i < |files| && root in privateRoots ==> !Within(files[i].path, root)
  {
    forall root | root in privateRoots
      ensures var files := Snapshot(env, exclusions, privateRoots, inputs, entries).value.files;
              forall i :: 0 <= i < |files| ==> !Within(files[i].path, root)
    {
      OrdinaryRootHoldsNoLicense(root, exclusions, entries);
      SnapshotIsPublic(env, exclusions, privateRoots, inputs, entries, root);
    }
  }

  /** With the private roots of the repository, no file of a snapshot lies within any of them. */
  lemma ShippedSnapshotIsPublic(env: Env, exclusions: seq<string>, inputs: seq<string>, entries: seq<Entry>)
    requires Snapshot(env, exclusions, PRIVATE_SOURCE_PROJECT_ROOTS, inputs, entries).Ok?
    requires IsTree(entries) && UnderInputs(inputs, entries)
    ensures var files := Snapshot(env, exclusions, PRIVATE_SOURCE_PROJECT_ROOTS, inputs, entries).value.files;
            forall i, root :: 0 <= i < |files| && root in PRIVATE_SOURCE_PROJECT_ROOTS ==> !Within(files[i].path, root)
  {
    ShippedRootsAreOrdinary();
    OrdinarySnapshotIsPublic(env, exclusions, PRIVATE_SOURCE_PROJECT_ROOTS, inputs, entries);
  }

  // ----- The script -----

  method ExportAll(env: Env, exclusions: seq<string>, license: Bytes, entries: seq<Entry>)
    returns (r: Result<Export, Error>)
    ensures r == ExportEntries(env, exclusions, license, Nothing, entries)
  {
    var st := Nothing;
    ghost var all := ExportEntries(env, exclusions, license, st, entries);
    assert entries[0..] == entries;
    for i := 0 to |entries|
      invariant ExportEntries(env, exclusions, license, st, entries[i..]) == all
    {
      assert entries[i..][1..] == entries[i + 1..];
      var next := ExportEntry(env, exclusions, license, st, entries[i]);
      if next.Err? {
        return next;
      }
      st := next.value;
    }
    r := Ok(st);
  }

  method AddMissingLicenses(license: Bytes, before: Export, roots: seq<string>) returns (r: Result<Export, Error>)
    ensures r == AddLicenses(license, before, roots)
  {
    var st := before;
    ghost var all := AddLicenses(license, st, roots);
    assert roots[0..] == roots;
    for i := 0 to |roots|
      invariant AddLicenses(license, st, roots[i..]) == all
    {
      assert roots[i..][1..] == roots[i + 1..];
      var next := AddLicense(license, st, roots[i]);
      if next.Err? {
        return next;
      }
      st := next.value;
    }
    r := Ok(st);
  }

  method CreatePublicSourceSnapshot(
    env: Env, exclusions: seq<string>, privateRoots: seq<string>, inputs: seq<string>, entries: seq<Entry>)
    returns (r: Result<Export, Error>)
    ensures r == Snapshot(env, exclusions, privateRoots, inputs, entries)
  {
    var errors := ValidatePublicSnapshotInputs(inputs, privateRoots);
    if errors != [] {
      return Err(InvalidInputs(errors));
    }
    var unsafe := CheckEntries(exclusions, entries);
    if unsafe.Some? {
      return Err(unsafe.value);
    }
    var missing := CheckInputs(inputs, entries);
    if missing.Some? {
      return Err(missing.value);
    }
    var licenseEntry := FindEntry(entries, "LICENSE.md");
    if licenseEntry.None? {
      return Err(NoLicense);
    }
    var license := env.blob(licenseEntry.value.blobId);
    r := ExportAll(env, exclusions, license, entries);
    if r.Ok? {
      r := AddMissingLicenses(license, r.value, r.value.packageRoots);
    }
  }
}
