/** The release evidence manifest: built from refs in four repositories, and verified by
    re-deriving it from the commits it declares. */
module ReleaseManifest {
  import opened Text
  import opened CanonicalJson
  import opened Outcome
  import opened Evidence
  import opened GitNames
  import opened GitStore
  import opened GitTrees
  import opened MigrationHead
  import opened Paths

  const SCHEMA_VERSION := "1.0"
  const KIND := "verifiable-ai-governance/release-evidence-manifest"
  const CANONICALIZATION := "json-sort-keys-compact-v1"
  const GOVERNANCE := "governance"
  const ROUTER := "policy_model_router"
  const CREDIT_DESK := "multi_agent_credit_desk"
  const OTEL_KIT := "a2a_otel_kit"
  const MIGRATIONS := "apps/api/alembic/versions/"
  const P1_9 := "p1_9_governed_actuation"
  const LIMITATION :=
    "P1.9 records the Router decision source and behavior but does not persist the "
    + "Policy Model Router Git commit; P2.0a therefore pins the selected Router source "
    + "without claiming that the P1.9 report attests its exact commit."

  const COMPONENTS: seq<(string, string)> := [
    (GOVERNANCE, "brunovicco/verifiable-ai-governance"), (ROUTER, "brunovicco/policy-model-router"),
    (CREDIT_DESK, "brunovicco/multi-agent-credit-desk"), (OTEL_KIT, "brunovicco/a2a-otel-kit")]

  const EVIDENCE_FILES: seq<(string, string)> := [
    ("p1_7_runtime_telemetry", "artifacts/e2e/p1.7-cross-repo-telemetry-live-report.json"),
    ("p1_8_runtime_assurance", "artifacts/e2e/p1.8-cross-repo-assurance-live-report.json"),
    (P1_9, "artifacts/e2e/p1.9-governed-actuation-live-report.json")]

  const PROVENANCE_FILES: seq<(string, string)> := [
    ("policy_engine", "packages/policy-engine/src/policy_engine/engine.py"),
    ("control_catalog", "packages/policy-engine/src/policy_engine/control_catalog.yaml"),
    ("control_crosswalk", "packages/policy-engine/src/policy_engine/control_crosswalk.yaml")]

  const BASELINES := {
    "governance_head", "required_governance_baseline", "credit_desk_head", "a2a_otel_kit_runtime_version"}

  const ALLOWED := {
    "schema_version", "kind", "canonicalization", "release", "components", "governance_provenance", "database",
    "evidence", "compatibility", "manifest_digest"}

  datatype Project = Project(name: string, version: string, requiresPython: string, otelKit: Option<string>)

  /** The parsers of tracked files: pyproject.toml, a JSON report, a migration source. */
  datatype Readers = Readers(
    project: string -> Result<Project>, report: string -> Result<Document>, migration: (string, string) -> Migration)

  type Repos = map<string, Repo>

  // ---- Release versions ----

  predicate Numeral(s: string) { s != "" && AllDigits(s) }

  predicate LabelChar(c: char)
  {
    IsDigit(c) || 'a' <= c <= 'z' || 'A' <= c <= 'Z' || c == '.' || c == '-'
  }

  /** digits.digits.digits, optionally followed by "-" and a label. */
  predicate IsRelease(version: string)
  {
    var parts := Split(version, '-');
    var numbers := Split(parts[0], '.');
    && |numbers| == 3 && (forall n | n in numbers :: Numeral(n))
    && (|parts| > 1 ==>
          var tail := Join(parts[1..], '-');
          tail != "" && tail[0] != '.' && tail[0] != '-' && forall c | c in tail :: LabelChar(c))
  }

  // ---- Reading one commit ----

  /** What git show prints for the path: of a directory, its listing. */
  function TrackedFile(id: string, tree: Tree, path: string): Result<string>
  {
    var bytes := Show(id, tree, path);
    if bytes.Some? then Ok(bytes.value) else Err("required tracked file is unavailable")
  }

  function FileRecord(H: Hash, path: string, raw: string): Document
  {
    map["path" := Str(path), "sha256" := Str(H(raw)), "size_bytes" := Int(|raw|)]
  }

  function StrOrNull(s: Option<string>): Json
  {
    if s.Some? then Str(s.value) else Null
  }

  function ComponentRecord(H: Hash, R: Readers, repository: string, id: string, commit: Commit): Result<Document>
  {
    var toml :- TrackedFile(id, commit.tree, "pyproject.toml");
    var project :- R.project(toml);
    var lock :- TrackedFile(id, commit.tree, "uv.lock");
    var _ :- Require(commit.date != "", "missing commit timestamp");
    Ok(ComponentBody(H, repository, id, commit.date, project, lock))
  }

  function ComponentBody(H: Hash, repository: string, id: string, date: string, project: Project, lock: string)
    : Document
  {
    map["repository" := Str(repository), "commit" := Str(id), "commit_timestamp" := Str(date),
        "project_name" := Str(project.name), "project_version" := Str(project.version),
        "requires_python" := Str(project.requiresPython),
        "lockfile" := Obj(FileRecord(H, "uv.lock", lock)),
        "integration_dependencies" := Obj(map["a2a_otel_kit" := StrOrNull(project.otelKit)])]
  }

  function ProvenanceRecord(H: Hash, files: seq<(string, string)>, id: string, tree: Tree): Result<Document>
  {
    if files == [] then Ok(map[])
    else
      var raw :- TrackedFile(id, tree, files[0].1);
      var rest :- ProvenanceRecord(H, files[1..], id, tree);
      Ok(rest[files[0].0 := Obj(FileRecord(H, files[0].1, raw))])
  }

  function TextOrNull(j: Json): Json
  {
    if j.Str? then j else Null
  }

  function SafeBaselines(payload: Document): Document
  {
    var baselines := Get(payload, "baselines");
    if baselines.Obj?
    then map k | k in BASELINES && Get(baselines.members, k).Str? :: Get(baselines.members, k)
    else map[]
  }

  function EvidenceRecord(H: Hash, path: string, raw: string, payload: Document): Document
  {
    FileRecord(H, path, raw)[
      "schema_version" := TextOrNull(Get(payload, "schema_version"))][
      "result" := TextOrNull(Get(payload, "result"))][
      "baselines" := Obj(SafeBaselines(payload))]
  }

  function EvidenceRecords(H: Hash, R: Readers, files: seq<(string, string)>, id: string, tree: Tree): Result<Document>
  {
    if files == [] then Ok(map[])
    else
      var raw :- TrackedFile(id, tree, files[0].1);
      var payload :- R.report(raw);
      var rest :- EvidenceRecords(H, R, files[1..], id, tree);
      Ok(rest[files[0].0 := Obj(EvidenceRecord(H, files[0].1, raw, payload))])
  }

  predicate EndsWith(s: string, suffix: string)
  {
    |s| >= |suffix| && s[|s| - |suffix|..] == suffix
  }

  /** The tracked paths below the migrations directory. */
  function MigrationPaths(tree: Tree): set<string>
  {
    set p | p in tree && StartsWith(p, MIGRATIONS)
  }

  /** The names git ls-tree lists below the migrations directory, as read back. */
  function MigrationNames(tree: Tree): seq<string>
  {
    ListedNames(SortedKeys(MigrationPaths(tree)))
  }

  /** Of the listed names those that end in .py, each read from the commit. */
  function ReadMigrations(R: Readers, id: string, tree: Tree, names: seq<string>): Result<seq<Migration>>
  {
    if names == [] then Ok([])
    else if !EndsWith(names[0], ".py") then ReadMigrations(R, id, tree, names[1..])
    else
      var raw :- TrackedFile(id, tree, names[0]);
      var rest :- ReadMigrations(R, id, tree, names[1..]);
      Ok([R.migration(names[0], raw)] + rest)
  }

  function HeadDocument(r: Record): Document
  {
    map["alembic_head" := Str(r.head), "migration_count" := Int(r.count), "head_file" := Str(r.headFile),
        "head_file_sha256" := Str(r.headSha)]
  }

  ghost function DatabaseRecord(H: Hash, R: Readers, id: string, tree: Tree): Result<Document>
  {
    var files :- ReadMigrations(R, id, tree, MigrationNames(tree));
    var record := RecordOf(H, files);
    if record.Some? then Ok(HeadDocument(record.value)) else Err("no single Alembic head")
  }

  /** migration_record: the tracked migrations of one commit, and the record of their head. */
  method ReadDatabaseRecord(H: Hash, R: Readers, id: string, tree: Tree) returns (r: Result<Document>)
    ensures r.Ok? <==> DatabaseRecord(H, R, id, tree).Ok?
    ensures r.Ok? ==> r == DatabaseRecord(H, R, id, tree)
  {
    var files := ReadMigrations(R, id, tree, MigrationNames(tree));
    if files.Err? { return Err(files.reason); }
    var record := MigrationHead.MigrationRecord(H, files.value);
    if record.Err? { return Err(record.reason); }
    return Ok(HeadDocument(record.value));
  }

  // ---- Which migrations are read ----

  predicate IsMigrationPath(tree: Tree, path: string)
  {
    path in tree && StartsWith(path, MIGRATIONS) && EndsWith(path, ".py")
  }

  /** The last listed path, where it ends in spaces and ends in .py without them. */
  predicate CutName(tree: Tree, name: string)
  {
    var paths := SortedKeys(MigrationPaths(tree));
    paths != [] &&
      var last := paths[|paths| - 1];
      PlainName(last) && name == StripEnd(last) != last && EndsWith(name, ".py")
  }

  predicate ReadAsMigration(tree: Tree, name: string)
  {
    (IsMigrationPath(tree, name) && PlainName(name)) || CutName(tree, name)
  }

  lemma {:induction false} ReadMigrationsAre(R: Readers, id: string, tree: Tree, names: seq<string>)
    ensures ReadMigrations(R, id, tree, names).Ok? <==>
      forall n :: n in names && EndsWith(n, ".py") ==> Show(id, tree, n).Some?
    ensures ReadMigrations(R, id, tree, names).Ok? ==>
      forall m :: m in ReadMigrations(R, id, tree, names).value <==>
        exists n :: n in names && EndsWith(n, ".py") && m == R.migration(n, TrackedFile(id, tree, n).value)
  {
    if names != [] {
      ReadMigrationsAre(R, id, tree, names[1..]);
      assert forall n :: n in names <==> n == names[0] || n in names[1..];
    }
  }

  lemma QuotedIsNoMigration(path: string)
    requires !PlainName(path)
    ensures !EndsWith(Printed(path), ".py") && Tight(Printed(path))
  {
    QuotedShape(path);
    assert ".py"[2] == 'y';
  }

  lemma MigrationStarts(tree: Tree, path: string)
    requires path in MigrationPaths(tree)
    ensures path != "" && path[0] == 'a' && Printed(path) != "" && Printed(path)[0] != ' '
  {
    assert MIGRATIONS[0] == 'a' && path[0] == MIGRATIONS[0];
    if !PlainName(path) { QuotedShape(path); }
  }

  lemma MigrationLineStarts(tree: Tree, paths: seq<string>, i: nat)
    requires paths == SortedKeys(MigrationPaths(tree)) && i < |paths|
    ensures PrintedLines(paths)[i] != "" && PrintedLines(paths)[i][0] != ' '
  {
    assert paths[i] in paths;
    MigrationStarts(tree, paths[i]);
  }

  // Of the listed names only the last can differ from its line, by the spaces at its end.
  lemma MigrationLines(tree: Tree)
    ensures var paths := SortedKeys(MigrationPaths(tree)); var n := |paths| - 1;
      MigrationNames(tree) == if paths == [] then [] else PrintedLines(paths)[..n] + [StripEnd(Printed(paths[n]))]
  {
    var paths := SortedKeys(MigrationPaths(tree));
    if paths != [] {
      MigrationLineStarts(tree, paths, 0);
      MigrationLineStarts(tree, paths, |paths| - 1);
      OnlyLastIsStripped(PrintedLines(paths));
    }
  }

  lemma PythonNameStays(n: string)
    requires EndsWith(n, ".py")
    ensures StripEnd(n) == n
  {
    assert ".py"[2] == 'y' && n[|n| - 1] == n[|n| - 3..][2];
  }

  lemma StayedIn(lines: seq<string>, i: nat, names: seq<string>)
    requires i < |lines| && names == lines[..|lines| - 1] + [StripEnd(lines[|lines| - 1])]
    requires StripEnd(lines[i]) == lines[i]
    ensures lines[i] in names
  {
    assert names[i] == lines[i];
  }

  lemma PrintedAt(paths: seq<string>, n: string) returns (i: nat)
    requires n in paths && PlainName(n)
    ensures i < |paths| && PrintedLines(paths)[i] == n
  {
    i :| 0 <= i < |paths| && paths[i] == n;
  }

  lemma PlainMigrationIsListed(tree: Tree, n: string)
    requires IsMigrationPath(tree, n) && PlainName(n)
    ensures n in MigrationNames(tree)
  {
    var paths := SortedKeys(MigrationPaths(tree));
    assert n in MigrationPaths(tree);
    var i := PrintedAt(paths, n);
    MigrationLines(tree);
    PythonNameStays(n);
    StayedIn(PrintedLines(paths), i, MigrationNames(tree));
  }

  lemma CutNameIsListed(tree: Tree, n: string)
    requires CutName(tree, n)
    ensures n in MigrationNames(tree)
  {
    MigrationLines(tree);
    var names := MigrationNames(tree);
    assert names[|names| - 1] == n;
  }

  lemma ListedIsMigration(tree: Tree, n: string)
    requires n in MigrationNames(tree) && EndsWith(n, ".py")
    ensures ReadAsMigration(tree, n)
  {
    var paths, names := SortedKeys(MigrationPaths(tree)), MigrationNames(tree);
    MigrationLines(tree);
    var i :| 0 <= i < |names| && names[i] == n;
    assert paths[i] in paths;
    if PlainName(paths[i]) {
      assert i < |paths| - 1 ==> n == paths[i];
    } else {
      QuotedIsNoMigration(paths[i]);
      TightStays(Printed(paths[i]));
    }
  }

  /** The migrations read are those of the tracked .py files that git prints unquoted, and of the
      last listed path without the spaces it ends in; reading succeeds exactly when git show can
      print all of these, so not for a submodule, nor for a cut name that is nowhere. */
  lemma MigrationsReadExactly(R: Readers, id: string, tree: Tree)
    ensures ReadMigrations(R, id, tree, MigrationNames(tree)).Ok? <==>
      forall n :: ReadAsMigration(tree, n) ==> Show(id, tree, n).Some?
    ensures ReadMigrations(R, id, tree, MigrationNames(tree)).Ok? ==>
      forall m :: m in ReadMigrations(R, id, tree, MigrationNames(tree)).value <==>
        exists n :: ReadAsMigration(tree, n) && m == R.migration(n, TrackedFile(id, tree, n).value)
  {
    forall n ensures n in MigrationNames(tree) && EndsWith(n, ".py") <==> ReadAsMigration(tree, n) {
      if n in MigrationNames(tree) && EndsWith(n, ".py") { ListedIsMigration(tree, n); }
      if IsMigrationPath(tree, n) && PlainName(n) { PlainMigrationIsListed(tree, n); }
      if CutName(tree, n) { CutNameIsListed(tree, n); }
    }
    ReadMigrationsAre(R, id, tree, MigrationNames(tree));
  }

  // ---- Selecting commits ----

  function Resolve(repo: Repo, ref: string): Result<string>
  {
    var commit := if IsHex40(ref) then ref else if ref in repo.refs then repo.refs[ref] else "";
    var _ :- Require(commit in repo.commits, "ref does not resolve to a commit");
    var _ :- Require(IsHex40(commit), "resolved ref is not a full Git commit");
    Ok(commit)
  }

  function Checkout(repos: Repos, spec: (string, string), clean: bool): Result<Repo>
  {
    var _ :- Require(spec.0 in repos, "missing repository path");
    var _ :- Require(repos[spec.0].origin == Some(spec.1), "repository origin mismatch");
    var _ :- Require(clean ==> repos[spec.0].clean, "repository must be clean");
    Ok(repos[spec.0])
  }

  function ResolveAll(specs: seq<(string, string)>, repos: Repos, refs: map<string, string>, clean: bool)
    : Result<map<string, string>>
    decreases |specs|
  {
    if specs == [] then Ok(map[])
    else
      var repo :- Checkout(repos, specs[0], clean);
      var commit :- Resolve(repo, if specs[0].0 in refs then refs[specs[0].0] else "HEAD");
      var rest :- ResolveAll(specs[1..], repos, refs, clean);
      Ok(rest[specs[0].0 := commit])
  }

  predicate Selected(repos: Repos, resolved: map<string, string>, key: string)
  {
    key in repos && key in resolved && resolved[key] in repos[key].commits
  }

  function Components(H: Hash, R: Readers, specs: seq<(string, string)>, repos: Repos, resolved: map<string, string>)
    : Result<Document>
    decreases |specs|
  {
    if specs == [] then Ok(map[])
    else
      var key := specs[0].0;
      var _ :- Require(Selected(repos, resolved, key), "commit is not available");
      var record :- ComponentRecord(H, R, specs[0].1, resolved[key], repos[key].commits[resolved[key]]);
      var rest :- Components(H, R, specs[1..], repos, resolved);
      Ok(rest[key := Obj(record)])
  }

  // ---- Compatibility with the committed evidence ----

  function BaselineCommit(baselines: Document, key: string): Result<string>
  {
    var j := Get(baselines, key);
    var _ :- Require(j.Str? && IsHex40(j.text), "P1.9 evidence must include the head commit");
    Ok(j.text)
  }

  function BaselineVersion(baselines: Document): Result<string>
  {
    var j := Get(baselines, "a2a_otel_kit_runtime_version");
    var _ :- Require(j.Str? && j.text != "", "P1.9 evidence must include the runtime version");
    Ok(j.text)
  }

  ghost function Related(H: Hash, repos: Repos, resolved: map<string, string>, key: string, evidence: string)
    : Result<Document>
  {
    var _ :- Require(Selected(repos, resolved, key), "commit is not available");
    var relation :- CompatibilityRelation(H, repos[key], evidence, resolved[key]);
    Ok(map["evidence_commit" := Str(evidence), "selected_commit" := Str(resolved[key])] + relation)
  }

  ghost function RelatedByTag(H: Hash, repos: Repos, resolved: map<string, string>, version: string): Result<Document>
  {
    var _ :- Require(Selected(repos, resolved, OTEL_KIT), "commit is not available");
    var tagged :- Resolve(repos[OTEL_KIT], "v" + version);
    var relation :- CompatibilityRelation(H, repos[OTEL_KIT], tagged, resolved[OTEL_KIT]);
    Ok(TagBody(version, tagged, resolved[OTEL_KIT]) + relation)
  }

  function TagBody(version: string, tagged: string, selected: string): Document
  {
    map["evidence_runtime_version" := Str(version), "evidence_tag" := Str("v" + version),
        "evidence_tag_commit" := Str(tagged), "selected_commit" := Str(selected)]
  }

  ghost function CompatibilityRecord(H: Hash, repos: Repos, resolved: map<string, string>, evidence: Document)
    : Result<Document>
  {
    var baselines := Under(Under(evidence, P1_9), "baselines");
    var g :- BaselineCommit(baselines, "governance_head");
    var c :- BaselineCommit(baselines, "credit_desk_head");
    var version :- BaselineVersion(baselines);
    var governance :- Related(H, repos, resolved, GOVERNANCE, g);
    var desk :- Related(H, repos, resolved, CREDIT_DESK, c);
    var kit :- RelatedByTag(H, repos, resolved, version);
    var _ :- Require(ROUTER in resolved, "commit is not available");
    Ok(CompatibilityBody(governance, desk, kit, resolved[ROUTER]))
  }

  function CompatibilityBody(governance: Document, desk: Document, kit: Document, router: string): Document
  {
    map["latest_runtime_evidence" := Str(P1_9), GOVERNANCE := Obj(governance), CREDIT_DESK := Obj(desk),
        OTEL_KIT := Obj(kit),
        ROUTER := Obj(map["selected_commit" := Str(router), "evidence_binding" := Str("not_attested_by_p1_9_report")]),
        "limitation" := Str(LIMITATION)]
  }

  // ---- The manifest ----

  datatype Committed = Committed(evidence: Document, provenance: Document, database: Document, date: string)

  ghost function CommittedRecords(H: Hash, R: Readers, id: string, commit: Commit): Result<Committed>
  {
    var evidence :- EvidenceRecords(H, R, EVIDENCE_FILES, id, commit.tree);
    var provenance :- ProvenanceRecord(H, PROVENANCE_FILES, id, commit.tree);
    var database :- DatabaseRecord(H, R, id, commit.tree);
    Ok(Committed(evidence, provenance, database, commit.date))
  }

  datatype Sections = Sections(components: Document, committed: Committed, compatibility: Document)

  ghost function Derive(H: Hash, R: Readers, repos: Repos, resolved: map<string, string>): Result<Sections>
  {
    var components :- Components(H, R, COMPONENTS, repos, resolved);
    var _ :- Require(Selected(repos, resolved, GOVERNANCE), "commit is not available");
    var committed :- CommittedRecords(H, R, resolved[GOVERNANCE], repos[GOVERNANCE].commits[resolved[GOVERNANCE]]);
    var compatibility :- CompatibilityRecord(H, repos, resolved, committed.evidence);
    Ok(Sections(components, committed, compatibility))
  }

  function Body(version: string, s: Sections): Document
  {
    map["schema_version" := Str(SCHEMA_VERSION), "kind" := Str(KIND), "canonicalization" := Str(CANONICALIZATION),
        "release" := Obj(map["version" := Str(version), "source_date" := Str(s.committed.date)]),
        "components" := Obj(s.components), "governance_provenance" := Obj(s.committed.provenance),
        "database" := Obj(s.committed.database), "evidence" := Obj(s.committed.evidence),
        "compatibility" := Obj(s.compatibility)]
  }

  ghost function Build(H: Hash, R: Readers, version: string, repos: Repos, refs: map<string, string>, clean: bool)
    : Result<Document>
  {
    var _ :- Require(IsRelease(version), "release version must be SemVer-like");
    var resolved :- ResolveAll(COMPONENTS, repos, refs, clean);
    var sections :- Derive(H, R, repos, resolved);
    Ok(Seal(H, Body(version, sections), "manifest_digest"))
  }

  predicate Identified(doc: Document)
  {
    && doc.Keys == ALLOWED
    && Get(doc, "schema_version") == Str(SCHEMA_VERSION)
    && Get(doc, "kind") == Str(KIND)
    && Get(doc, "canonicalization") == Str(CANONICALIZATION)
  }

  function DeclaredVersion(doc: Document): Result<string>
  {
    var release := Get(doc, "release");
    var _ :- Require(release.Obj?, "release must be an object");
    var version := Get(release.members, "version");
    var _ :- Require(version.Str? && IsRelease(version.text), "release.version is invalid");
    Ok(version.text)
  }

  function ValidateShape(H: Hash, doc: Document): Result<string>
  {
    var _ :- Require(Identified(doc), "missing or unsupported top-level fields");
    var _ :- VerifySelfDigest(H, doc, "manifest_digest");
    DeclaredVersion(doc)
  }

  function ComponentCommit(components: Document, key: string): Result<string>
  {
    var record := Get(components, key);
    var _ :- Require(record.Obj?, "component must be an object");
    var commit := Get(record.members, "commit");
    var _ :- Require(commit.Str? && IsHex40(commit.text), "component commit must be a full Git SHA");
    Ok(commit.text)
  }

  function DeclaredCommits(specs: seq<(string, string)>, repos: Repos, components: Document)
    : Result<map<string, string>>
    decreases |specs|
  {
    if specs == [] then Ok(map[])
    else
      var _ :- Checkout(repos, specs[0], false);
      var commit :- ComponentCommit(components, specs[0].0);
      var rest :- DeclaredCommits(specs[1..], repos, components);
      Ok(rest[specs[0].0 := commit])
  }

  /** The manifest that the version and the commits declared in doc give. */
  ghost function Rederived(H: Hash, R: Readers, doc: Document, repos: Repos): Result<Document>
  {
    var version :- DeclaredVersion(doc);
    var components := Get(doc, "components");
    var _ :- Require(components.Obj?, "components must be an object");
    var declared :- DeclaredCommits(COMPONENTS, repos, components.members);
    Build(H, R, version, repos, declared, false)
  }

  ghost function Verify(H: Hash, R: Readers, doc: Document, repos: Repos): Result<()>
  {
    var _ :- ValidateShape(H, doc);
    var expected :- Rederived(H, R, doc, repos);
    Require(Print(Obj(expected), false) == Print(Obj(doc), false), "manifest does not match re-derived state")
  }
}
