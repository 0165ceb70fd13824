/** Release build provenance: the generator that writes archives, bundles, the provenance
    document and the subject checksums, and the verifier that re-derives them. */
module BuildProvenance {
  import opened Text
  import opened CanonicalJson
  import opened Outcome
  import opened Evidence
  import opened Paths
  import opened Checksums
  import opened FilesBundle

  const KIND := "verifiable-ai-governance/release-build-provenance"
  const MANIFEST_KIND := "verifiable-ai-governance/release-evidence-manifest"
  const SECURITY_KIND := "verifiable-ai-governance/release-security-evidence"
  const MANIFEST := "artifacts/release/release-manifest.json"
  const SECURITY_ROOT := "artifacts/release/security/"
  const SECURITY_BUNDLE := "artifacts/release/security/security-evidence-bundle.json"
  const COMPONENT_ORDER := ["governance", "policy_model_router", "multi_agent_credit_desk", "a2a_otel_kit"]
  const EVIDENCE_ROLE := "release_evidence_bundle"
  const RECIPE_ROLE := "build_recipe_bundle"
  const GZIP := "application/gzip"

  /** The files of the repository checkout, by relative path. */
  type Files = map<string, string>

  /** Hashing, JSON text, the archive encoding and the four source repositories. */
  datatype Ports = Ports(
    H: Hash,
    readJson: string -> Result<Document>,
    writeJson: Document -> string,
    encode: Archive -> string,
    decode: string -> Result<Archive>,
    epoch: string -> Result<int>,
    remote: string -> Result<string>,
    gitArchive: (string, string, string) -> Result<string>)

  // ---- Upstream evidence ----

  datatype Binding = Binding(commit: string, lockfileSha: string, repository: string)

  datatype Upstream = Upstream(manifestDigest: string, securityDigest: string, policyDigest: Json, date: string,
                               version: string, bindings: map<string, Binding>)

  function ReadDocument(P: Ports, files: Files, path: string): Result<Document>
  {
    if path in files then P.readJson(files[path]) else Err("cannot read JSON object")
  }

  function ManifestDigest(H: Hash, manifest: Document): Result<string>
  {
    var _ :- Require(Get(manifest, "kind") == Str(MANIFEST_KIND), "unexpected manifest kind");
    VerifySelfDigest(H, manifest, "manifest_digest")
  }

  function SecurityDigest(H: Hash, security: Document, manifestDigest: string): Result<string>
  {
    var _ :- Require(Get(security, "kind") == Str(SECURITY_KIND), "unexpected security bundle kind");
    var _ :- Require(Get(security, "release_manifest_digest") == Str(manifestDigest), "not bound to the manifest");
    var digest :- VerifySelfDigest(H, security, "bundle_digest");
    var _ :- Require(Get(security, "verdict") == Str("pass"), "security verdict must be pass");
    Ok(digest)
  }

  function DateAndVersion(P: Ports, manifest: Document): Result<(string, string)>
  {
    var release := Get(manifest, "release");
    var _ :- Require(release.Obj?, "release metadata is missing");
    var date, version := Get(release.members, "source_date"), Get(release.members, "version");
    var _ :- Require(date.Str? && version.Str?, "malformed release metadata");
    var _ :- P.epoch(date.text);
    Ok((date.text, version.text))
  }

  function BindingOf(components: Document, name: string): Result<Binding>
  {
    var raw := Get(components, name);
    var _ :- Require(raw.Obj?, "missing component");
    var repository, commit, lockfile :=
      Get(raw.members, "repository"), Get(raw.members, "commit"), Get(raw.members, "lockfile");
    var _ :- Require(repository.Str? && commit.Str?, "malformed component");
    var _ :- Require(lockfile.Obj? && Get(lockfile.members, "sha256").Str?, "malformed lockfile binding");
    Ok(Binding(commit.text, Get(lockfile.members, "sha256").text, repository.text))
  }

  function Bindings(components: Document, names: seq<string>): Result<map<string, Binding>>
  {
    if names == [] then Ok(map[])
    else
      var binding :- BindingOf(components, names[0]);
      var rest :- Bindings(components, names[1..]);
      Ok(rest[names[0] := binding])
  }

  function BindingJson(b: Binding): Json
  {
    Obj(map["commit" := Str(b.commit), "lockfile_sha256" := Str(b.lockfileSha), "repository" := Str(b.repository)])
  }

  function BindingsJson(bindings: map<string, Binding>): Json
  {
    Obj(map k | k in bindings :: BindingJson(bindings[k]))
  }

  function ReadUpstream(P: Ports, files: Files, manifestPath: string, securityPath: string): Result<Upstream>
  {
    var manifest :- ReadDocument(P, files, manifestPath);
    var manifestDigest :- ManifestDigest(P.H, manifest);
    var release :- DateAndVersion(P, manifest);
    var security :- ReadDocument(P, files, securityPath);
    var securityDigest :- SecurityDigest(P.H, security, manifestDigest);
    var components := Get(manifest, "components");
    var _ :- Require(components.Obj?, "manifest components are missing");
    var bindings :- Bindings(components.members, COMPONENT_ORDER);
    Ok(Upstream(manifestDigest, securityDigest, Get(security, "policy_digest"), release.0, release.1, bindings))
  }

  function CheckIdentities(P: Ports, bindings: map<string, Binding>, names: seq<string>): Result<()>
  {
    if names == [] then Ok(())
    else
      var observed :- P.remote(names[0]);
      var _ :- Require(names[0] in bindings && observed == bindings[names[0]].repository,
                       "repository identity mismatch");
      CheckIdentities(P, bindings, names[1..])
  }

  // ---- Generated subjects ----

  datatype Product = Product(role: string, data: string)

  /** A generated subject, keyed by its path. */
  type Output = (string, Product)

  function Record(H: Hash, o: Output): Document
  {
    map["media_type" := Str(GZIP), "path" := Str(o.0), "role" := Str(o.1.role), "sha256" := Str(H(o.1.data)),
        "size_bytes" := Int(|o.1.data|)]
  }

  function Records(H: Hash, outputs: seq<Output>): seq<Document>
  {
    seq(|outputs|, i requires 0 <= i < |outputs| => Record(H, outputs[i]))
  }

  function Stem(name: string, commit: string): string
  {
    name + "-" + if |commit| <= 12 then commit else commit[..12]
  }

  function ArchiveRole(name: string): string { "source_archive:" + name }

  function ArchivePath(out: string, name: string, commit: string): string
  {
    out + "/sources" + "/" + (Stem(name, commit) + ".tar.gz")
  }

  function EvidencePath(out: string, version: string): string {
    out + "/" + ("release-evidence-" + version + ".tar.gz")
  }

  function RecipePath(out: string, version: string): string { out + "/" + ("build-recipe-" + version + ".tar.gz") }

  function ProvenancePath(out: string): string { out + "/" + ("release-" + "build-provenance.json") }

  function ChecksumsPath(out: string): string { out + "/" + "release-subjects.sha256" }

  function SourceArchive(P: Ports, bindings: map<string, Binding>, name: string): Result<string>
  {
    var _ :- Require(name in bindings, "missing component");
    P.gitArchive(name, bindings[name].commit, Stem(name, bindings[name].commit))
  }

  function Archives(P: Ports, out: string, bindings: map<string, Binding>, names: seq<string>): Result<seq<Output>>
  {
    if names == [] then Ok([])
    else
      var data :- SourceArchive(P, bindings, names[0]);
      var rest :- Archives(P, out, bindings, names[1..]);
      Ok([(ArchivePath(out, names[0], bindings[names[0]].commit), Product(ArchiveRole(names[0]), data))] + rest)
  }

  function WriteAll(files: Files, outputs: seq<Output>): Files
    decreases |outputs|
  {
    if outputs == [] then files else WriteAll(files[outputs[0].0 := outputs[0].1.data], outputs[1..])
  }

  // ---- Bundles ----

  function SecurityFiles(files: Files): set<string>
  {
    set p | p in files && StartsWith(p, SECURITY_ROOT)
  }

  function EntriesAt(files: Files, paths: seq<string>): seq<Entry>
    requires forall p :: p in paths ==> p in files
  {
    seq(|paths|, i requires 0 <= i < |paths| => assert paths[i] in paths; (paths[i], files[paths[i]]))
  }

  /** The manifest and every file under the security directory. */
  function EvidenceEntries(files: Files): Result<seq<Entry>>
  {
    var _ :- Require(MANIFEST in files, "release manifest is missing");
    Ok([(MANIFEST, files[MANIFEST])] + EntriesAt(files, SortedKeys(SecurityFiles(files))))
  }

  function BundleBytes(P: Ports, entries: seq<Entry>, date: string): Result<string>
  {
    var epoch :- P.epoch(date);
    var archive :- Bundle(entries, epoch);
    Ok(P.encode(archive))
  }

  function EvidenceBytes(P: Ports, files: Files, date: string): Result<string>
  {
    var entries :- EvidenceEntries(files);
    BundleBytes(P, entries, date)
  }

  function RecipeEntries(files: Files, recipe: seq<string>): Result<seq<Entry>>
  {
    var _ :- Require(forall p | p in recipe :: p in files, "build recipe file is missing");
    Ok(EntriesAt(files, recipe))
  }

  function FileFact(H: Hash, e: Entry): Json
  {
    Obj(map["path" := Str(e.0), "sha256" := Str(H(e.1)), "size_bytes" := Int(|e.1|)])
  }

  function FileFacts(H: Hash, entries: seq<Entry>): seq<Json>
  {
    seq(|entries|, i requires 0 <= i < |entries| => FileFact(H, entries[i]))
  }

  // ---- The provenance document ----

  function Attestation(): Json
  {
    Obj(map["action" := Str("actions/attest@v4"), "predicate_type" := Str("https://slsa.dev/provenance/v1"),
            "provider" := Str("github-artifact-attestations"),
            "signing_identity" := Str("github-actions-oidc-sigstore"), "subject_mode" := Str("checksums"),
            "workflow_path" := Str(".github/workflows/release-provenance.yml")])
  }

  function UpstreamRoots(u: Upstream): Json
  {
    Obj(map[
      "release_manifest" := Obj(map["digest" := Str(u.manifestDigest), "path" := Str(MANIFEST)]),
      "security_evidence" := Obj(map["digest" := Str(u.securityDigest), "path" := Str(SECURITY_BUNDLE),
                                     "policy_digest" := u.policyDigest])])
  }

  function Objects(docs: seq<Document>): seq<Json>
  {
    seq(|docs|, i requires 0 <= i < |docs| => Obj(docs[i]))
  }

  function Body(u: Upstream, subjects: seq<Document>, recipe: Document, recipeFiles: seq<Json>): Document
  {
    map["attestation" := Attestation(),
        "build_recipe" := Obj(map["bundle" := Obj(recipe), "files" := Arr(recipeFiles)]),
        "canonicalization" := Str("json-sort-keys-compact-v1"), "kind" := Str(KIND),
        "release_version" := Str(u.version), "schema_version" := Str("1.0"),
        "source_bindings" := BindingsJson(u.bindings), "source_date" := Str(u.date),
        "subjects" := Arr(Objects(subjects)), "upstream_roots" := UpstreamRoots(u)]
  }

  // ---- The generator ----

  datatype Request = Request(manifestPath: string, securityPath: string, out: string, expected: Option<string>,
                             clean: bool, recipe: seq<string>)

  predicate Exists(files: Files, dir: string)
  {
    dir in files || exists p :: p in files && StartsWith(p, dir + "/")
  }

  function Preflight(P: Ports, files: Files, r: Request): Result<Upstream>
  {
    var _ :- Require(r.clean, "governance worktree must be clean");
    var u :- ReadUpstream(P, files, r.manifestPath, r.securityPath);
    var _ :- Require(r.expected.Some? ==> r.expected.value == u.version, "release version mismatch");
    var _ :- Require(u.policyDigest.Str?, "security policy digest is missing");
    var _ :- CheckIdentities(P, u.bindings, COMPONENT_ORDER);
    var _ :- Require(!Exists(files, r.out), "output directory already exists");
    Ok(u)
  }

  /** The six subjects, in the order they are written, and the recipe files.  The evidence bundle
      is collected after the source archives have been written. */
  function Outputs(P: Ports, files: Files, r: Request, u: Upstream): (made: Result<(seq<Output>, seq<Entry>)>)
    ensures made.Ok? ==> made.value.0 != []
  {
    var archives :- Archives(P, r.out, u.bindings, COMPONENT_ORDER);
    var written := WriteAll(files, archives);
    var _ :- Require(SecurityFiles(written) != {}, "security evidence directory is missing");
    var evidence :- EvidenceBytes(P, written, u.date);
    var after := written[EvidencePath(r.out, u.version) := evidence];
    var entries :- RecipeEntries(after, r.recipe);
    var recipe :- BundleBytes(P, entries, u.date);
    Ok((archives + [(EvidencePath(r.out, u.version), Product(EVIDENCE_ROLE, evidence))]
                 + [(RecipePath(r.out, u.version), Product(RECIPE_ROLE, recipe))], entries))
  }

  /** The document over the subjects; the last of them is the recipe bundle. */
  function Provenance(H: Hash, u: Upstream, outputs: seq<Output>, entries: seq<Entry>): Document
    requires outputs != []
  {
    Seal(H, Body(u, Records(H, Sort(outputs)), Record(H, outputs[|outputs| - 1]), FileFacts(H, entries)),
         "provenance_digest")
  }

  /** The subjects, then the document, then the checksum file. */
  function Assemble(P: Ports, files: Files, out: string, outputs: seq<Output>, provenance: Document)
    : Result<(Files, Document)>
  {
    var text := P.writeJson(provenance);
    var checksums :- ChecksumText(Records(P.H, outputs), (ProvenancePath(out), P.H(text)));
    Ok((WriteAll(files, outputs)[ProvenancePath(out) := text][ChecksumsPath(out) := checksums], provenance))
  }

  function Produce(P: Ports, files: Files, r: Request, u: Upstream): Result<(Files, Document)>
  {
    var made :- Outputs(P, files, r, u);
    Assemble(P, files, r.out, made.0, Provenance(P.H, u, made.0, made.1))
  }

  /** What a successful run leaves: the files it wrote, and the provenance document. */
  function Generate(P: Ports, files: Files, r: Request): Result<(Files, Document)>
  {
    var u :- Preflight(P, files, r);
    Produce(P, files, r, u)
  }

  lemma GenerateSteps(P: Ports, files: Files, r: Request)
    ensures Generate(P, files, r).Ok? <==>
      Preflight(P, files, r).Ok? && Produce(P, files, r, Preflight(P, files, r).value).Ok?
    ensures Preflight(P, files, r).Ok? ==> Generate(P, files, r) == Produce(P, files, r, Preflight(P, files, r).value)
  {
  }

  lemma PreflightFacts(P: Ports, files: Files, r: Request)
    requires Preflight(P, files, r).Ok?
    ensures !Exists(files, r.out) && Preflight(P, files, r) == ReadUpstream(P, files, r.manifestPath, r.securityPath)
    ensures CheckIdentities(P, Preflight(P, files, r).value.bindings, COMPONENT_ORDER).Ok?
  {
  }

  lemma PreflightChecks(P: Ports, files: Files, r: Request)
    requires Preflight(P, files, r).Ok?
    ensures var u := Preflight(P, files, r).value;
      r.clean && u.policyDigest.Str? && (r.expected.Some? ==> r.expected.value == u.version)
  {
  }

  // ---- The verifier ----

  /** Where a relative path leads. */
  function Locate(path: string): string { AsPosix(Parts(path)) }

  predicate Inside(path: string, dir: string) { Parts(dir) <= Parts(path) }

  function CheckSubject(H: Hash, files: Files, out: string, raw: Json): Result<Document>
  {
    var _ :- Require(raw.Obj?, "malformed provenance subject");
    var path, digest, size := Get(raw.members, "path"), Get(raw.members, "sha256"), Get(raw.members, "size_bytes");
    var _ :- Require(path.Str? && digest.Str? && size.Int?, "malformed provenance subject fields");
    var _ :- SafeRelativePath(path.text);
    var _ :- Require(Inside(path.text, out), "subject is outside provenance root");
    var _ :- Require(Locate(path.text) in files, "missing provenance subject");
    var data := files[Locate(path.text)];
    var _ :- Require(H(data) == digest.text && |data| == size.number, "subject digest/size mismatch");
    Ok(raw.members)
  }

  function CheckSubjects(H: Hash, files: Files, out: string, raws: seq<Json>): Result<seq<Document>>
  {
    if raws == [] then Ok([])
    else
      var record :- CheckSubject(H, files, out, raws[0]);
      var rest :- CheckSubjects(H, files, out, raws[1..]);
      Ok([record] + rest)
  }

  method VerifySubjectFiles(H: Hash, files: Files, out: string, raws: seq<Json>) returns (r: Result<seq<Document>>)
    ensures r == CheckSubjects(H, files, out, raws)
  {
    var subjects: seq<Document> := [];
    assert raws[0..] == raws;
    PrependEnds(subjects, CheckSubjects(H, files, out, raws));
    for i := 0 to |raws|
      invariant Prepend(subjects, CheckSubjects(H, files, out, raws[i..])) == CheckSubjects(H, files, out, raws)
    {
      assert raws[i..][1..] == raws[i + 1..];
      var record := CheckSubject(H, files, out, raws[i]);
      if record.Err? { return Err(record.reason); }
      PrependMore(subjects, record.value, CheckSubjects(H, files, out, raws[i + 1..]));
      subjects := subjects + [record.value];
    }
    PrependEnds(subjects, Ok([]));
    return Ok(subjects);
  }

  /** The role index: of several subjects with one role the last counts. */
  function ByRole(subjects: seq<Document>, role: string): Option<Document>
  {
    if subjects == [] then None
    else
      var later := ByRole(subjects[1..], role);
      if later.Some? then later
      else if Get(subjects[0], "role") == Str(role) then Some(subjects[0]) else None
  }

  function CheckArchive(P: Ports, bindings: map<string, Binding>, subjects: seq<Document>, name: string): Result<()>
  {
    var record := ByRole(subjects, ArchiveRole(name));
    var _ :- Require(record.Some?, "missing source archive subject");
    var expected :- SourceArchive(P, bindings, name);
    Require(Get(record.value, "sha256") == Str(P.H(expected)), "source archive is not reproducible")
  }

  function CheckArchives(P: Ports, bindings: map<string, Binding>, subjects: seq<Document>, names: seq<string>)
    : Result<()>
  {
    if names == [] then Ok(())
    else
      var _ :- CheckArchive(P, bindings, subjects, names[0]);
      CheckArchives(P, bindings, subjects, names[1..])
  }

  function CheckEvidence(P: Ports, files: Files, date: string, subjects: seq<Document>): Result<()>
  {
    var record := ByRole(subjects, EVIDENCE_ROLE);
    var _ :- Require(record.Some?, "missing release evidence bundle subject");
    var expected :- EvidenceBytes(P, files, date);
    Require(Get(record.value, "sha256") == Str(P.H(expected)), "release evidence bundle is not reproducible")
  }

  function CheckRecipeFile(H: Hash, embedded: map<string, string>, raw: Json): Result<string>
  {
    var _ :- Require(raw.Obj?, "malformed build recipe file record");
    var path, digest, size := Get(raw.members, "path"), Get(raw.members, "sha256"), Get(raw.members, "size_bytes");
    var _ :- Require(path.Str? && digest.Str? && size.Int?, "malformed build recipe file fields");
    var _ :- Require(path.text in embedded && H(embedded[path.text]) == digest.text
                     && |embedded[path.text]| == size.number,
                     "build recipe member mismatch");
    Ok(path.text)
  }

  function CheckRecipeFiles(H: Hash, embedded: map<string, string>, raws: seq<Json>): Result<seq<string>>
  {
    if raws == [] then Ok([])
    else
      var path :- CheckRecipeFile(H, embedded, raws[0]);
      var rest :- CheckRecipeFiles(H, embedded, raws[1..]);
      Ok([path] + rest)
  }

  /** The recorded paths, collected in a set. */
  method ExpectedRecipePaths(H: Hash, embedded: map<string, string>, raws: seq<Json>) returns (r: Result<set<string>>)
    ensures r.Ok? <==> CheckRecipeFiles(H, embedded, raws).Ok?
    ensures r.Ok? ==> r.value == set p | p in CheckRecipeFiles(H, embedded, raws).value
  {
    var paths: seq<string>, expected: set<string> := [], {};
    assert raws[0..] == raws;
    PrependEnds(paths, CheckRecipeFiles(H, embedded, raws));
    for i := 0 to |raws|
      invariant expected == set p | p in paths
      invariant Prepend(paths, CheckRecipeFiles(H, embedded, raws[i..])) == CheckRecipeFiles(H, embedded, raws)
    {
      assert raws[i..][1..] == raws[i + 1..];
      var path := CheckRecipeFile(H, embedded, raws[i]);
      if path.Err? { return Err(path.reason); }
      PrependMore(paths, path.value, CheckRecipeFiles(H, embedded, raws[i + 1..]));
      paths := paths + [path.value];
      expected := expected + {path.value};
    }
    PrependEnds(paths, Ok([]));
    return Ok(expected);
  }

  function Embedded(P: Ports, files: Files, record: Document): Result<map<string, string>>
  {
    var path := Get(record, "path");
    var _ :- Require(path.Str? && Locate(path.text) in files, "build recipe bundle path is invalid");
    var archive :- P.decode(files[Locate(path.text)]);
    ReadFrom(archive, map[])
  }

  function CheckRecipe(P: Ports, files: Files, recipe: Json, subjects: seq<Document>): Result<()>
  {
    var record := ByRole(subjects, RECIPE_ROLE);
    var _ :- Require(record.Some?, "missing build recipe bundle subject");
    var _ :- Require(recipe.Obj? && Get(recipe.members, "bundle") == Obj(record.value), "build recipe bundle binding");
    var inventory := Get(recipe.members, "files");
    var _ :- Require(inventory.Arr?, "build recipe file inventory is missing");
    var embedded :- Embedded(P, files, record.value);
    var paths :- CheckRecipeFiles(P.H, embedded, inventory.items);
    Require(forall k | k in embedded :: k in paths, "build recipe bundle contains unexpected members")
  }

  function CheckChecksums(P: Ports, files: Files, out: string, subjects: seq<Document>): Result<()>
  {
    var _ :- Require(ChecksumsPath(out) in files && ProvenancePath(out) in files, "release-subjects.sha256 is missing");
    var observed :- Parse(files[ChecksumsPath(out)]);
    var text :- ChecksumText(subjects, (ProvenancePath(out), P.H(files[ProvenancePath(out)])));
    var expected :- Parse(text);
    Require(observed == expected, "release-subjects.sha256 is inconsistent")
  }

  predicate UpstreamBound(roots: Json, u: Upstream)
  {
    && roots.Obj?
    && Get(roots.members, "release_manifest").Obj?
    && Get(Get(roots.members, "release_manifest").members, "digest") == Str(u.manifestDigest)
    && Get(roots.members, "security_evidence").Obj?
    && Get(Get(roots.members, "security_evidence").members, "digest") == Str(u.securityDigest)
    && Get(Get(roots.members, "security_evidence").members, "policy_digest") == u.policyDigest
  }

  predicate Claims(provenance: Document, u: Upstream)
  {
    && Get(provenance, "kind") == Str(KIND)
    && Get(provenance, "release_version") == Str(u.version)
    && Get(provenance, "source_date") == Str(u.date)
    && UpstreamBound(Get(provenance, "upstream_roots"), u)
    && Get(provenance, "source_bindings") == BindingsJson(u.bindings)
    && Get(provenance, "attestation") == Attestation()
  }

  function CheckContents(P: Ports, files: Files, out: string, u: Upstream, provenance: Document): Result<()>
  {
    var raws := Get(provenance, "subjects");
    var _ :- Require(raws.Arr?, "provenance subjects are missing");
    var subjects :- CheckSubjects(P.H, files, out, raws.items);
    var _ :- CheckIdentities(P, u.bindings, COMPONENT_ORDER);
    var _ :- CheckArchives(P, u.bindings, subjects, COMPONENT_ORDER);
    var _ :- CheckEvidence(P, files, u.date, subjects);
    var _ :- CheckRecipe(P, files, Get(provenance, "build_recipe"), subjects);
    CheckChecksums(P, files, out, subjects)
  }

  function Verify(P: Ports, files: Files, manifestPath: string, securityPath: string, out: string): Result<Document>
  {
    var u :- ReadUpstream(P, files, manifestPath, securityPath);
    var provenance :- ReadDocument(P, files, ProvenancePath(out));
    var _ :- VerifySelfDigest(P.H, provenance, "provenance_digest");
    var _ :- Require(Claims(provenance, u), "provenance does not match its upstream evidence");
    var _ :- CheckContents(P, files, out, u, provenance);
    Ok(provenance)
  }
}
