/** What accepted and generated provenance says in terms of the manifest document and the source
    repositories: which commit is archived, what is bundled, and what the document repeats. */
module ProvenanceMeaning {
  import opened Text
  import opened CanonicalJson
  import opened Outcome
  import opened Evidence
  import opened FilesBundle
  import opened BuildProvenance
  import opened ProvenanceSoundness
  import opened ProvenanceAgreement
  import opened ProvenanceRoundTrip

  // ---- The upstream documents ----

  /** The two documents, each with a valid digest of its own, the second bound to the first. */
  ghost predicate UpstreamRead(P: Ports, files: Files, manifestPath: string, securityPath: string, manifest: Document,
                               security: Document)
  {
    && manifestPath in files && P.readJson(files[manifestPath]) == Ok(manifest)
    && securityPath in files && P.readJson(files[securityPath]) == Ok(security)
    && Get(manifest, "kind") == Str("verifiable-ai-governance/release-evidence-manifest")
    && VerifySelfDigest(P.H, manifest, "manifest_digest").Ok?
    && Get(security, "kind") == Str("verifiable-ai-governance/release-security-evidence")
    && VerifySelfDigest(P.H, security, "bundle_digest").Ok?
    && Get(security, "release_manifest_digest") == Get(manifest, "manifest_digest")
    && Get(security, "verdict") == Str("pass")
  }

  function ComponentOf(manifest: Document, name: string): Document
  {
    Under(Under(manifest, "components"), name)
  }

  /** The record of a component as the manifest has it. */
  predicate BoundTo(b: Binding, component: Document)
  {
    && Get(component, "commit") == Str(b.commit) && Get(component, "repository") == Str(b.repository)
    && Get(Under(component, "lockfile"), "sha256") == Str(b.lockfileSha)
  }

  predicate AllBound(bindings: map<string, Binding>, components: Document, names: seq<string>)
  {
    && (forall name | name in names :: name in bindings && BoundTo(bindings[name], Under(components, name)))
    && (forall name | name in bindings :: name in names)
  }

  lemma BindingReads(components: Document, name: string)
    requires BindingOf(components, name).Ok?
    ensures BoundTo(BindingOf(components, name).value, Under(components, name))
  {
  }

  lemma {:induction false} BindingsRead(components: Document, names: seq<string>)
    requires Bindings(components, names).Ok?
    ensures AllBound(Bindings(components, names).value, components, names)
  {
    if names != [] {
      BindingReads(components, names[0]);
      BindingsRead(components, names[1..]);
      assert forall name :: name in names <==> name == names[0] || name in names[1..];
    }
  }

  /** What is read from the two documents. */
  predicate UpstreamMeans(u: Upstream, manifest: Document, security: Document)
  {
    && Get(manifest, "manifest_digest") == Str(u.manifestDigest)
    && Get(security, "bundle_digest") == Str(u.securityDigest) && Get(security, "policy_digest") == u.policyDigest
    && Get(Under(manifest, "release"), "source_date") == Str(u.date)
    && Get(Under(manifest, "release"), "version") == Str(u.version)
    && AllBound(u.bindings, Under(manifest, "components"), COMPONENT_ORDER)
  }

  lemma DigestsRead(H: Hash, manifest: Document, security: Document)
    requires ManifestDigest(H, manifest).Ok? && SecurityDigest(H, security, ManifestDigest(H, manifest).value).Ok?
    ensures Get(manifest, "kind") == Str(MANIFEST_KIND) && VerifySelfDigest(H, manifest, "manifest_digest").Ok?
    ensures Get(security, "kind") == Str(SECURITY_KIND) && VerifySelfDigest(H, security, "bundle_digest").Ok?
    ensures Get(manifest, "manifest_digest") == Str(ManifestDigest(H, manifest).value)
    ensures Get(security, "release_manifest_digest") == Get(manifest, "manifest_digest")
    ensures Get(security, "bundle_digest") == Str(SecurityDigest(H, security, ManifestDigest(H, manifest).value).value)
    ensures Get(security, "verdict") == Str("pass")
  {
  }

  lemma ReleaseReads(P: Ports, manifest: Document)
    requires DateAndVersion(P, manifest).Ok?
    ensures var (date, version) := DateAndVersion(P, manifest).value;
      && Get(Under(manifest, "release"), "source_date") == Str(date)
      && Get(Under(manifest, "release"), "version") == Str(version) && P.epoch(date).Ok?
  {
  }

  lemma UpstreamIsRead(P: Ports, files: Files, manifestPath: string, securityPath: string)
    returns (manifest: Document, security: Document)
    requires ReadUpstream(P, files, manifestPath, securityPath).Ok?
    ensures UpstreamRead(P, files, manifestPath, securityPath, manifest, security)
    ensures UpstreamMeans(ReadUpstream(P, files, manifestPath, securityPath).value, manifest, security)
    ensures P.epoch(ReadUpstream(P, files, manifestPath, securityPath).value.date).Ok?
  {
    manifest := P.readJson(files[manifestPath]).value;
    security := P.readJson(files[securityPath]).value;
    DigestsRead(P.H, manifest, security);
    ReleaseReads(P, manifest);
    BindingsRead(Get(manifest, "components").members, COMPONENT_ORDER);
  }

  // ---- Source archives ----

  function FirstTwelve(commit: string): string
  {
    if |commit| > 12 then commit[..12] else commit
  }

  /** The archive of the component at this commit, its members under name-commit12/. */
  function ArchiveAt(P: Ports, name: string, commit: string): Result<string>
  {
    P.gitArchive(name, commit, name + "-" + FirstTwelve(commit))
  }

  lemma ArchivedCommit(P: Ports, bindings: map<string, Binding>, name: string)
    requires SourceArchive(P, bindings, name).Ok?
    ensures name in bindings && SourceArchive(P, bindings, name) == ArchiveAt(P, name, bindings[name].commit)
  {
  }

  /** The subject of the component has the bytes of its repository's archive at the commit that the
      manifest states, short of a collision. */
  ghost predicate ArchivesManifestCommit(P: Ports, files: Files, provenance: Document, manifest: Document, name: string)
  {
    var commit := Get(ComponentOf(manifest, name), "commit");
    && commit.Str? && ArchiveAt(P, name, commit.text).Ok?
    && Reproduced(P.H, files, provenance, "source_archive:" + name, ArchiveAt(P, name, commit.text).value)
    && P.remote(name).Ok? && Get(ComponentOf(manifest, name), "repository") == Str(P.remote(name).value)
  }

  lemma {:induction false} IdentitiesChecked(P: Ports, bindings: map<string, Binding>, names: seq<string>, name: string)
    requires CheckIdentities(P, bindings, names).Ok? && name in names
    ensures name in bindings && P.remote(name) == Ok(bindings[name].repository)
  {
    if name != names[0] { IdentitiesChecked(P, bindings, names[1..], name); }
  }

  // ---- The evidence bundle ----

  /** The manifest and every file below the security directory. */
  predicate IsEvidence(files: Files, path: string)
  {
    path in files
    && (path == "artifacts/release/release-manifest.json" || StartsWith(path, "artifacts/release/security/"))
  }

  /** The encoded archive that packs these entries under the release date. */
  ghost predicate Bundled(P: Ports, entries: seq<Entry>, date: string, bytes: string)
  {
    P.epoch(date).Ok? && exists archive: Archive {:trigger P.encode(archive)} ::
      Packs(archive, entries, P.epoch(date).value) && bytes == P.encode(archive)
  }

  lemma BundleIsWritten(P: Ports, entries: seq<Entry>, date: string)
    requires BundleBytes(P, entries, date).Ok?
    ensures Bundled(P, entries, date, BundleBytes(P, entries, date).value)
  {
    var epoch := P.epoch(date).value;
    BundlePacks(entries, epoch);
    assert BundleBytes(P, entries, date) == Ok(P.encode(Bundle(entries, epoch).value));
  }

  /** Each evidence file once, with its bytes, and nothing else. */
  ghost predicate ListsEvidence(files: Files, entries: seq<Entry>)
  {
    && (forall path :: IsEvidence(files, path) <==> exists e :: e in entries && e.0 == path)
    && (forall e :: e in entries ==> e.0 in files && e.1 == files[e.0])
    && DistinctKeys(entries)
  }

  /** The encoded archive of exactly the evidence files. */
  ghost predicate BundlesEvidence(P: Ports, files: Files, date: string, bytes: string)
  {
    exists entries: seq<Entry> :: ListsEvidence(files, entries) && Bundled(P, entries, date, bytes)
  }

  lemma EntriesListed(files: Files, paths: seq<string>, path: string)
    requires forall p :: p in paths ==> p in files
    ensures path in paths <==> exists e :: e in EntriesAt(files, paths) && e.0 == path
    ensures forall e :: e in EntriesAt(files, paths) ==> e.0 in files && e.1 == files[e.0]
  {
    if path in paths {
      var i :| 0 <= i < |paths| && paths[i] == path;
      assert EntriesAt(files, paths)[i].0 == path;
    }
  }

  lemma IncreasingApart(keys: seq<string>, i: nat, j: nat)
    requires StrictlyIncreasing(keys) && i < j < |keys|
    ensures keys[i] != keys[j]
  {
    LessIrreflexive(keys[j]);
  }

  // One entry for a path that is not among the others, and one for each of these.
  lemma EntriesApart(files: Files, first: Entry, keys: seq<string>)
    requires StrictlyIncreasing(keys) && first.0 !in keys && forall p :: p in keys ==> p in files
    ensures DistinctKeys([first] + EntriesAt(files, keys))
  {
    var entries := [first] + EntriesAt(files, keys);
    forall i, j | 0 <= i < j < |entries| ensures entries[i].0 != entries[j].0 {
      assert entries[j].0 == keys[j - 1] && keys[j - 1] in keys;
      if i > 0 { IncreasingApart(keys, i - 1, j - 1); }
    }
  }

  lemma EntriesDistinct(files: Files)
    requires EvidenceEntries(files).Ok?
    ensures DistinctKeys(EvidenceEntries(files).value)
  {
    var keys := SortedKeys(SecurityFiles(files));
    SortedKeysIncrease(SecurityFiles(files));
    assert MANIFEST !in keys by { assert MANIFEST[18] == 'r' && SECURITY_ROOT[18] == 's'; }
    EntriesApart(files, (MANIFEST, files[MANIFEST]), keys);
  }

  lemma EvidenceListed(files: Files)
    requires EvidenceEntries(files).Ok?
    ensures var entries := EvidenceEntries(files).value;
      && (forall path :: IsEvidence(files, path) <==> exists e :: e in entries && e.0 == path)
      && (forall e :: e in entries ==> e.0 in files && e.1 == files[e.0])
  {
    var keys := SortedKeys(SecurityFiles(files));
    var rest, entries := EntriesAt(files, keys), EvidenceEntries(files).value;
    assert entries == [(MANIFEST, files[MANIFEST])] + rest;
    forall path ensures IsEvidence(files, path) <==> exists e :: e in entries && e.0 == path {
      EntriesListed(files, keys, path);
      assert (exists e :: e in entries && e.0 == path) <==> path == MANIFEST || exists e :: e in rest && e.0 == path;
    }
    EntriesListed(files, keys, "");
  }

  lemma EvidenceIsBundled(P: Ports, files: Files, date: string)
    requires EvidenceBytes(P, files, date).Ok?
    ensures BundlesEvidence(P, files, date, EvidenceBytes(P, files, date).value)
  {
    var entries := EvidenceEntries(files).value;
    EvidenceListed(files);
    EntriesDistinct(files);
    BundleIsWritten(P, entries, date);
    assert ListsEvidence(files, entries);
  }

  // ---- What acceptance means ----

  /** The document repeats the release, the digests and, for each component, what the manifest says. */
  predicate Repeats(provenance: Document, manifest: Document, security: Document)
  {
    var roots, sources := Under(provenance, "upstream_roots"), Under(provenance, "source_bindings");
    && Get(provenance, "release_version") == Get(Under(manifest, "release"), "version")
    && Get(provenance, "source_date") == Get(Under(manifest, "release"), "source_date")
    && Get(Under(roots, "release_manifest"), "digest") == Get(manifest, "manifest_digest")
    && Get(Under(roots, "security_evidence"), "digest") == Get(security, "bundle_digest")
    && Get(Under(roots, "security_evidence"), "policy_digest") == Get(security, "policy_digest")
    && SignedByWorkflow(Under(provenance, "attestation"))
    && sources.Keys == (set name | name in COMPONENT_ORDER)
    && forall name | name in COMPONENT_ORDER :: RepeatsComponent(Under(sources, name), ComponentOf(manifest, name))
  }

  /** The checksum file is what the release workflow attests. */
  predicate SignedByWorkflow(attestation: Document)
  {
    && Get(attestation, "provider") == Str("github-artifact-attestations")
    && Get(attestation, "action") == Str("actions/attest@v4")
    && Get(attestation, "signing_identity") == Str("github-actions-oidc-sigstore")
    && Get(attestation, "predicate_type") == Str("https://slsa.dev/provenance/v1")
    && Get(attestation, "subject_mode") == Str("checksums")
    && Get(attestation, "workflow_path") == Str(".github/workflows/release-provenance.yml")
  }

  lemma AttestationIsSigned()
    ensures Attestation().Obj? && SignedByWorkflow(Attestation().members)
  {
    assert |"action"| == 6 && |"predicate_type"| == 14 && |"provider"| == 8;
    assert |"signing_identity"| == 16 && |"subject_mode"| == 12 && |"workflow_path"| == 13;
  }

  predicate RepeatsComponent(source: Document, component: Document)
  {
    && Get(source, "commit") == Get(component, "commit") && Get(source, "repository") == Get(component, "repository")
    && Get(source, "lockfile_sha256") == Get(Under(component, "lockfile"), "sha256")
  }

  lemma BindingFields(b: Binding, component: Document)
    requires BoundTo(b, component)
    ensures BindingJson(b).Obj? && RepeatsComponent(BindingJson(b).members, component)
  {
    assert |"commit"| == 6 && |"lockfile_sha256"| == 15 && |"repository"| == 10;
  }

  lemma SourcesRepeat(provenance: Document, bindings: map<string, Binding>, manifest: Document)
    requires Get(provenance, "source_bindings") == BindingsJson(bindings)
    requires AllBound(bindings, Under(manifest, "components"), COMPONENT_ORDER)
    ensures var sources := Under(provenance, "source_bindings");
      && sources.Keys == (set name | name in COMPONENT_ORDER)
      && forall name | name in COMPONENT_ORDER :: RepeatsComponent(Under(sources, name), ComponentOf(manifest, name))
  {
    var sources := Under(provenance, "source_bindings");
    assert sources == map k | k in bindings :: BindingJson(bindings[k]);
    forall name | name in COMPONENT_ORDER
      ensures RepeatsComponent(Under(sources, name), ComponentOf(manifest, name))
    {
      BindingFields(bindings[name], ComponentOf(manifest, name));
    }
  }

  lemma RootsRepeat(roots: Json, u: Upstream, manifest: Document, security: Document)
    requires UpstreamBound(roots, u) && UpstreamMeans(u, manifest, security)
    ensures roots.Obj?
    ensures Get(Under(roots.members, "release_manifest"), "digest") == Get(manifest, "manifest_digest")
    ensures Get(Under(roots.members, "security_evidence"), "digest") == Get(security, "bundle_digest")
    ensures Get(Under(roots.members, "security_evidence"), "policy_digest") == Get(security, "policy_digest")
  {
  }

  lemma ClaimsRepeat(provenance: Document, u: Upstream, manifest: Document, security: Document)
    requires Claims(provenance, u) && UpstreamMeans(u, manifest, security)
    ensures Repeats(provenance, manifest, security)
  {
    AttestationIsSigned();
    RootsRepeat(Get(provenance, "upstream_roots"), u, manifest, security);
    SourcesRepeat(provenance, u.bindings, manifest);
  }

  lemma ContentsIdentified(P: Ports, files: Files, out: string, u: Upstream, provenance: Document)
    requires CheckContents(P, files, out, u, provenance).Ok?
    ensures CheckIdentities(P, u.bindings, COMPONENT_ORDER).Ok?
  {
  }

  lemma VerifiedContents(P: Ports, files: Files, manifestPath: string, securityPath: string, out: string)
    requires Verify(P, files, manifestPath, securityPath, out).Ok?
    ensures ReadUpstream(P, files, manifestPath, securityPath).Ok? && ReadDocument(P, files, ProvenancePath(out)).Ok?
    ensures CheckContents(P, files, out, ReadUpstream(P, files, manifestPath, securityPath).value,
                          ReadDocument(P, files, ProvenancePath(out)).value).Ok?
  {
  }

  /** An accepted provenance: for each component the archive of the very commit the manifest states,
      from the repository it names; the evidence bundle of exactly the evidence files; and a document
      that repeats what the two upstream documents say. */
  lemma AcceptedProvenanceMeans(P: Ports, files: Files, manifestPath: string, securityPath: string, out: string)
    returns (manifest: Document, security: Document, provenance: Document, evidence: string)
    requires Verify(P, files, manifestPath, securityPath, out).Ok?
    ensures UpstreamRead(P, files, manifestPath, securityPath, manifest, security)
    ensures Verify(P, files, manifestPath, securityPath, out) == Ok(provenance)
    ensures Repeats(provenance, manifest, security)
    ensures forall name :: name in COMPONENT_ORDER ==> ArchivesManifestCommit(P, files, provenance, manifest, name)
    ensures Get(Under(manifest, "release"), "source_date").Str?
    ensures BundlesEvidence(P, files, Get(Under(manifest, "release"), "source_date").text, evidence)
    ensures Reproduced(P.H, files, provenance, "release_evidence_bundle", evidence)
  {
    var u: Upstream;
    u, provenance := AcceptedProvenanceIsReproducible(P, files, manifestPath, securityPath, out);
    manifest, security := UpstreamIsRead(P, files, manifestPath, securityPath);
    ClaimsRepeat(provenance, u, manifest, security);
    VerifiedContents(P, files, manifestPath, securityPath, out);
    ContentsIdentified(P, files, out, u, provenance);
    forall name | name in COMPONENT_ORDER ensures ArchivesManifestCommit(P, files, provenance, manifest, name) {
      ArchiveMeans(P, files, u, provenance, manifest, name);
    }
    evidence := EvidenceBytes(P, files, u.date).value;
    EvidenceIsBundled(P, files, u.date);
  }

  lemma ArchiveMeans(P: Ports, files: Files, u: Upstream, provenance: Document, manifest: Document, name: string)
    requires ArchivesReproduced(P, files, u.bindings, provenance) && name in COMPONENT_ORDER
    requires AllBound(u.bindings, Under(manifest, "components"), COMPONENT_ORDER)
    requires CheckIdentities(P, u.bindings, COMPONENT_ORDER).Ok?
    ensures ArchivesManifestCommit(P, files, provenance, manifest, name)
  {
    assert ArchiveReproduced(P, files, u.bindings, provenance, name);
    ArchivedCommit(P, u.bindings, name);
    IdentitiesChecked(P, u.bindings, COMPONENT_ORDER, name);
    assert BoundTo(u.bindings[name], ComponentOf(manifest, name));
  }

  // ---- What a run writes ----

  /** The file of a component's source archive. */
  function ArchiveFile(out: string, name: string, commit: string): string
  {
    out + "/sources/" + name + "-" + FirstTwelve(commit) + ".tar.gz"
  }

  lemma ArchiveFileIs(out: string, name: string, commit: string)
    ensures ArchivePath(out, name, commit) == ArchiveFile(out, name, commit)
  {
    assert out + "/sources" + "/" + (Stem(name, commit) + ".tar.gz")
        == out + ("/sources" + "/") + Stem(name, commit) + ".tar.gz";
    assert "/sources" + "/" == "/sources/";
    assert out + "/sources/" + (name + "-" + FirstTwelve(commit))
        == out + "/sources/" + name + "-" + FirstTwelve(commit);
  }

  /** After a run the file of the component holds its repository's archive at the manifest's commit. */
  ghost predicate WritesManifestCommit(P: Ports, out: string, final: Files, manifest: Document, name: string)
  {
    var commit := Get(ComponentOf(manifest, name), "commit");
    && commit.Str? && ArchiveFile(out, name, commit.text) in final
    && Ok(final[ArchiveFile(out, name, commit.text)]) == ArchiveAt(P, name, commit.text)
  }

  lemma {:induction false} ArchiveOutputs(P: Ports, out: string, bindings: map<string, Binding>, names: seq<string>,
                                          i: nat)
    requires Archives(P, out, bindings, names).Ok? && i < |names|
    ensures |Archives(P, out, bindings, names).value| == |names| && names[i] in bindings
    ensures var o := Archives(P, out, bindings, names).value[i];
      && o.0 == ArchiveFile(out, names[i], bindings[names[i]].commit)
      && Ok(o.1.data) == ArchiveAt(P, names[i], bindings[names[i]].commit)
      && o.1.role == "source_archive:" + names[i]
  {
    ArchivedCommit(P, bindings, names[0]);
    ArchiveFileIs(out, names[0], bindings[names[0]].commit);
    if |names| > 1 { ArchiveOutputs(P, out, bindings, names[1..], if i == 0 then 0 else i - 1); }
  }

  lemma GeneratedRun(P: Ports, files: Files, r: Request, u: Upstream, final: Files, provenance: Document)
    returns (run: Run)
    requires Generate(P, files, r) == Ok((final, provenance)) && Preflight(P, files, r) == Ok(u) && Placeable(r.out, u)
    ensures Proper(P, files, r, run) && run.u == u && run.final == final && Present(final, run.outputs)
    ensures run.provenance == provenance
    ensures |run.archives| == 4 && |run.outputs| == 6
    ensures run.outputs[4] == (EvidencePath(r.out, u.version), Product(EVIDENCE_ROLE, run.evidence))
    ensures ReadUpstream(P, files, r.manifestPath, r.securityPath) == Ok(u)
  {
    run := RunOf(P, files, r);
    PreflightFacts(P, files, r);
    ProperDisk(P, files, r, run);
    FinalHas(files, r.out, run.outputs, P.writeJson(run.provenance), run.checksums, run.final);
    FourArchives(P, files, r, run);
  }

  /** A run starts from a clean checkout, an output directory that is not there, and, where a release
      version is asked for, the manifest's. */
  lemma GeneratesFromClean(P: Ports, files: Files, r: Request) returns (manifest: Document, security: Document)
    requires Generate(P, files, r).Ok?
    ensures r.clean && r.out !in files && forall p :: p in files ==> !(r.out + "/" <= p)
    ensures UpstreamRead(P, files, r.manifestPath, r.securityPath, manifest, security)
    ensures r.expected.Some? ==> Get(Under(manifest, "release"), "version") == Str(r.expected.value)
    ensures Get(security, "policy_digest").Str?
    ensures forall name :: name in COMPONENT_ORDER ==>
      P.remote(name).Ok? && Get(ComponentOf(manifest, name), "repository") == Str(P.remote(name).value)
  {
    PreflightFacts(P, files, r);
    PreflightChecks(P, files, r);
    manifest, security := UpstreamIsRead(P, files, r.manifestPath, r.securityPath);
    RemotesMatch(P, Preflight(P, files, r).value.bindings, manifest);
  }

  lemma RemotesMatch(P: Ports, bindings: map<string, Binding>, manifest: Document)
    requires CheckIdentities(P, bindings, COMPONENT_ORDER).Ok?
    requires AllBound(bindings, Under(manifest, "components"), COMPONENT_ORDER)
    ensures forall name :: name in COMPONENT_ORDER ==>
      P.remote(name).Ok? && Get(ComponentOf(manifest, name), "repository") == Str(P.remote(name).value)
  {
    forall name | name in COMPONENT_ORDER
      ensures P.remote(name).Ok? && Get(ComponentOf(manifest, name), "repository") == Str(P.remote(name).value)
    {
      IdentitiesChecked(P, bindings, COMPONENT_ORDER, name);
      assert BoundTo(bindings[name], ComponentOf(manifest, name));
    }
  }

  /** A successful run in a new plain directory writes, for each component, the archive of the very
      commit that the manifest states. */
  lemma GeneratedArchivesMean(P: Ports, files: Files, r: Request, u: Upstream, final: Files, provenance: Document)
    returns (manifest: Document, security: Document)
    requires Generate(P, files, r) == Ok((final, provenance)) && Preflight(P, files, r) == Ok(u) && Placeable(r.out, u)
    ensures UpstreamRead(P, files, r.manifestPath, r.securityPath, manifest, security)
    ensures forall i :: 0 <= i < |COMPONENT_ORDER| ==>
      WritesManifestCommit(P, r.out, final, manifest, COMPONENT_ORDER[i])
  {
    var run := GeneratedRun(P, files, r, u, final, provenance);
    manifest, security := UpstreamIsRead(P, files, r.manifestPath, r.securityPath);
    WrittenArchives(P, files, r, run, manifest);
  }

  /** And, outside the security evidence, the bundle of exactly the evidence files. */
  lemma GeneratedBundleMeans(P: Ports, files: Files, r: Request, u: Upstream, final: Files, provenance: Document)
    requires Generate(P, files, r) == Ok((final, provenance)) && Preflight(P, files, r) == Ok(u) && Placeable(r.out, u)
    requires !InsideSecurity(r.out) && NormalFiles(files) && MANIFEST in files
    ensures EvidencePath(r.out, u.version) in final
    ensures BundlesEvidence(P, files, u.date, final[EvidencePath(r.out, u.version)])
  {
    var run := GeneratedRun(P, files, r, u, final, provenance);
    WrittenEvidence(P, files, r, run);
    assert final[run.outputs[4].0] == run.outputs[4].1.data;
  }

  /** The recipe files in order, with the bytes they had before the run, and their inventory. */
  ghost predicate ListsRecipe(H: Hash, files: Files, recipe: seq<string>, entries: seq<Entry>, inventory: Json)
  {
    && |entries| == |recipe| && inventory.Arr? && |inventory.items| == |recipe|
    && forall i :: 0 <= i < |recipe| ==>
         && entries[i].0 == recipe[i] && (recipe[i] in files ==> entries[i].1 == files[recipe[i]])
         && DescribesFile(H, inventory.items[i], entries[i])
  }

  predicate DescribesFile(H: Hash, fact: Json, e: Entry)
  {
    && fact.Obj? && Get(fact.members, "path") == Str(e.0) && Get(fact.members, "sha256") == Str(H(e.1))
    && Get(fact.members, "size_bytes") == Int(|e.1|)
  }

  lemma FactDescribes(H: Hash, e: Entry)
    ensures DescribesFile(H, FileFact(H, e), e)
  {
    assert |"path"| == 4 && |"sha256"| == 6 && |"size_bytes"| == 10;
  }

  lemma RecipeIsListed(H: Hash, files: Files, after: Files, recipe: seq<string>, entries: seq<Entry>)
    requires RecipeEntries(after, recipe) == Ok(entries)
    requires forall p :: p in files ==> p in after && after[p] == files[p]
    ensures ListsRecipe(H, files, recipe, entries, Arr(FileFacts(H, entries)))
  {
    forall i | 0 <= i < |recipe| ensures DescribesFile(H, FileFacts(H, entries)[i], entries[i]) {
      FactDescribes(H, entries[i]);
    }
    forall i | 0 <= i < |recipe| && recipe[i] in files ensures entries[i].1 == files[recipe[i]] {
      assert recipe[i] in recipe;
    }
  }

  lemma RecipeOfRun(P: Ports, files: Files, r: Request, run: Run)
    requires Proper(P, files, r, run)
    ensures ListsRecipe(P.H, files, r.recipe, run.entries, Arr(FileFacts(P.H, run.entries)))
  {
    ProperDisk(P, files, r, run);
    FourArchives(P, files, r, run);
    NothingOverwritten(P, files, r, run);
    RecipeIsListed(P.H, files, WriteAll(files, run.archives)[EvidencePath(r.out, run.u.version) := run.evidence],
                   r.recipe, run.entries);
  }

  lemma NothingOverwritten(P: Ports, files: Files, r: Request, run: Run)
    requires Proper(P, files, r, run) && |run.outputs| == 6
    requires Disk(files, r.out, run.outputs, P.writeJson(run.provenance), run.checksums, run.final)
    requires WellPlaced(r.out, run.archives)
    requires run.outputs[4].0 == EvidencePath(r.out, run.u.version)
    ensures var after := WriteAll(files, run.archives)[EvidencePath(r.out, run.u.version) := run.evidence];
      forall p :: p in files ==> p in after && after[p] == files[p]
  {
    forall p | p in files
      ensures p in WriteAll(files, run.archives) && WriteAll(files, run.archives)[p] == files[p]
      ensures p != EvidencePath(r.out, run.u.version)
    {
      ArchivesKeep(files, r.out, run.archives, p);
      NotAnExistingPath(files, r.out, run.outputs, p);
      assert run.outputs[4] in run.outputs;
    }
  }

  /** The recipe bundle packs exactly the recipe files, the document lists them with their digests
      and sizes, and it repeats what the two upstream documents say. */
  lemma GeneratedRecipeMeans(P: Ports, files: Files, r: Request, u: Upstream, final: Files, provenance: Document)
    returns (manifest: Document, security: Document, entries: seq<Entry>)
    requires Sha256Shaped(P.H)
    requires Generate(P, files, r) == Ok((final, provenance)) && Preflight(P, files, r) == Ok(u) && Placeable(r.out, u)
    ensures UpstreamRead(P, files, r.manifestPath, r.securityPath, manifest, security)
    ensures Repeats(provenance, manifest, security) && VerifySelfDigest(P.H, provenance, "provenance_digest").Ok?
    ensures ListsRecipe(P.H, files, r.recipe, entries, Get(Under(provenance, "build_recipe"), "files"))
    ensures r.out + "/build-recipe-" + u.version + ".tar.gz" in final
    ensures Bundled(P, entries, u.date, final[r.out + "/build-recipe-" + u.version + ".tar.gz"])
  {
    var run := GeneratedRun(P, files, r, u, final, provenance);
    manifest, security := UpstreamIsRead(P, files, r.manifestPath, r.securityPath);
    entries := run.entries;
    DocumentClaims(P, run);
    ClaimsRepeat(provenance, u, manifest, security);
    RecipeOfRun(P, files, r, run);
    InventoryOfRun(P, run);
    RecipeWritten(P, files, r, run);
  }

  lemma InventoryOfRun(P: Ports, run: Run)
    requires |run.outputs| == 6 && run.provenance == Provenance(P.H, run.u, run.outputs, run.entries)
    ensures Get(Under(run.provenance, "build_recipe"), "files") == Arr(FileFacts(P.H, run.entries))
  {
    DocumentContents(P, run);
    assert |"bundle"| == 6 && |"files"| == 5;
  }

  lemma RecipeWritten(P: Ports, files: Files, r: Request, run: Run)
    requires Collected(P, files, r, run) && Present(run.final, run.outputs)
    ensures r.out + "/build-recipe-" + run.u.version + ".tar.gz" in run.final
    ensures Bundled(P, run.entries, run.u.date, run.final[r.out + "/build-recipe-" + run.u.version + ".tar.gz"])
  {
    BundleIsWritten(P, run.entries, run.u.date);
    SixShape(P, files, r, run);
    RecipePathIs(r.out, run.u.version);
    assert run.outputs[5].0 in run.final && run.final[run.outputs[5].0] == run.recipe;
  }

  lemma RecipePathIs(out: string, version: string)
    ensures RecipePath(out, version) == out + "/build-recipe-" + version + ".tar.gz"
  {
    assert out + "/" + ("build-recipe-" + version + ".tar.gz") == out + ("/" + "build-recipe-") + version + ".tar.gz";
    assert "/" + "build-recipe-" == "/build-recipe-";
  }

  lemma WrittenArchive(P: Ports, files: Files, r: Request, run: Run, manifest: Document, i: nat)
    requires Collected(P, files, r, run) && Present(run.final, run.outputs) && i < |COMPONENT_ORDER|
    requires |run.archives| == 4 && |run.outputs| == 6
    requires AllBound(run.u.bindings, Under(manifest, "components"), COMPONENT_ORDER)
    ensures WritesManifestCommit(P, r.out, run.final, manifest, COMPONENT_ORDER[i])
  {
    var name := COMPONENT_ORDER[i];
    ArchiveOutputs(P, r.out, run.u.bindings, COMPONENT_ORDER, i);
    assert run.outputs[i] == run.archives[i];
    assert run.outputs[i].0 in run.final && run.final[run.outputs[i].0] == run.outputs[i].1.data;
    assert name in COMPONENT_ORDER && BoundTo(run.u.bindings[name], ComponentOf(manifest, name));
  }

  lemma WrittenArchives(P: Ports, files: Files, r: Request, run: Run, manifest: Document)
    requires Collected(P, files, r, run) && Present(run.final, run.outputs)
    requires |run.archives| == 4 && |run.outputs| == 6
    requires AllBound(run.u.bindings, Under(manifest, "components"), COMPONENT_ORDER)
    ensures forall i :: 0 <= i < |COMPONENT_ORDER| ==>
      WritesManifestCommit(P, r.out, run.final, manifest, COMPONENT_ORDER[i])
  {
    forall i | 0 <= i < |COMPONENT_ORDER|
      ensures WritesManifestCommit(P, r.out, run.final, manifest, COMPONENT_ORDER[i])
    {
      WrittenArchive(P, files, r, run, manifest, i);
    }
  }

  lemma WrittenEvidence(P: Ports, files: Files, r: Request, run: Run)
    requires Proper(P, files, r, run) && NormalFiles(files) && MANIFEST in files && !InsideSecurity(r.out)
    ensures BundlesEvidence(P, files, run.u.date, run.evidence)
  {
    ProperDisk(P, files, r, run);
    FourArchives(P, files, r, run);
    var written := WriteAll(files, run.archives);
    ArchivesGrow(files, r.out, run.archives);
    OutsideEvidence(files, r.out, written);
    EvidenceIsBundled(P, files, run.u.date);
  }
}
