/** What a built or accepted index says about the five documents, and which documents build. */
module IndexMeaning {
  import opened Text
  import opened CanonicalJson
  import opened Outcome
  import opened Evidence
  import opened ReleaseIndex

  // ---- Which documents build ----

  function CommitOf(manifest: Document, component: string): Json
  {
    Get(Under(Under(manifest, "components"), component), "commit")
  }

  /** The manifest of this release: the three pinned components, a full governance commit, a digest. */
  predicate ReleaseManifest(manifest: Document)
  {
    && CommitOf(manifest, "policy_model_router") == Str(ROUTER_COMMIT)
    && CommitOf(manifest, "multi_agent_credit_desk") == Str(CREDIT_DESK_COMMIT)
    && CommitOf(manifest, "a2a_otel_kit") == Str(OTEL_KIT_COMMIT)
    && CommitOf(manifest, "governance").Str? && IsHex40(CommitOf(manifest, "governance").text)
    && Get(Under(manifest, "release"), "version") == Str(RELEASE_VERSION)
    && Get(manifest, "manifest_digest").Str? && Hex64(Get(manifest, "manifest_digest").text)
  }

  lemma ManifestInfoIff(manifest: Document)
    ensures ManifestReleaseInfo(manifest).Ok? <==> ReleaseManifest(manifest)
    ensures ManifestReleaseInfo(manifest).Ok? ==>
      var info := ManifestReleaseInfo(manifest).value;
      && Str(info.version) == Get(Under(manifest, "release"), "version")
      && Str(info.commit) == CommitOf(manifest, "governance")
      && Str(info.digest) == Get(manifest, "manifest_digest")
  {
  }

  /** A document's own digest is a digest, and its verdict, if it states one, is "pass". */
  predicate Recordable(doc: Document, field: string, verdict: bool)
  {
    && Get(doc, field).Str? && Hex64(Get(doc, field).text)
    && (verdict ==> Get(doc, "verdict") == Null || Get(doc, "verdict") == Str("pass"))
  }

  /** The four documents are of the manifest's release, the security bundle was made against this
      manifest, and the receipt for its governance commit. */
  predicate BoundToManifest(roots: Roots)
  {
    var version := Get(Under(roots.manifest, "release"), "version");
    && Get(roots.security, "release_version") == version && Get(roots.provenance, "release_version") == version
    && Get(roots.benchmark, "release_version") == version && Get(roots.cleanInstall, "release_version") == version
    && Get(roots.security, "release_manifest_digest") == Get(roots.manifest, "manifest_digest")
    && Get(Under(roots.cleanInstall, "source"), "governance_commit") == CommitOf(roots.manifest, "governance")
  }

  predicate DemoIdentified(demo: map<string, string>)
  {
    && demo.Keys == {"scenario_id", "identity_scheme", "initiative_id", "ai_system_id", "approved_model_id",
                     "out_of_scope_model_id", "agent_id"}
    && demo["identity_scheme"] == "uuidv5"
  }

  lemma InfoBindingsIff(roots: Roots, demo: map<string, string>, info: ReleaseInfo)
    requires ManifestReleaseInfo(roots.manifest) == Ok(info)
    requires Str(info.version) == Get(Under(roots.manifest, "release"), "version")
    requires Str(info.commit) == CommitOf(roots.manifest, "governance")
    requires Str(info.digest) == Get(roots.manifest, "manifest_digest")
    ensures CheckBindings(roots, demo).Ok? <==> BoundToManifest(roots) && DemoIdentified(demo)
    ensures CheckBindings(roots, demo).Ok? ==> CheckBindings(roots, demo) == Ok(info)
  {
  }

  lemma BindingsIff(roots: Roots, demo: map<string, string>)
    ensures CheckBindings(roots, demo).Ok? <==>
      ReleaseManifest(roots.manifest) && BoundToManifest(roots) && DemoIdentified(demo)
    ensures CheckBindings(roots, demo).Ok? ==> CheckBindings(roots, demo) == ManifestReleaseInfo(roots.manifest)
  {
    ManifestInfoIff(roots.manifest);
    var info := ManifestReleaseInfo(roots.manifest);
    if info.Ok? { InfoBindingsIff(roots, demo, info.value); }
  }

  lemma RecordsIff(roots: Roots, info: ReleaseInfo)
    requires Get(roots.manifest, "manifest_digest") == Str(info.digest) && Hex64(info.digest)
    ensures RootRecords(roots, info).Ok? <==>
      && Recordable(roots.security, "bundle_digest", true) && Recordable(roots.provenance, "provenance_digest", false)
      && Recordable(roots.benchmark, "bundle_digest", true) && Recordable(roots.cleanInstall, "evidence_digest", true)
  {
  }

  /** The index is built exactly from five documents of one release that are bound to its manifest. */
  lemma IndexBuildsIff(H: Hash, roots: Roots, demo: map<string, string>)
    ensures BuildIndex(H, roots, demo).Ok? <==>
      && ReleaseManifest(roots.manifest) && BoundToManifest(roots) && DemoIdentified(demo)
      && Recordable(roots.security, "bundle_digest", true) && Recordable(roots.provenance, "provenance_digest", false)
      && Recordable(roots.benchmark, "bundle_digest", true) && Recordable(roots.cleanInstall, "evidence_digest", true)
  {
    BindingsIff(roots, demo);
    if CheckBindings(roots, demo).Ok? {
      ManifestInfoIff(roots.manifest);
      RecordsIff(roots, CheckBindings(roots, demo).value);
    }
  }

  // ---- What the index says ----

  /** The entry of one document: its own file, its own digest, and its verdict if it states one. */
  predicate Entry(roots: Document, name: string, path: string, digest: Json, verdict: Json)
  {
    var entry := Under(roots, name);
    Get(entry, "path") == Str(path) && Get(entry, "digest") == digest && Get(entry, "verdict") == verdict
  }

  /** The five entries, each under the name and with the file of its document. */
  predicate Entries(entries: Document, roots: Roots)
  {
    && entries.Keys == {"release_manifest", "security_evidence", "build_provenance", "runtime_benchmark",
                        "clean_install"}
    && Entry(entries, "release_manifest", "artifacts/release/release-manifest.json",
             Get(roots.manifest, "manifest_digest"), Null)
    && Entry(entries, "security_evidence", "artifacts/release/security/security-evidence-bundle.json",
             Get(roots.security, "bundle_digest"), Get(roots.security, "verdict"))
    && Entry(entries, "build_provenance", "artifacts/release/provenance/release-build-provenance.json",
             Get(roots.provenance, "provenance_digest"), Null)
    && Entry(entries, "runtime_benchmark", "artifacts/release/benchmark/runtime-benchmark-bundle.json",
             Get(roots.benchmark, "bundle_digest"), Get(roots.benchmark, "verdict"))
    && Entry(entries, "clean_install", "artifacts/release/clean-install/clean-install-evidence.json",
             Get(roots.cleanInstall, "evidence_digest"), Get(roots.cleanInstall, "verdict"))
  }

  /** Who attests, by which workflow, over which two checksum files. */
  predicate Attests(attestation: Document)
  {
    && Get(attestation, "provider") == Str("github-artifact-attestations")
    && Get(attestation, "action") == Str("actions/attest@v4")
    && Get(attestation, "workflow_path") == Str(".github/workflows/release-provenance.yml")
    && Get(attestation, "provenance_subject_checksums") == Str("artifacts/release/provenance/release-subjects.sha256")
    && Get(attestation, "release_candidate_subject_checksums")
       == Str("artifacts/release/release-candidate-subjects.sha256")
  }

  /** The release and source commit of the manifest, the five entries, the demo identity. */
  predicate IndexMeans(index: Document, roots: Roots, demo: map<string, string>)
  {
    && Get(index, "release_version") == Get(Under(roots.manifest, "release"), "version")
    && Get(index, "source_commit") == CommitOf(roots.manifest, "governance")
    && Entries(Under(index, "roots"), roots) && Attests(Under(index, "attestation"))
    && Under(index, "canonical_demo").Keys == demo.Keys
    && (forall k | k in demo :: Get(Under(index, "canonical_demo"), k) == Str(demo[k]))
    && Get(index, "verdict") == Str("pass")
  }

  lemma TableEntries(roots: Roots, info: ReleaseInfo)
    requires Get(roots.manifest, "manifest_digest") == Str(info.digest) && RootRecords(roots, info).Ok?
    ensures Entries(RootRecords(roots, info).value, roots)
  {
    var m, p := RootRecord(RELEASE_MANIFEST, Str(info.digest), Null).value,
                RootRecord(PROVENANCE, Get(roots.provenance, "provenance_digest"), Null).value;
    var s := RootRecord(SECURITY_BUNDLE, Get(roots.security, "bundle_digest"), Get(roots.security, "verdict")).value;
    var b := RootRecord(BENCHMARK_BUNDLE, Get(roots.benchmark, "bundle_digest"),
                        Get(roots.benchmark, "verdict")).value;
    var c := RootRecord(CLEAN_INSTALL_EVIDENCE, Get(roots.cleanInstall, "evidence_digest"),
                        Get(roots.cleanInstall, "verdict")).value;
    RootRecordShape(RELEASE_MANIFEST, Str(info.digest), Null);
    RootRecordShape(SECURITY_BUNDLE, Get(roots.security, "bundle_digest"), Get(roots.security, "verdict"));
    RootRecordShape(PROVENANCE, Get(roots.provenance, "provenance_digest"), Null);
    RootRecordShape(BENCHMARK_BUNDLE, Get(roots.benchmark, "bundle_digest"), Get(roots.benchmark, "verdict"));
    RootRecordShape(CLEAN_INSTALL_EVIDENCE, Get(roots.cleanInstall, "evidence_digest"),
                    Get(roots.cleanInstall, "verdict"));
    RecordTableShape(m, s, p, b, c);
    TableKeys(m, s, p, b, c);
  }

  lemma TableKeys(m: Json, s: Json, p: Json, b: Json, c: Json)
    ensures RecordTable(m, s, p, b, c).Keys
         == {"release_manifest", "security_evidence", "build_provenance", "runtime_benchmark", "clean_install"}
  {
  }

  lemma BodyMeans(info: ReleaseInfo, records: Document, demo: map<string, string>)
    ensures var body := IndexBody(info, records, demo);
      && Get(body, "release_version") == Str(info.version) && Get(body, "source_commit") == Str(info.commit)
      && Under(body, "roots") == records && Attests(Under(body, "attestation"))
      && Under(body, "canonical_demo") == DemoJson(demo) && Get(body, "verdict") == Str("pass")
  {
  }

  lemma SealKeepsKey(H: Hash, body: Document, key: string)
    requires |key| != 12
    ensures Get(Seal(H, body, "index_digest"), key) == Get(body, key)
    ensures Under(Seal(H, body, "index_digest"), key) == Under(body, key)
  {
    assert |"index_digest"| == 12;
    SealedField(H, body, "index_digest", key);
  }

  lemma SealedIndexFields(H: Hash, body: Document, roots: Roots, demo: map<string, string>)
    requires IndexMeans(body, roots, demo)
    ensures IndexMeans(Seal(H, body, "index_digest"), roots, demo)
  {
    assert |"release_version"| == 15 && |"source_commit"| == 13 && |"roots"| == 5 && |"attestation"| == 11;
    assert |"canonical_demo"| == 14 && |"verdict"| == 7;
    SealKeepsKey(H, body, "release_version");
    SealKeepsKey(H, body, "source_commit");
    SealKeepsKey(H, body, "roots");
    SealKeepsKey(H, body, "attestation");
    SealKeepsKey(H, body, "canonical_demo");
    SealKeepsKey(H, body, "verdict");
  }

  lemma BuiltParts(H: Hash, roots: Roots, demo: map<string, string>) returns (info: ReleaseInfo, records: Document)
    requires BuildIndex(H, roots, demo).Ok?
    ensures ManifestReleaseInfo(roots.manifest) == Ok(info) && RootRecords(roots, info) == Ok(records)
    ensures BuildIndex(H, roots, demo) == Ok(Seal(H, IndexBody(info, records, demo), "index_digest"))
  {
    BindingsIff(roots, demo);
    info := CheckBindings(roots, demo).value;
    records := RootRecords(roots, info).value;
  }

  /** A built index states the release and governance commit of the manifest, and of each document
      its own file, digest and verdict. */
  lemma BuiltIndexMeans(H: Hash, roots: Roots, demo: map<string, string>)
    requires BuildIndex(H, roots, demo).Ok?
    ensures IndexMeans(BuildIndex(H, roots, demo).value, roots, demo)
  {
    var info, records := BuiltParts(H, roots, demo);
    ManifestInfoIff(roots.manifest);
    TableEntries(roots, info);
    BodyMeans(info, records, demo);
    SealedIndexFields(H, IndexBody(info, records, demo), roots, demo);
  }

  /** And so does every index the verifier accepts. */
  lemma AcceptedIndexMeans(H: Hash, index: Document, roots: Roots, demo: map<string, string>)
    requires Sha256Shaped(H) && WellFormed(Obj(index)) && VerifyIndex(H, index, roots, demo).Ok?
    ensures IndexMeans(index, roots, demo) && ReleaseManifest(roots.manifest) && BoundToManifest(roots)
  {
    IndexAcceptedIffBuilt(H, index, roots, demo);
    BuiltIndexMeans(H, roots, demo);
    IndexBuildsIff(H, roots, demo);
  }
}
