/** The coordinated release-candidate index: one document that binds the five evidence
    roots, its independent verifier, and the clean-install receipt. */
module ReleaseIndex {
  import opened Text
  import opened CanonicalJson
  import opened Outcome
  import opened Evidence

  const SCHEMA_VERSION := "1.0"
  const CANONICALIZATION := "json-sort-keys-compact-v1"
  const RELEASE_VERSION := "0.2.0-rc2"
  const CLEAN_INSTALL_KIND := "verifiable-ai-governance/release-clean-install-evidence"
  const INDEX_KIND := "verifiable-ai-governance/release-candidate-evidence-index"
  const CLEAN_INSTALL_SCRIPT := "scripts/test_fresh_install_migrations.sh"
  const CLEAN_INSTALL_LOG := "artifacts/release/clean-install/clean-install-e2e.log"
  const CLEAN_INSTALL_EVIDENCE := "artifacts/release/clean-install/clean-install-evidence.json"
  const RELEASE_SUBJECTS := "artifacts/release/release-candidate-subjects.sha256"
  const RELEASE_MANIFEST := "artifacts/release/release-manifest.json"
  const SECURITY_BUNDLE := "artifacts/release/security/security-evidence-bundle.json"
  const PROVENANCE := "artifacts/release/provenance/release-build-provenance.json"
  const PROVENANCE_SUBJECTS := "artifacts/release/provenance/release-subjects.sha256"
  const BENCHMARK_BUNDLE := "artifacts/release/benchmark/runtime-benchmark-bundle.json"
  const ATTESTATION_WORKFLOW := ".github/workflows/release-provenance.yml"
  const ROUTER_COMMIT := "0344f7410fa68fbd8a61fb5d949f5d4dcf0c9166"
  const CREDIT_DESK_COMMIT := "b326971bbe7910bd94bd45c0cafbaa11a03f8610"
  const OTEL_KIT_COMMIT := "a096766fd075868704276777d847c740a17ba821"
  const IDENTITY_FIELDS := {
    "scenario_id", "identity_scheme", "initiative_id", "ai_system_id", "approved_model_id",
    "out_of_scope_model_id", "agent_id"}

  // ---- What the index reads from the manifest ----

  datatype ReleaseInfo = ReleaseInfo(version: string, commit: string, digest: string)

  function ComponentBound(components: Document, name: string, commit: string): Result<()>
  {
    var record := Get(components, name);
    Require(record.Obj? && Get(record.members, "commit") == Str(commit), "rc2 component binding changed")
  }

  function ManifestReleaseInfo(manifest: Document): Result<ReleaseInfo>
  {
    var components := Get(manifest, "components");
    var _ :- Require(components.Obj?, "components are missing");
    var _ :- ComponentBound(components.members, "policy_model_router", ROUTER_COMMIT);
    var _ :- ComponentBound(components.members, "multi_agent_credit_desk", CREDIT_DESK_COMMIT);
    var _ :- ComponentBound(components.members, "a2a_otel_kit", OTEL_KIT_COMMIT);
    var release := Get(manifest, "release");
    var _ :- Require(release.Obj?, "release root is missing");
    var governance := Get(components.members, "governance");
    var _ :- Require(governance.Obj?, "governance component is missing");
    var _ :- Require(Get(release.members, "version") == Str(RELEASE_VERSION), "unexpected release");
    var commit := Get(governance.members, "commit");
    var _ :- Require(commit.Str? && IsHex40(commit.text), "governance commit is invalid");
    var digest := Get(manifest, "manifest_digest");
    var _ :- Require(digest.Str? && Hex64(digest.text), "manifest digest is invalid");
    Ok(ReleaseInfo(RELEASE_VERSION, commit.text, digest.text))
  }

  // ---- The index ----

  /** A root entry; a verdict that reads as None is neither checked nor recorded. */
  function RootRecord(path: string, digest: Json, verdict: Json): Result<Json>
  {
    var _ :- Require(digest.Str? && Hex64(digest.text), "invalid evidence digest");
    var record := map["path" := Str(path), "digest" := digest];
    if verdict == Null then Ok(Obj(record))
    else
      var _ :- Require(verdict == Str("pass"), "evidence verdict is not pass");
      Ok(Obj(record["verdict" := verdict]))
  }

  datatype Roots = Roots(manifest: Document, security: Document, provenance: Document, benchmark: Document,
                         cleanInstall: Document)

  function RootRecords(roots: Roots, info: ReleaseInfo): Result<Document>
  {
    var m :- RootRecord(RELEASE_MANIFEST, Str(info.digest), Null);
    var s :- RootRecord(SECURITY_BUNDLE, Get(roots.security, "bundle_digest"), Get(roots.security, "verdict"));
    var p :- RootRecord(PROVENANCE, Get(roots.provenance, "provenance_digest"), Null);
    var b :- RootRecord(BENCHMARK_BUNDLE, Get(roots.benchmark, "bundle_digest"), Get(roots.benchmark, "verdict"));
    var c :- RootRecord(CLEAN_INSTALL_EVIDENCE, Get(roots.cleanInstall, "evidence_digest"),
                        Get(roots.cleanInstall, "verdict"));
    Ok(RecordTable(m, s, p, b, c))
  }

  function RecordTable(m: Json, s: Json, p: Json, b: Json, c: Json): Document
  {
    map["release_manifest" := m, "security_evidence" := s, "build_provenance" := p,
        "runtime_benchmark" := b, "clean_install" := c]
  }

  /** The cross-document bindings, in the order the builder checks them. */
  function CheckBindings(roots: Roots, demo: map<string, string>): Result<ReleaseInfo>
  {
    var info :- ManifestReleaseInfo(roots.manifest);
    var version := Str(info.version);
    var _ :- Require(Get(roots.security, "release_version") == version, "security release version");
    var _ :- Require(Get(roots.security, "release_manifest_digest") == Str(info.digest), "security binding");
    var _ :- Require(Get(roots.provenance, "release_version") == version, "provenance release version");
    var _ :- Require(Get(roots.benchmark, "release_version") == version, "benchmark release version");
    var _ :- Require(Get(roots.cleanInstall, "release_version") == version, "clean-install release version");
    var source := Get(roots.cleanInstall, "source");
    var _ :- Require(source.Obj? && Get(source.members, "governance_commit") == Str(info.commit),
                     "clean-install source");
    var _ :- Require(demo.Keys == IDENTITY_FIELDS, "canonical demo identity fields");
    var _ :- Require(demo["identity_scheme"] == "uuidv5", "canonical demo identity scheme");
    Ok(info)
  }

  function BuildIndex(H: Hash, roots: Roots, demo: map<string, string>): Result<Document>
  {
    var info :- CheckBindings(roots, demo);
    var records :- RootRecords(roots, info);
    Ok(Seal(H, IndexBody(info, records, demo), "index_digest"))
  }

  function IndexBody(info: ReleaseInfo, records: Document, demo: map<string, string>): Document
  {
    map[
      "schema_version" := Str(SCHEMA_VERSION),
      "kind" := Str(INDEX_KIND),
      "canonicalization" := Str(CANONICALIZATION),
      "release_version" := Str(info.version),
      "source_commit" := Str(info.commit),
      "roots" := Obj(records),
      "canonical_demo" := Obj(DemoJson(demo)),
      "attestation" := Obj(map[
        "provider" := Str("github-artifact-attestations"),
        "action" := Str("actions/attest@v4"),
        "workflow_path" := Str(ATTESTATION_WORKFLOW),
        "provenance_subject_checksums" := Str(PROVENANCE_SUBJECTS),
        "release_candidate_subject_checksums" := Str(RELEASE_SUBJECTS)]),
      "verdict" := Str("pass")]
  }

  predicate SameText(a: Document, b: Document)
  {
    Print(Obj(a), false) == Print(Obj(b), false)
  }

  predicate IndexHeader(index: Document)
  {
    && Get(index, "schema_version") == Str(SCHEMA_VERSION)
    && Get(index, "kind") == Str(INDEX_KIND)
    && Get(index, "canonicalization") == Str(CANONICALIZATION)
  }

  // The verdict over the header, the self-digest check and the re-derived index.
  function Compare(index: Document, header: bool, digest: Result<string>, built: Result<Document>): Result<string>
  {
    var _ :- Require(header, "unsupported index schema, kind or canonicalization");
    var observed :- digest;
    var expected :- built;
    var _ :- Require(SameText(index, expected), "index does not re-derive");
    Ok(observed)
  }

  function VerifyIndex(H: Hash, index: Document, roots: Roots, demo: map<string, string>): Result<string>
  {
    Compare(index, IndexHeader(index), VerifySelfDigest(H, index, "index_digest"), BuildIndex(H, roots, demo))
  }

  // ---- What acceptance means ----

  lemma RootRecordShape(path: string, digest: Json, verdict: Json)
    requires RootRecord(path, digest, verdict).Ok?
    ensures var r := RootRecord(path, digest, verdict).value;
      && r.Obj? && WellFormed(r) && Get(r.members, "digest") == digest && Get(r.members, "path") == Str(path)
      && Get(r.members, "verdict") == verdict && (verdict == Null || verdict == Str("pass"))
  {
    var r := RootRecord(path, digest, verdict).value;
    assert forall k | k in r.members :: r.members[k].Str?;
  }

  // Every record carries the digest its document states for itself.
  predicate CarriesDigests(records: Document, roots: Roots)
  {
    && Get(records, "release_manifest").Obj?
    && Get(Get(records, "release_manifest").members, "digest") == Get(roots.manifest, "manifest_digest")
    && Get(records, "security_evidence").Obj?
    && Get(Get(records, "security_evidence").members, "digest") == Get(roots.security, "bundle_digest")
    && Get(records, "build_provenance").Obj?
    && Get(Get(records, "build_provenance").members, "digest") == Get(roots.provenance, "provenance_digest")
    && Get(records, "runtime_benchmark").Obj?
    && Get(Get(records, "runtime_benchmark").members, "digest") == Get(roots.benchmark, "bundle_digest")
    && Get(records, "clean_install").Obj?
    && Get(Get(records, "clean_install").members, "digest") == Get(roots.cleanInstall, "evidence_digest")
  }

  lemma RootRecordsShape(roots: Roots, info: ReleaseInfo)
    requires Get(roots.manifest, "manifest_digest") == Str(info.digest)
    requires RootRecords(roots, info).Ok?
    ensures WellFormed(Obj(RootRecords(roots, info).value))
    ensures CarriesDigests(RootRecords(roots, info).value, roots)
  {
    RootRecordShape(RELEASE_MANIFEST, Str(info.digest), Null);
    RootRecordShape(SECURITY_BUNDLE, Get(roots.security, "bundle_digest"), Get(roots.security, "verdict"));
    RootRecordShape(PROVENANCE, Get(roots.provenance, "provenance_digest"), Null);
    RootRecordShape(BENCHMARK_BUNDLE, Get(roots.benchmark, "bundle_digest"), Get(roots.benchmark, "verdict"));
    RootRecordShape(CLEAN_INSTALL_EVIDENCE, Get(roots.cleanInstall, "evidence_digest"),
                    Get(roots.cleanInstall, "verdict"));
    RecordTableShape(RootRecord(RELEASE_MANIFEST, Str(info.digest), Null).value,
                     RootRecord(SECURITY_BUNDLE, Get(roots.security, "bundle_digest"),
                                Get(roots.security, "verdict")).value,
                     RootRecord(PROVENANCE, Get(roots.provenance, "provenance_digest"), Null).value,
                     RootRecord(BENCHMARK_BUNDLE, Get(roots.benchmark, "bundle_digest"),
                                Get(roots.benchmark, "verdict")).value,
                     RootRecord(CLEAN_INSTALL_EVIDENCE, Get(roots.cleanInstall, "evidence_digest"),
                                Get(roots.cleanInstall, "verdict")).value);
  }

  lemma RecordTableShape(m: Json, s: Json, p: Json, b: Json, c: Json)
    requires WellFormed(m) && WellFormed(s) && WellFormed(p) && WellFormed(b) && WellFormed(c)
    ensures var t := RecordTable(m, s, p, b, c);
      && WellFormed(Obj(t))
      && Get(t, "release_manifest") == m && Get(t, "security_evidence") == s && Get(t, "build_provenance") == p
      && Get(t, "runtime_benchmark") == b && Get(t, "clean_install") == c
  {
  }

  lemma IndexBodyFields(info: ReleaseInfo, records: Document, demo: map<string, string>)
    ensures var body := IndexBody(info, records, demo);
      IndexHeader(body) && Get(body, "roots") == Obj(records)
  {
  }

  lemma IndexBodyPrints(info: ReleaseInfo, records: Document, demo: map<string, string>)
    requires WellFormed(Obj(records))
    ensures WellFormed(Obj(IndexBody(info, records, demo)))
  {
    var body := IndexBody(info, records, demo);
    assert WellFormed(body["canonical_demo"]);
    assert WellFormed(body["attestation"]) by {
      assert forall k | k in body["attestation"].members :: body["attestation"].members[k].Str?;
    }
  }

  lemma IndexBodyShape(info: ReleaseInfo, records: Document, demo: map<string, string>)
    requires WellFormed(Obj(records))
    ensures var body := IndexBody(info, records, demo);
      WellFormed(Obj(body)) && IndexHeader(body) && Get(body, "roots") == Obj(records)
  {
    IndexBodyFields(info, records, demo);
    IndexBodyPrints(info, records, demo);
  }

  // The manifest digest read by the bindings is the one in the manifest.
  lemma InfoRead(manifest: Document)
    requires ManifestReleaseInfo(manifest).Ok?
    ensures Get(manifest, "manifest_digest") == Str(ManifestReleaseInfo(manifest).value.digest)
  {
  }

  lemma BindingsRead(roots: Roots, demo: map<string, string>)
    requires CheckBindings(roots, demo).Ok?
    ensures ManifestReleaseInfo(roots.manifest) == CheckBindings(roots, demo)
    ensures Get(roots.manifest, "manifest_digest") == Str(CheckBindings(roots, demo).value.digest)
  {
    InfoRead(roots.manifest);
  }

  lemma BuiltIndexShape(H: Hash, roots: Roots, demo: map<string, string>)
    requires Sha256Shaped(H) && BuildIndex(H, roots, demo).Ok?
    ensures var index := BuildIndex(H, roots, demo).value;
      && WellFormed(Obj(index))
      && IndexHeader(index)
      && VerifySelfDigest(H, index, "index_digest").Ok?
      && Get(index, "roots").Obj? && CarriesDigests(Get(index, "roots").members, roots)
  {
    var info := CheckBindings(roots, demo).value;
    var records := RootRecords(roots, info).value;
    BindingsRead(roots, demo);
    RootRecordsShape(roots, info);
    IndexBodyShape(info, records, demo);
    SealedIndexShape(H, IndexBody(info, records, demo), records);
  }

  lemma SealedIndexShape(H: Hash, body: Document, records: Document)
    requires Sha256Shaped(H) && WellFormed(Obj(body)) && IndexHeader(body) && Get(body, "roots") == Obj(records)
    ensures var index := Seal(H, body, "index_digest");
      && WellFormed(Obj(index)) && IndexHeader(index) && Get(index, "roots") == Obj(records)
      && VerifySelfDigest(H, index, "index_digest").Ok?
  {
    SealedDocumentVerifies(H, body, "index_digest");
    SealedWellFormed(H, body, "index_digest");
  }

  lemma SameTextSameIndex(a: Document, b: Document)
    requires WellFormed(Obj(a)) && WellFormed(Obj(b))
    ensures SameText(a, b) <==> a == b
  {
    CanonicalJsonUnambiguous(Obj(a), Obj(b), false);
  }

  lemma CompareAccepts(index: Document, header: bool, digest: Result<string>, built: Result<Document>)
    requires WellFormed(Obj(index))
    requires built.Ok? ==> WellFormed(Obj(built.value))
    requires built == Ok(index) ==> header && digest.Ok?
    ensures Compare(index, header, digest, built).Ok? <==> built == Ok(index)
    ensures Compare(index, header, digest, built).Ok? ==> Compare(index, header, digest, built) == digest
  {
    if built.Ok? { SameTextSameIndex(index, built.value); }
  }

  /** The verifier accepts exactly the builder's output, and nothing else. */
  lemma IndexAcceptedIffBuilt(H: Hash, index: Document, roots: Roots, demo: map<string, string>)
    requires Sha256Shaped(H) && WellFormed(Obj(index))
    ensures VerifyIndex(H, index, roots, demo).Ok? <==> BuildIndex(H, roots, demo) == Ok(index)
    ensures VerifyIndex(H, index, roots, demo).Ok? ==>
      VerifyIndex(H, index, roots, demo) == VerifySelfDigest(H, index, "index_digest")
  {
    if BuildIndex(H, roots, demo).Ok? { BuiltIndexShape(H, roots, demo); }
    CompareAccepts(index, IndexHeader(index), VerifySelfDigest(H, index, "index_digest"), BuildIndex(H, roots, demo));
  }

  /** The self-digest checks that the deep verifier makes on the five roots before the index. */
  predicate RootsVerified(H: Hash, roots: Roots)
  {
    && VerifySelfDigest(H, roots.manifest, "manifest_digest").Ok?
    && VerifySelfDigest(H, roots.security, "bundle_digest").Ok?
    && VerifySelfDigest(H, roots.provenance, "provenance_digest").Ok?
    && VerifySelfDigest(H, roots.benchmark, "bundle_digest").Ok?
    && VerifySelfDigest(H, roots.cleanInstall, "evidence_digest").Ok?
  }

  predicate DeepVerified(H: Hash, index: Document, roots: Roots, demo: map<string, string>)
  {
    RootsVerified(H, roots) && VerifyIndex(H, index, roots, demo).Ok?
  }

  ghost predicate RootsWellFormed(roots: Roots)
  {
    && WellFormed(Obj(roots.manifest)) && WellFormed(Obj(roots.security)) && WellFormed(Obj(roots.provenance))
    && WellFormed(Obj(roots.benchmark)) && WellFormed(Obj(roots.cleanInstall))
  }

  predicate NoRootCollisions(H: Hash, a: Roots, b: Roots)
  {
    && NoCollision(H, Unsigned(a.manifest, "manifest_digest"), Unsigned(b.manifest, "manifest_digest"))
    && NoCollision(H, Unsigned(a.security, "bundle_digest"), Unsigned(b.security, "bundle_digest"))
    && NoCollision(H, Unsigned(a.provenance, "provenance_digest"), Unsigned(b.provenance, "provenance_digest"))
    && NoCollision(H, Unsigned(a.benchmark, "bundle_digest"), Unsigned(b.benchmark, "bundle_digest"))
    && NoCollision(H, Unsigned(a.cleanInstall, "evidence_digest"), Unsigned(b.cleanInstall, "evidence_digest"))
  }

  function DemoJson(demo: map<string, string>): Document
  {
    map k | k in demo :: Str(demo[k])
  }

  lemma DemoJsonInjective(d: map<string, string>, e: map<string, string>)
    requires DemoJson(d) == DemoJson(e)
    ensures d == e
  {
    assert d.Keys == DemoJson(d).Keys == DemoJson(e).Keys == e.Keys;
    forall k | k in d ensures d[k] == e[k] {
      assert DemoJson(d)[k] == Str(d[k]) && DemoJson(e)[k] == Str(e[k]);
    }
  }

  lemma IndexBodyDemo(info: ReleaseInfo, records: Document, demo: map<string, string>)
    ensures Get(IndexBody(info, records, demo), "canonical_demo") == Obj(DemoJson(demo))
  {
  }

  lemma BuiltIndexDemo(H: Hash, roots: Roots, demo: map<string, string>)
    requires BuildIndex(H, roots, demo).Ok?
    ensures Get(BuildIndex(H, roots, demo).value, "canonical_demo") == Obj(DemoJson(demo))
  {
    var info := CheckBindings(roots, demo).value;
    IndexBodyDemo(info, RootRecords(roots, info).value, demo);
    assert |"canonical_demo"| == 14 && |"index_digest"| == 12;
  }

  /** Commitment: the final digest fixes the index, the demo record and all five evidence documents. */
  lemma IndexDigestCommitsToEvidence(H: Hash, i: Document, a: Roots, d: map<string, string>,
                                     j: Document, b: Roots, e: map<string, string>)
    requires Sha256Shaped(H)
    requires DeepVerified(H, i, a, d) && DeepVerified(H, j, b, e)
    requires WellFormed(Obj(i)) && WellFormed(Obj(j)) && RootsWellFormed(a) && RootsWellFormed(b)
    requires NoCollision(H, Unsigned(i, "index_digest"), Unsigned(j, "index_digest")) && NoRootCollisions(H, a, b)
    ensures VerifyIndex(H, i, a, d) == VerifyIndex(H, j, b, e) <==> i == j
    ensures i == j ==> a == b && d == e
  {
    IndexAcceptedIffBuilt(H, i, a, d);
    IndexAcceptedIffBuilt(H, j, b, e);
    SelfDigestCommits(H, i, j, "index_digest");
    if i == j {
      BuiltIndexShape(H, a, d);
      BuiltIndexShape(H, b, e);
      EqualDigestsEqualRoots(H, a, b);
      BuiltIndexDemo(H, a, d);
      BuiltIndexDemo(H, b, e);
      DemoJsonInjective(d, e);
    }
  }

  lemma EqualDigestsEqualRoots(H: Hash, a: Roots, b: Roots)
    requires RootsVerified(H, a) && RootsVerified(H, b) && RootsWellFormed(a) && RootsWellFormed(b)
    requires NoRootCollisions(H, a, b)
    requires exists records :: CarriesDigests(records, a) && CarriesDigests(records, b)
    ensures a == b
  {
    DigestsCommit(H, a.manifest, b.manifest, "manifest_digest");
    DigestsCommit(H, a.security, b.security, "bundle_digest");
    DigestsCommit(H, a.provenance, b.provenance, "provenance_digest");
    DigestsCommit(H, a.benchmark, b.benchmark, "bundle_digest");
    DigestsCommit(H, a.cleanInstall, b.cleanInstall, "evidence_digest");
  }

  lemma DigestsCommit(H: Hash, a: Document, b: Document, field: string)
    requires WellFormed(Obj(a)) && WellFormed(Obj(b)) && NoCollision(H, Unsigned(a, field), Unsigned(b, field))
    requires VerifySelfDigest(H, a, field).Ok? && VerifySelfDigest(H, b, field).Ok?
    requires Get(a, field) == Get(b, field)
    ensures a == b
  {
    VerifiedDigest(H, a, field);
    VerifiedDigest(H, b, field);
    SelfDigestCommits(H, a, b, field);
  }

  // ---- What the recorded verdicts do and do not say ----

  lemma RootRecordAccepts(path: string, digest: Json, verdict: Json)
    ensures RootRecord(path, digest, verdict).Ok? <==>
      digest.Str? && Hex64(digest.text) && (verdict == Null || verdict == Str("pass"))
  {
  }

  function Drop(doc: Document, drop: bool): Document
  {
    if drop then doc - {"verdict"} else doc
  }

  /** The roots with the verdict removed from any of the three documents that have one. */
  function DropVerdicts(roots: Roots, s: bool, b: bool, c: bool): Roots
  {
    roots.(security := Drop(roots.security, s), benchmark := Drop(roots.benchmark, b),
           cleanInstall := Drop(roots.cleanInstall, c))
  }

  lemma DropKeeps(doc: Document, drop: bool, key: string)
    requires |key| != 7
    ensures Get(Drop(doc, drop), key) == Get(doc, key)
  {
    assert |"verdict"| == 7;
  }

  lemma BindingsIgnoreVerdicts(roots: Roots, demo: map<string, string>, s: bool, b: bool, c: bool)
    ensures CheckBindings(DropVerdicts(roots, s, b, c), demo) == CheckBindings(roots, demo)
  {
    assert |"release_version"| == 15 && |"release_manifest_digest"| == 23 && |"source"| == 6;
    DropKeeps(roots.security, s, "release_version");
    DropKeeps(roots.security, s, "release_manifest_digest");
    DropKeeps(roots.benchmark, b, "release_version");
    DropKeeps(roots.cleanInstall, c, "release_version");
    DropKeeps(roots.cleanInstall, c, "source");
  }

  lemma DropAccepts(path: string, doc: Document, field: string, drop: bool)
    requires RootRecord(path, Get(doc, field), Get(doc, "verdict")).Ok? && |field| != 7
    ensures RootRecord(path, Get(Drop(doc, drop), field), Get(Drop(doc, drop), "verdict")).Ok?
  {
    DropKeeps(doc, drop, field);
  }

  lemma RecordsIgnoreMissingVerdicts(roots: Roots, info: ReleaseInfo, s: bool, b: bool, c: bool)
    requires RootRecords(roots, info).Ok?
    ensures RootRecords(DropVerdicts(roots, s, b, c), info).Ok?
  {
    assert |"bundle_digest"| == 13 && |"evidence_digest"| == 15;
    DropAccepts(SECURITY_BUNDLE, roots.security, "bundle_digest", s);
    DropAccepts(BENCHMARK_BUNDLE, roots.benchmark, "bundle_digest", b);
    DropAccepts(CLEAN_INSTALL_EVIDENCE, roots.cleanInstall, "evidence_digest", c);
  }

  /** The builder does not insist on a verdict: dropping any of the three still builds. */
  lemma MissingVerdictStillBuilds(H: Hash, roots: Roots, demo: map<string, string>, s: bool, b: bool, c: bool)
    requires BuildIndex(H, roots, demo).Ok?
    ensures BuildIndex(H, DropVerdicts(roots, s, b, c), demo).Ok?
  {
    BindingsIgnoreVerdicts(roots, demo, s, b, c);
    RecordsIgnoreMissingVerdicts(roots, CheckBindings(roots, demo).value, s, b, c);
  }

  predicate RecordsPass(records: Document, name: string)
  {
    Get(records, name).Obj? && Get(Get(records, name).members, "verdict") == Str("pass")
  }

  lemma TableVerdicts(roots: Roots, info: ReleaseInfo)
    requires RootRecords(roots, info).Ok?
    ensures var records := RootRecords(roots, info).value;
      && (RecordsPass(records, "security_evidence") <==> Get(roots.security, "verdict") != Null)
      && (RecordsPass(records, "runtime_benchmark") <==> Get(roots.benchmark, "verdict") != Null)
      && (RecordsPass(records, "clean_install") <==> Get(roots.cleanInstall, "verdict") != Null)
  {
    RootRecordShape(RELEASE_MANIFEST, Str(info.digest), Null);
    RootRecordShape(SECURITY_BUNDLE, Get(roots.security, "bundle_digest"), Get(roots.security, "verdict"));
    RootRecordShape(PROVENANCE, Get(roots.provenance, "provenance_digest"), Null);
    RootRecordShape(BENCHMARK_BUNDLE, Get(roots.benchmark, "bundle_digest"), Get(roots.benchmark, "verdict"));
    RootRecordShape(CLEAN_INSTALL_EVIDENCE, Get(roots.cleanInstall, "evidence_digest"),
                    Get(roots.cleanInstall, "verdict"));
    RecordTableShape(RootRecord(RELEASE_MANIFEST, Str(info.digest), Null).value,
                     RootRecord(SECURITY_BUNDLE, Get(roots.security, "bundle_digest"),
                                Get(roots.security, "verdict")).value,
                     RootRecord(PROVENANCE, Get(roots.provenance, "provenance_digest"), Null).value,
                     RootRecord(BENCHMARK_BUNDLE, Get(roots.benchmark, "bundle_digest"),
                                Get(roots.benchmark, "verdict")).value,
                     RootRecord(CLEAN_INSTALL_EVIDENCE, Get(roots.cleanInstall, "evidence_digest"),
                                Get(roots.cleanInstall, "verdict")).value);
  }

  /** In the built index, each of the three records says "pass" exactly when its document states
      a verdict at all. */
  lemma IndexRecordsStatedVerdicts(H: Hash, roots: Roots, demo: map<string, string>)
    requires BuildIndex(H, roots, demo).Ok?
    ensures var index := BuildIndex(H, roots, demo).value;
      && Get(index, "roots").Obj?
      && (RecordsPass(Get(index, "roots").members, "security_evidence") <==> Get(roots.security, "verdict") != Null)
      && (RecordsPass(Get(index, "roots").members, "runtime_benchmark") <==> Get(roots.benchmark, "verdict") != Null)
      && (RecordsPass(Get(index, "roots").members, "clean_install") <==> Get(roots.cleanInstall, "verdict") != Null)
  {
    var info := CheckBindings(roots, demo).value;
    TableVerdicts(roots, info);
    BuiltIndexRoots(H, roots, demo);
  }

  lemma BuiltIndexRoots(H: Hash, roots: Roots, demo: map<string, string>)
    requires BuildIndex(H, roots, demo).Ok?
    ensures CheckBindings(roots, demo).Ok? && RootRecords(roots, CheckBindings(roots, demo).value).Ok?
    ensures Get(BuildIndex(H, roots, demo).value, "roots")
         == Obj(RootRecords(roots, CheckBindings(roots, demo).value).value)
  {
    var info := CheckBindings(roots, demo).value;
    IndexBodyFields(info, RootRecords(roots, info).value, demo);
    assert |"roots"| == 5 && |"index_digest"| == 12;
  }

  // ---- A buildable evidence set without verdicts ----

  function Zeros(n: nat): string
  {
    seq(n, _ => '0')
  }

  function PlainManifest(): Document
  {
    map["components" := Obj(map[
          "governance" := Obj(map["commit" := Str(Zeros(40))]),
          "policy_model_router" := Obj(map["commit" := Str(ROUTER_COMMIT)]),
          "multi_agent_credit_desk" := Obj(map["commit" := Str(CREDIT_DESK_COMMIT)]),
          "a2a_otel_kit" := Obj(map["commit" := Str(OTEL_KIT_COMMIT)])]),
        "release" := Obj(map["version" := Str(RELEASE_VERSION)])]
  }

  function PlainVersioned(): Document
  {
    map["release_version" := Str(RELEASE_VERSION)]
  }

  function PlainSecurity(digest: string): Document
  {
    PlainVersioned()["release_manifest_digest" := Str(digest)]
  }

  function PlainReceipt(): Document
  {
    PlainVersioned()["source" := Obj(map["governance_commit" := Str(Zeros(40))])]
  }

  function VerdictlessRoots(H: Hash): Roots
  {
    Roots(
      Seal(H, PlainManifest(), "manifest_digest"),
      Seal(H, PlainSecurity(SelfDigest(H, PlainManifest(), "manifest_digest")), "bundle_digest"),
      Seal(H, PlainVersioned(), "provenance_digest"),
      Seal(H, PlainVersioned(), "bundle_digest"),
      Seal(H, PlainReceipt(), "evidence_digest"))
  }

  function PlainDemo(): map<string, string>
  {
    map k | k in IDENTITY_FIELDS :: "uuidv5"
  }

  lemma ComponentsBound()
    ensures var components := PlainManifest()["components"].members;
      && ComponentBound(components, "policy_model_router", ROUTER_COMMIT).Ok?
      && ComponentBound(components, "multi_agent_credit_desk", CREDIT_DESK_COMMIT).Ok?
      && ComponentBound(components, "a2a_otel_kit", OTEL_KIT_COMMIT).Ok?
      && Get(components, "governance") == Obj(map["commit" := Str(Zeros(40))])
  {
    assert |"governance"| == 10 && |"policy_model_router"| == 19 && |"multi_agent_credit_desk"| == 23;
    assert |"a2a_otel_kit"| == 12;
    assert |"components"| == 10 && |"release"| == 7;
  }

  lemma SealedField(H: Hash, doc: Document, field: string, key: string)
    requires key != field
    ensures Get(Seal(H, doc, field), key) == Get(doc, key)
  {
  }

  // The manifest facts, read from a manifest given by its parts.
  lemma InfoOf(manifest: Document, components: Document, governance: Document, release: Document, info: ReleaseInfo)
    requires Get(manifest, "components") == Obj(components) && Get(manifest, "release") == Obj(release)
    requires ComponentBound(components, "policy_model_router", ROUTER_COMMIT).Ok?
    requires ComponentBound(components, "multi_agent_credit_desk", CREDIT_DESK_COMMIT).Ok?
    requires ComponentBound(components, "a2a_otel_kit", OTEL_KIT_COMMIT).Ok?
    requires Get(components, "governance") == Obj(governance) && Get(governance, "commit") == Str(info.commit)
    requires Get(release, "version") == Str(RELEASE_VERSION) && Get(manifest, "manifest_digest") == Str(info.digest)
    requires info.version == RELEASE_VERSION && IsHex40(info.commit) && Hex64(info.digest)
    ensures ManifestReleaseInfo(manifest) == Ok(info)
  {
  }

  lemma PlainManifestParts()
    ensures Get(PlainManifest(), "components") == PlainManifest()["components"]
    ensures Get(PlainManifest(), "release") == Obj(map["version" := Str(RELEASE_VERSION)])
  {
    assert |"components"| == 10 && |"release"| == 7;
  }

  lemma PlainManifestRead(H: Hash)
    requires Sha256Shaped(H)
    ensures ManifestReleaseInfo(VerdictlessRoots(H).manifest) == Ok(PlainInfo(H))
  {
    SealedManifestRead(H, PlainManifest(), PlainManifest()["components"].members,
                       map["version" := Str(RELEASE_VERSION)],
                       PlainInfo(H)) by {
      PlainManifestParts();
      ComponentsBound();
    }
  }

  lemma SealedManifestRead(H: Hash, manifest: Document, components: Document, release: Document, info: ReleaseInfo)
    requires Sha256Shaped(H)
    requires Get(manifest, "components") == Obj(components) && Get(manifest, "release") == Obj(release)
    requires ComponentBound(components, "policy_model_router", ROUTER_COMMIT).Ok?
    requires ComponentBound(components, "multi_agent_credit_desk", CREDIT_DESK_COMMIT).Ok?
    requires ComponentBound(components, "a2a_otel_kit", OTEL_KIT_COMMIT).Ok?
    requires Get(components, "governance") == Obj(map["commit" := Str(info.commit)])
    requires Get(release, "version") == Str(RELEASE_VERSION) && info.version == RELEASE_VERSION && IsHex40(info.commit)
    requires info.digest == SelfDigest(H, manifest, "manifest_digest")
    ensures ManifestReleaseInfo(Seal(H, manifest, "manifest_digest")) == Ok(info)
  {
    assert |"components"| == 10 && |"release"| == 7 && |"manifest_digest"| == 15;
    SealedField(H, manifest, "manifest_digest", "components");
    SealedField(H, manifest, "manifest_digest", "release");
    InfoOf(Seal(H, manifest, "manifest_digest"), components, map["commit" := Str(info.commit)], release, info);
  }

  function PlainInfo(H: Hash): ReleaseInfo
  {
    ReleaseInfo(RELEASE_VERSION, Zeros(40), SelfDigest(H, PlainManifest(), "manifest_digest"))
  }

  lemma PlainFields(digest: string)
    ensures Get(PlainVersioned(), "release_version") == Str(RELEASE_VERSION)
    ensures Get(PlainSecurity(digest), "release_version") == Str(RELEASE_VERSION)
    ensures Get(PlainSecurity(digest), "release_manifest_digest") == Str(digest)
    ensures Get(PlainReceipt(), "release_version") == Str(RELEASE_VERSION)
    ensures Get(PlainReceipt(), "source") == Obj(map["governance_commit" := Str(Zeros(40))])
    ensures Get(PlainVersioned(), "verdict") == Null && Get(PlainSecurity(digest), "verdict") == Null
    ensures Get(PlainReceipt(), "verdict") == Null
  {
    assert |"release_version"| == 15 && |"release_manifest_digest"| == 23 && |"source"| == 6 && |"verdict"| == 7;
  }

  lemma BindingsOf(roots: Roots, demo: map<string, string>, info: ReleaseInfo, source: Document)
    requires ManifestReleaseInfo(roots.manifest) == Ok(info)
    requires Get(roots.security, "release_version") == Str(info.version)
    requires Get(roots.security, "release_manifest_digest") == Str(info.digest)
    requires Get(roots.provenance, "release_version") == Str(info.version)
    requires Get(roots.benchmark, "release_version") == Str(info.version)
    requires Get(roots.cleanInstall, "release_version") == Str(info.version)
    requires Get(roots.cleanInstall, "source") == Obj(source) && Get(source, "governance_commit") == Str(info.commit)
    requires demo.Keys == IDENTITY_FIELDS && demo["identity_scheme"] == "uuidv5"
    ensures CheckBindings(roots, demo) == Ok(info)
  {
  }

  lemma PlainSealedFields(H: Hash, digest: string)
    ensures Get(Seal(H, PlainSecurity(digest), "bundle_digest"), "release_version") == Str(RELEASE_VERSION)
    ensures Get(Seal(H, PlainSecurity(digest), "bundle_digest"), "release_manifest_digest") == Str(digest)
    ensures Get(Seal(H, PlainVersioned(), "provenance_digest"), "release_version") == Str(RELEASE_VERSION)
    ensures Get(Seal(H, PlainVersioned(), "bundle_digest"), "release_version") == Str(RELEASE_VERSION)
    ensures Get(Seal(H, PlainReceipt(), "evidence_digest"), "release_version") == Str(RELEASE_VERSION)
    ensures Get(Seal(H, PlainReceipt(), "evidence_digest"), "source") == Get(PlainReceipt(), "source")
  {
    PlainFields(digest);
    assert |"release_version"| == 15 && |"release_manifest_digest"| == 23 && |"source"| == 6;
    assert |"bundle_digest"| == 13 && |"provenance_digest"| == 17;
    assert "evidence_digest"[0] == 'e' && "release_version"[0] == 'r' && |"evidence_digest"| == 15;
    SealedField(H, PlainSecurity(digest), "bundle_digest", "release_version");
    SealedField(H, PlainSecurity(digest), "bundle_digest", "release_manifest_digest");
    SealedField(H, PlainVersioned(), "provenance_digest", "release_version");
    SealedField(H, PlainVersioned(), "bundle_digest", "release_version");
    SealedField(H, PlainReceipt(), "evidence_digest", "release_version");
    SealedField(H, PlainReceipt(), "evidence_digest", "source");
  }

  lemma PlainDemoFields()
    ensures PlainDemo().Keys == IDENTITY_FIELDS && PlainDemo()["identity_scheme"] == "uuidv5"
  {
    assert PlainDemo().Keys == IDENTITY_FIELDS;
  }

  lemma PlainBindings(H: Hash)
    requires Sha256Shaped(H)
    ensures CheckBindings(VerdictlessRoots(H), PlainDemo()) == Ok(PlainInfo(H))
  {
    var source: Document := map["governance_commit" := Str(Zeros(40))];
    PlainManifestRead(H);
    PlainSealedFields(H, PlainInfo(H).digest);
    PlainDemoFields();
    assert Get(PlainReceipt(), "source") == Obj(source) by { PlainFields(""); }
    assert Get(source, "governance_commit") == Str(PlainInfo(H).commit);
    BindingsOf(VerdictlessRoots(H), PlainDemo(), PlainInfo(H), source);
  }

  lemma SealedRecord(H: Hash, path: string, doc: Document, field: string)
    requires Sha256Shaped(H) && |field| != 7 && Get(doc, "verdict") == Null
    ensures Get(Seal(H, doc, field), "verdict") == Null
    ensures RootRecord(path, Get(Seal(H, doc, field), field), Get(Seal(H, doc, field), "verdict")).Ok?
  {
    assert |"verdict"| == 7;
    SealedField(H, doc, field, "verdict");
    RootRecordAccepts(path, Str(SelfDigest(H, doc, field)), Null);
  }

  lemma RecordsOf(roots: Roots, info: ReleaseInfo)
    requires Hex64(info.digest)
    requires RootRecord(SECURITY_BUNDLE, Get(roots.security, "bundle_digest"), Get(roots.security, "verdict")).Ok?
    requires RootRecord(PROVENANCE, Get(roots.provenance, "provenance_digest"), Null).Ok?
    requires RootRecord(BENCHMARK_BUNDLE, Get(roots.benchmark, "bundle_digest"), Get(roots.benchmark, "verdict")).Ok?
    requires RootRecord(CLEAN_INSTALL_EVIDENCE, Get(roots.cleanInstall, "evidence_digest"),
                        Get(roots.cleanInstall, "verdict")).Ok?
    ensures RootRecords(roots, info).Ok?
  {
    RootRecordAccepts(RELEASE_MANIFEST, Str(info.digest), Null);
  }

  lemma PlainRecords(H: Hash)
    requires Sha256Shaped(H)
    ensures var roots := VerdictlessRoots(H);
      && Get(roots.security, "verdict") == Null && Get(roots.benchmark, "verdict") == Null
      && Get(roots.cleanInstall, "verdict") == Null
      && RootRecords(roots, PlainInfo(H)).Ok?
  {
    var digest := SelfDigest(H, PlainManifest(), "manifest_digest");
    PlainFields(digest);
    assert |"bundle_digest"| == 13 && |"provenance_digest"| == 17 && |"evidence_digest"| == 15;
    SealedRecord(H, SECURITY_BUNDLE, PlainSecurity(digest), "bundle_digest");
    SealedRecord(H, PROVENANCE, PlainVersioned(), "provenance_digest");
    SealedRecord(H, BENCHMARK_BUNDLE, PlainVersioned(), "bundle_digest");
    SealedRecord(H, CLEAN_INSTALL_EVIDENCE, PlainReceipt(), "evidence_digest");
    RecordsOf(VerdictlessRoots(H), PlainInfo(H));
  }

  /** Five sealed documents, none with a verdict: each verifies its own digest, and the index builds. */
  lemma VerdictlessEvidenceBuilds(H: Hash)
    requires Sha256Shaped(H)
    ensures var roots := VerdictlessRoots(H);
      && RootsVerified(H, roots) && BuildIndex(H, roots, PlainDemo()).Ok?
      && Get(roots.security, "verdict") == Null && Get(roots.benchmark, "verdict") == Null
      && Get(roots.cleanInstall, "verdict") == Null
  {
    PlainBindings(H);
    PlainRecords(H);
    SealedRootsVerify(H);
  }

  lemma SealedRootsVerify(H: Hash)
    requires Sha256Shaped(H)
    ensures RootsVerified(H, VerdictlessRoots(H))
  {
    SealedDocumentVerifies(H, PlainManifest(), "manifest_digest");
    SealedDocumentVerifies(H, PlainSecurity(SelfDigest(H, PlainManifest(), "manifest_digest")), "bundle_digest");
    SealedDocumentVerifies(H, PlainVersioned(), "provenance_digest");
    SealedDocumentVerifies(H, PlainVersioned(), "bundle_digest");
    SealedDocumentVerifies(H, PlainReceipt(), "evidence_digest");
  }

  /** What the child verifiers have made sure of before the index is verified: the security and
      benchmark verdicts are recomputed to "pass" or "fail", the receipt's must be "pass". */
  predicate VerdictsVerified(roots: Roots)
  {
    && (Get(roots.security, "verdict") == Str("pass") || Get(roots.security, "verdict") == Str("fail"))
    && (Get(roots.benchmark, "verdict") == Str("pass") || Get(roots.benchmark, "verdict") == Str("fail"))
    && Get(roots.cleanInstall, "verdict") == Str("pass")
  }

  /** Behind the child verifiers, an accepted index means that all three verdicts are "pass" and
      are recorded so. */
  lemma AcceptedIndexPasses(H: Hash, index: Document, roots: Roots, demo: map<string, string>)
    requires Sha256Shaped(H) && WellFormed(Obj(index)) && DeepVerified(H, index, roots, demo) && VerdictsVerified(roots)
    ensures Get(roots.security, "verdict") == Str("pass") && Get(roots.benchmark, "verdict") == Str("pass")
    ensures Get(index, "roots").Obj? && RecordsPass(Get(index, "roots").members, "security_evidence")
    ensures RecordsPass(Get(index, "roots").members, "runtime_benchmark")
    ensures RecordsPass(Get(index, "roots").members, "clean_install")
  {
    IndexAcceptedIffBuilt(H, index, roots, demo);
    IndexRecordsStatedVerdicts(H, roots, demo);
    var info := CheckBindings(roots, demo).value;
    BuiltRecords(H, roots, demo);
    RootRecordAccepts(SECURITY_BUNDLE, Get(roots.security, "bundle_digest"), Get(roots.security, "verdict"));
    RootRecordAccepts(BENCHMARK_BUNDLE, Get(roots.benchmark, "bundle_digest"), Get(roots.benchmark, "verdict"));
  }

  lemma BuiltRecords(H: Hash, roots: Roots, demo: map<string, string>)
    requires BuildIndex(H, roots, demo).Ok?
    ensures CheckBindings(roots, demo).Ok? && RootRecords(roots, CheckBindings(roots, demo).value).Ok?
    ensures RootRecord(SECURITY_BUNDLE, Get(roots.security, "bundle_digest"), Get(roots.security, "verdict")).Ok?
    ensures RootRecord(BENCHMARK_BUNDLE, Get(roots.benchmark, "bundle_digest"), Get(roots.benchmark, "verdict")).Ok?
  {
  }

  /** Exactly the roots with verdict "pass" are recorded as passing. */
  lemma RecordedVerdictIsExact(path: string, digest: Json, verdict: Json)
    requires RootRecord(path, digest, verdict).Ok?
    ensures RootRecord(path, digest, verdict).value.Obj?
    ensures Get(RootRecord(path, digest, verdict).value.members, "verdict") == Str("pass") <==> verdict == Str("pass")
  {
    RootRecordShape(path, digest, verdict);
  }
}
