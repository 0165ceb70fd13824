/** The clean-install receipt: derived from one log and one script, and checked again
    from the same inputs. */
module CleanInstall {
  import opened Text
  import opened CanonicalJson
  import opened Outcome
  import opened Evidence
  import opened ReleaseIndex

  const EXPECTED_HEAD := "0019"
  const FIELDS := {
    "schema_version", "kind", "canonicalization", "release_version", "generated_at", "source", "test_script",
    "expected_alembic_head", "checks", "environment", "log", "verdict", "evidence_digest"}

  datatype Checks = Checks(emptyDatabase: bool, firstUpgrade: bool, secondUpgrade: bool, apiReady: bool, pass: bool)
  {
    predicate All() { emptyDatabase && firstUpgrade && secondUpgrade && apiReady && pass }

    function ToJson(): Json
    {
      Obj(map[
        "empty_database_precondition" := Bool(emptyDatabase),
        "first_upgrade_reached_head" := Bool(firstUpgrade),
        "second_upgrade_reached_head" := Bool(secondUpgrade),
        "api_readiness_ok" := Bool(apiReady),
        "script_reported_pass" := Bool(pass)])
    }
  }

  function DeriveChecks(log: string, head: string): Checks
  {
    var marker := head + " (head)";
    Checks(
      !Contains(log, "Fresh-install precondition failed") && Contains(log, "--- first alembic upgrade head ---"),
      Count(log, marker) >= 1,
      Count(log, marker) >= 2,
      && Contains(log, "\"status\": \"ok\"") && Contains(log, "\"database\": \"ok\"")
      && Contains(log, "\"schema\": \"ok\"") && Contains(log, "\"runtime_control\": \"ok\""),
      Contains(log, "P2.0e.1 fresh-install E2E: PASS"))
  }

  function Body(H: Hash, info: ReleaseInfo, log: string, script: string, generatedAt: string, environment: Document,
                checks: Checks): Document
  {
    map[
      "schema_version" := Str(SCHEMA_VERSION),
      "kind" := Str(CLEAN_INSTALL_KIND),
      "canonicalization" := Str(CANONICALIZATION),
      "release_version" := Str(info.version),
      "generated_at" := Str(generatedAt),
      "source" := Obj(map["governance_commit" := Str(info.commit), "release_manifest_digest" := Str(info.digest)]),
      "test_script" := Obj(map["path" := Str(CLEAN_INSTALL_SCRIPT), "sha256" := Str(H(script))]),
      "expected_alembic_head" := Str(EXPECTED_HEAD),
      "checks" := checks.ToJson(),
      "environment" := Obj(environment),
      "log" := Obj(map["path" := Str(CLEAN_INSTALL_LOG), "sha256" := Str(H(log)), "size_bytes" := Int(|log|)]),
      "verdict" := Str("pass")]
  }

  /** The bytes of a path in a commit of the governance repository. */
  type Blobs = (string, string) -> Result<string>

  function Build(H: Hash, manifest: Document, log: string, blobs: Blobs, generatedAt: string,
                 environment: Document): Result<Document>
  {
    var info :- ManifestReleaseInfo(manifest);
    var checks := DeriveChecks(log, EXPECTED_HEAD);
    var _ :- Require(checks.All(), "clean-install evidence failed checks");
    var script :- blobs(info.commit, CLEAN_INSTALL_SCRIPT);
    Ok(Seal(H, Body(H, info, log, script, generatedAt, environment, checks), "evidence_digest"))
  }

  predicate Identity(e: Document)
  {
    && e.Keys == FIELDS
    && Get(e, "schema_version") == Str(SCHEMA_VERSION)
    && Get(e, "kind") == Str(CLEAN_INSTALL_KIND)
    && Get(e, "canonicalization") == Str(CANONICALIZATION)
  }

  predicate Claims(e: Document)
  {
    && Get(e, "verdict") == Str("pass")
    && Get(e, "expected_alembic_head") == Str(EXPECTED_HEAD)
    && Get(e, "generated_at").Str?
  }

  predicate SourceBound(e: Document, info: ReleaseInfo)
  {
    && Get(e, "release_version") == Str(info.version)
    && Get(e, "source").Obj?
    && Get(Get(e, "source").members, "governance_commit") == Str(info.commit)
    && Get(Get(e, "source").members, "release_manifest_digest") == Str(info.digest)
  }

  predicate InputsBound(H: Hash, e: Document, log: string, script: string)
  {
    && Get(e, "test_script").Obj?
    && Get(Get(e, "test_script").members, "path") == Str(CLEAN_INSTALL_SCRIPT)
    && Get(Get(e, "test_script").members, "sha256") == Str(H(script))
    && Get(e, "log").Obj?
    && Get(Get(e, "log").members, "path") == Str(CLEAN_INSTALL_LOG)
    && Get(Get(e, "log").members, "sha256") == Str(H(log))
    && Get(Get(e, "log").members, "size_bytes") == Int(|log|)
  }

  /** The bindings and checks, re-derived from the inputs. */
  function CheckInputs(H: Hash, e: Document, info: ReleaseInfo, log: string, blobs: Blobs): Result<Document>
  {
    var _ :- Require(SourceBound(e, info), "source binding is invalid");
    var script :- blobs(info.commit, CLEAN_INSTALL_SCRIPT);
    var _ :- Require(InputsBound(H, e, log, script), "script or log binding is invalid");
    var checks := DeriveChecks(log, EXPECTED_HEAD);
    var _ :- Require(Get(e, "checks") == checks.ToJson() && checks.All(), "derived checks are inconsistent");
    Ok(e)
  }

  function CheckHeader(H: Hash, e: Document): Result<()>
  {
    var _ :- Require(Identity(e), "unsupported clean-install evidence");
    var _ :- VerifySelfDigest(H, e, "evidence_digest");
    Require(Claims(e), "clean-install claims are invalid")
  }

  function Verify(H: Hash, e: Document, manifest: Document, log: string, blobs: Blobs): Result<Document>
  {
    var _ :- CheckHeader(H, e);
    var info :- ManifestReleaseInfo(manifest);
    CheckInputs(H, e, info, log, blobs)
  }

  lemma BodyIdentity(H: Hash, info: ReleaseInfo, log: string, script: string, generatedAt: string,
                     environment: Document, checks: Checks, digest: Json)
    ensures var e := Body(H, info, log, script, generatedAt, environment, checks)["evidence_digest" := digest];
      Identity(e) && Claims(e)
  {
  }

  lemma BodySource(H: Hash, info: ReleaseInfo, log: string, script: string, generatedAt: string, environment: Document,
                   checks: Checks, digest: Json)
    ensures var e := Body(H, info, log, script, generatedAt, environment, checks)["evidence_digest" := digest];
      SourceBound(e, info) && Get(e, "checks") == checks.ToJson()
  {
  }

  lemma BodyInputs(H: Hash, info: ReleaseInfo, log: string, script: string, generatedAt: string, environment: Document,
                   checks: Checks, digest: Json)
    ensures var e := Body(H, info, log, script, generatedAt, environment, checks)["evidence_digest" := digest];
      InputsBound(H, e, log, script)
  {
  }

  /** The script at the manifest's governance commit. */
  function ScriptOf(manifest: Document, blobs: Blobs): Result<string>
  {
    var info :- ManifestReleaseInfo(manifest);
    blobs(info.commit, CLEAN_INSTALL_SCRIPT)
  }

  lemma BuiltParts(H: Hash, manifest: Document, log: string, blobs: Blobs, generatedAt: string, environment: Document)
    requires Build(H, manifest, log, blobs, generatedAt, environment).Ok?
    ensures ManifestReleaseInfo(manifest).Ok? && DeriveChecks(log, EXPECTED_HEAD).All() && ScriptOf(manifest, blobs).Ok?
    ensures Build(H, manifest, log, blobs, generatedAt, environment)
         == Ok(Seal(H, Body(H, ManifestReleaseInfo(manifest).value, log, ScriptOf(manifest, blobs).value, generatedAt,
                            environment, DeriveChecks(log, EXPECTED_HEAD)), "evidence_digest"))
  {
  }

  /** The verifier accepts every receipt the builder issues for the same inputs. */
  lemma BuiltReceiptVerifies(H: Hash, manifest: Document, log: string, blobs: Blobs, generatedAt: string,
                             environment: Document)
    requires Sha256Shaped(H)
    requires Build(H, manifest, log, blobs, generatedAt, environment).Ok?
    ensures var e := Build(H, manifest, log, blobs, generatedAt, environment).value;
      Verify(H, e, manifest, log, blobs) == Ok(e)
  {
    BuiltParts(H, manifest, log, blobs, generatedAt, environment);
    var info, script := ManifestReleaseInfo(manifest).value, ScriptOf(manifest, blobs).value;
    var checks := DeriveChecks(log, EXPECTED_HEAD);
    var body := Body(H, info, log, script, generatedAt, environment, checks);
    var digest := Str(SelfDigest(H, body, "evidence_digest"));
    BodyIdentity(H, info, log, script, generatedAt, environment, checks, digest);
    BodySource(H, info, log, script, generatedAt, environment, checks, digest);
    BodyInputs(H, info, log, script, generatedAt, environment, checks, digest);
    SealedDocumentVerifies(H, body, "evidence_digest");
    assert CheckHeader(H, Seal(H, body, "evidence_digest")).Ok?;
    assert CheckInputs(H, Seal(H, body, "evidence_digest"), info, log, blobs) == Ok(Seal(H, body, "evidence_digest"));
  }

  /** A receipt that verifies against two sets of inputs was derived from one log and one script. */
  lemma ReceiptBindsItsInputs(H: Hash, e: Document, manifest: Document, log: string, blobs: Blobs,
                              manifest': Document, log': string, blobs': Blobs)
    requires Verify(H, e, manifest, log, blobs).Ok? && Verify(H, e, manifest', log', blobs').Ok?
    requires NoCollision(H, log, log')
    requires ScriptOf(manifest, blobs).Ok? && ScriptOf(manifest', blobs').Ok? ==>
      NoCollision(H, ScriptOf(manifest, blobs).value, ScriptOf(manifest', blobs').value)
    ensures log == log' && ScriptOf(manifest, blobs).Ok? && ScriptOf(manifest, blobs) == ScriptOf(manifest', blobs')
    ensures ManifestReleaseInfo(manifest) == ManifestReleaseInfo(manifest')
    ensures DeriveChecks(log, EXPECTED_HEAD).All()
  {
    AcceptedBindings(H, e, manifest, log, blobs);
    AcceptedBindings(H, e, manifest', log', blobs');
    SameBindings(H, e, ManifestReleaseInfo(manifest).value, log, ScriptOf(manifest, blobs).value,
                 ManifestReleaseInfo(manifest').value, log', ScriptOf(manifest', blobs').value);
  }

  lemma SameBindings(H: Hash, e: Document, info: ReleaseInfo, log: string, script: string, info': ReleaseInfo,
                     log': string, script': string)
    requires SourceBound(e, info) && InputsBound(H, e, log, script)
    requires SourceBound(e, info') && InputsBound(H, e, log', script')
    requires NoCollision(H, log, log') && NoCollision(H, script, script')
    ensures log == log' && script == script' && info == info'
  {
  }

  lemma InputsIff(H: Hash, e: Document, info: ReleaseInfo, log: string, blobs: Blobs)
    ensures var script := blobs(info.commit, CLEAN_INSTALL_SCRIPT);
      CheckInputs(H, e, info, log, blobs).Ok? <==>
        && SourceBound(e, info) && script.Ok? && InputsBound(H, e, log, script.value)
        && DeriveChecks(log, EXPECTED_HEAD).All() && Get(e, "checks") == DeriveChecks(log, EXPECTED_HEAD).ToJson()
  {
  }

  lemma HeaderIff(H: Hash, e: Document)
    ensures CheckHeader(H, e).Ok? <==> Identity(e) && VerifySelfDigest(H, e, "evidence_digest").Ok? && Claims(e)
  {
  }

  lemma VerifyIff(H: Hash, e: Document, manifest: Document, log: string, blobs: Blobs)
    ensures Verify(H, e, manifest, log, blobs).Ok? <==>
      && CheckHeader(H, e).Ok? && ManifestReleaseInfo(manifest).Ok?
      && CheckInputs(H, e, ManifestReleaseInfo(manifest).value, log, blobs).Ok?
  {
  }

  lemma AcceptedBindings(H: Hash, e: Document, manifest: Document, log: string, blobs: Blobs)
    requires Verify(H, e, manifest, log, blobs).Ok?
    ensures Identity(e) && Claims(e) && VerifySelfDigest(H, e, "evidence_digest").Ok?
    ensures ManifestReleaseInfo(manifest).Ok? && SourceBound(e, ManifestReleaseInfo(manifest).value)
    ensures ScriptOf(manifest, blobs).Ok? && InputsBound(H, e, log, ScriptOf(manifest, blobs).value)
    ensures DeriveChecks(log, EXPECTED_HEAD).All() && Get(e, "checks") == DeriveChecks(log, EXPECTED_HEAD).ToJson()
  {
    VerifyIff(H, e, manifest, log, blobs);
    HeaderIff(H, e);
    InputsIff(H, e, ManifestReleaseInfo(manifest).value, log, blobs);
  }

  // ---- What an accepted receipt is ----

  /** The parts of a receipt the verifier leaves open: further keys beside the ones it reads in
      the three bound objects, and the kind of value under "environment". */
  predicate NothingAdded(e: Document)
  {
    && Get(e, "source").Obj? && Get(e, "source").members.Keys == {"governance_commit", "release_manifest_digest"}
    && Get(e, "test_script").Obj? && Get(e, "test_script").members.Keys == {"path", "sha256"}
    && Get(e, "log").Obj? && Get(e, "log").members.Keys == {"path", "sha256", "size_bytes"}
    && Get(e, "environment").Obj?
  }

  lemma BodyNothingAdded(H: Hash, info: ReleaseInfo, log: string, script: string, generatedAt: string,
                         environment: Document, checks: Checks, digest: Json)
    ensures var e := Body(H, info, log, script, generatedAt, environment, checks)["evidence_digest" := digest];
      NothingAdded(e)
  {
  }

  // The document that agrees with the body on every field is the body.
  predicate SameFields(e: Document, body: Document)
  {
    forall k | k in FIELDS && k != "evidence_digest" :: k in e && k in body && e[k] == body[k]
  }

  lemma SameFieldsSeal(H: Hash, e: Document, body: Document)
    requires e.Keys == FIELDS && body.Keys == FIELDS - {"evidence_digest"} && SameFields(e, body)
    requires VerifySelfDigest(H, e, "evidence_digest").Ok?
    ensures e == Seal(H, body, "evidence_digest")
  {
    assert e - {"evidence_digest"} == body == body - {"evidence_digest"};
    VerifiedDigest(H, e, "evidence_digest");
    assert e == (e - {"evidence_digest"})["evidence_digest" := e["evidence_digest"]];
  }

  lemma TwoKeys(m: Document, a: string, b: string, x: Json, y: Json)
    requires a != b && m.Keys == {a, b} && Get(m, a) == x && Get(m, b) == y
    ensures m == map[a := x, b := y]
  {
  }

  lemma ThreeKeys(m: Document, a: string, b: string, c: string, x: Json, y: Json, z: Json)
    requires a != b && a != c && b != c && m.Keys == {a, b, c} && Get(m, a) == x && Get(m, b) == y && Get(m, c) == z
    ensures m == map[a := x, b := y, c := z]
  {
  }

  lemma BoundObjects(H: Hash, e: Document, info: ReleaseInfo, log: string, script: string)
    requires SourceBound(e, info) && InputsBound(H, e, log, script) && NothingAdded(e)
    ensures Get(e, "source")
         == Obj(map["governance_commit" := Str(info.commit), "release_manifest_digest" := Str(info.digest)])
    ensures Get(e, "test_script") == Obj(map["path" := Str(CLEAN_INSTALL_SCRIPT), "sha256" := Str(H(script))])
    ensures Get(e, "log")
         == Obj(map["path" := Str(CLEAN_INSTALL_LOG), "sha256" := Str(H(log)), "size_bytes" := Int(|log|)])
  {
    assert |"governance_commit"| == 17 && |"release_manifest_digest"| == 23;
    assert |"path"| == 4 && |"sha256"| == 6 && |"size_bytes"| == 10;
    TwoKeys(Get(e, "source").members, "governance_commit", "release_manifest_digest", Str(info.commit),
            Str(info.digest));
    TwoKeys(Get(e, "test_script").members, "path", "sha256", Str(CLEAN_INSTALL_SCRIPT), Str(H(script)));
    ThreeKeys(Get(e, "log").members, "path", "sha256", "size_bytes", Str(CLEAN_INSTALL_LOG), Str(H(log)), Int(|log|));
  }

  lemma AcceptedFields(H: Hash, e: Document, info: ReleaseInfo, log: string, script: string, checks: Checks)
    requires Identity(e) && Claims(e) && SourceBound(e, info) && InputsBound(H, e, log, script) && NothingAdded(e)
    requires Get(e, "checks") == checks.ToJson()
    ensures SameFields(e,
                       Body(H, info, log, script, Get(e, "generated_at").text, Get(e, "environment").members, checks))
  {
    BoundObjects(H, e, info, log, script);
  }

  lemma BodyKeys(H: Hash, info: ReleaseInfo, log: string, script: string, generatedAt: string, environment: Document,
                 checks: Checks)
    ensures Body(H, info, log, script, generatedAt, environment, checks).Keys == FIELDS - {"evidence_digest"}
  {
  }

  lemma AcceptedIsSealedBody(H: Hash, e: Document, manifest: Document, log: string, blobs: Blobs)
    requires Verify(H, e, manifest, log, blobs).Ok? && NothingAdded(e)
    ensures Build(H, manifest, log, blobs, Get(e, "generated_at").text, Get(e, "environment").members) == Ok(e)
  {
    AcceptedBindings(H, e, manifest, log, blobs);
    var info, checks := ManifestReleaseInfo(manifest).value, DeriveChecks(log, EXPECTED_HEAD);
    var script := ScriptOf(manifest, blobs).value;
    var generatedAt, environment := Get(e, "generated_at").text, Get(e, "environment").members;
    AcceptedFields(H, e, info, log, script, checks);
    BodyKeys(H, info, log, script, generatedAt, environment, checks);
    SameFieldsSeal(H, e, Body(H, info, log, script, generatedAt, environment, checks));
  }

  lemma BuiltAddsNothing(H: Hash, manifest: Document, log: string, blobs: Blobs, generatedAt: string,
                         environment: Document)
    requires Build(H, manifest, log, blobs, generatedAt, environment).Ok?
    ensures NothingAdded(Build(H, manifest, log, blobs, generatedAt, environment).value)
  {
    BuiltParts(H, manifest, log, blobs, generatedAt, environment);
    var info, checks := ManifestReleaseInfo(manifest).value, DeriveChecks(log, EXPECTED_HEAD);
    var script := ScriptOf(manifest, blobs).value;
    var body := Body(H, info, log, script, generatedAt, environment, checks);
    BodyNothingAdded(H, info, log, script, generatedAt, environment, checks,
                     Str(SelfDigest(H, body, "evidence_digest")));
  }

  /** Up to keys added inside the bound objects, and an environment that is no object, the verifier
      accepts exactly the receipts the builder issues for these inputs. */
  lemma AcceptedReceiptIsBuilt(H: Hash, e: Document, manifest: Document, log: string, blobs: Blobs)
    requires Sha256Shaped(H)
    ensures Verify(H, e, manifest, log, blobs).Ok? && NothingAdded(e) <==>
      exists generatedAt, environment :: Build(H, manifest, log, blobs, generatedAt, environment) == Ok(e)
  {
    if Verify(H, e, manifest, log, blobs).Ok? && NothingAdded(e) {
      AcceptedIsSealedBody(H, e, manifest, log, blobs);
    }
    if generatedAt, environment :| Build(H, manifest, log, blobs, generatedAt, environment) == Ok(e) {
      BuiltReceiptVerifies(H, manifest, log, blobs, generatedAt, environment);
      BuiltAddsNothing(H, manifest, log, blobs, generatedAt, environment);
    }
  }
}
