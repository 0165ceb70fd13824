/** What a clean-install receipt stands for: which logs get one, and what it says about the release,
    the script and the log. */
module ReceiptMeaning {
  import opened Text
  import opened CanonicalJson
  import opened Outcome
  import opened Evidence
  import opened ReleaseIndex
  import opened IndexMeaning
  import opened CleanInstall

  // ---- Logs ----

  ghost predicate Says(log: string, phrase: string)
  {
    exists i: nat :: Occurs(log, phrase, i)
  }

  /** Somewhere, and once more after that. */
  ghost predicate SaysTwice(log: string, phrase: string)
  {
    exists i: nat, j: nat :: Occurs(log, phrase, i) && Occurs(log, phrase, j) && i + |phrase| <= j
  }

  /** A log of a fresh install that passed: no failed precondition, two upgrades to the head, four
      readiness checks and the script's own verdict. */
  ghost predicate Passes(log: string)
  {
    && !Says(log, "Fresh-install precondition failed") && Says(log, "--- first alembic upgrade head ---")
    && SaysTwice(log, "0019 (head)")
    && Says(log, "\"status\": \"ok\"") && Says(log, "\"database\": \"ok\"")
    && Says(log, "\"schema\": \"ok\"") && Says(log, "\"runtime_control\": \"ok\"")
    && Says(log, "P2.0e.1 fresh-install E2E: PASS")
  }

  lemma SaysIff(log: string, phrase: string)
    ensures Contains(log, phrase) <==> Says(log, phrase)
  {
    ContainsIff(log, phrase);
  }

  lemma SaysTwiceIff(log: string, phrase: string)
    requires phrase != ""
    ensures Count(log, phrase) >= 2 <==> SaysTwice(log, phrase)
  {
    CountIsMost(log, phrase, 2);
    if i: nat, j: nat :| Occurs(log, phrase, i) && Occurs(log, phrase, j) && i + |phrase| <= j {
      assert |[i, j]| == 2 && Separate(log, phrase, [i, j], 0);
    }
    if at: seq<nat> :| |at| == 2 && Separate(log, phrase, at, 0) {
      assert Occurs(log, phrase, at[0]) && Occurs(log, phrase, at[1]) && at[0] + |phrase| <= at[1];
    }
  }

  lemma PassesIff(log: string)
    ensures DeriveChecks(log, EXPECTED_HEAD).All() <==> Passes(log)
  {
    SaysIff(log, "Fresh-install precondition failed");
    SaysIff(log, "--- first alembic upgrade head ---");
    assert EXPECTED_HEAD + " (head)" == "0019 (head)";
    SaysTwiceIff(log, "0019 (head)");
    SaysIff(log, "\"status\": \"ok\"");
    SaysIff(log, "\"database\": \"ok\"");
    SaysIff(log, "\"schema\": \"ok\"");
    SaysIff(log, "\"runtime_control\": \"ok\"");
    SaysIff(log, "P2.0e.1 fresh-install E2E: PASS");
  }

  // ---- Receipts ----

  /** The install script at the governance commit that the manifest states. */
  function InstallScript(manifest: Document, blobs: Blobs): Result<string>
  {
    var commit := CommitOf(manifest, "governance");
    if commit.Str? then blobs(commit.text, "scripts/test_fresh_install_migrations.sh") else Err("no commit")
  }

  /** A receipt can be issued exactly for a manifest of this release, a log that passed and a script
      that is there. */
  lemma ReceiptBuildsIff(H: Hash, manifest: Document, log: string, blobs: Blobs, generatedAt: string,
                         environment: Document)
    ensures Build(H, manifest, log, blobs, generatedAt, environment).Ok? <==>
      ReleaseManifest(manifest) && Passes(log) && InstallScript(manifest, blobs).Ok?
  {
    ManifestInfoIff(manifest);
    PassesIff(log);
  }

  /** The release and the commit are the manifest's, the digests are those of the script and the log. */
  predicate ReceiptMeans(H: Hash, e: Document, manifest: Document, log: string, script: string)
  {
    && Get(e, "release_version") == Get(Under(manifest, "release"), "version")
    && Get(Under(e, "source"), "governance_commit") == CommitOf(manifest, "governance")
    && Get(Under(e, "source"), "release_manifest_digest") == Get(manifest, "manifest_digest")
    && Get(Under(e, "test_script"), "path") == Str("scripts/test_fresh_install_migrations.sh")
    && Get(Under(e, "test_script"), "sha256") == Str(H(script))
    && Get(Under(e, "log"), "path") == Str("artifacts/release/clean-install/clean-install-e2e.log")
    && Get(Under(e, "log"), "sha256") == Str(H(log)) && Get(Under(e, "log"), "size_bytes") == Int(|log|)
    && Get(e, "expected_alembic_head") == Str("0019") && Get(e, "verdict") == Str("pass")
    && AllPassed(Under(e, "checks"))
  }

  predicate AllPassed(checks: Document)
  {
    && checks.Keys == {"empty_database_precondition", "first_upgrade_reached_head", "second_upgrade_reached_head",
                       "api_readiness_ok", "script_reported_pass"}
    && forall k | k in checks :: checks[k] == Bool(true)
  }

  lemma PassedChecks(e: Document, checks: Checks)
    requires checks.All()
    ensures Get(e, "checks") == checks.ToJson() <==> AllPassed(Under(e, "checks"))
  {
    var j := Get(e, "checks");
    if j.Obj? && AllPassed(j.members) { assert j.members == checks.ToJson().members; }
  }

  lemma BoundIff(H: Hash, e: Document, manifest: Document, info: ReleaseInfo, log: string, script: string,
                 checks: Checks)
    requires Get(Under(manifest, "release"), "version") == Str(info.version) && checks.All()
    requires CommitOf(manifest, "governance") == Str(info.commit)
    requires Get(manifest, "manifest_digest") == Str(info.digest)
    ensures SourceBound(e, info) && InputsBound(H, e, log, script) && Claims(e) && Get(e, "checks") == checks.ToJson()
      <==> ReceiptMeans(H, e, manifest, log, script) && Get(e, "generated_at").Str?
  {
    PassedChecks(e, checks);
  }

  /** A receipt is accepted exactly when it has the fields of a receipt, its digest is its own, it says
      what the inputs say, and the log passed. */
  lemma ReceiptAcceptedIff(H: Hash, e: Document, manifest: Document, log: string, blobs: Blobs)
    ensures Verify(H, e, manifest, log, blobs).Ok? <==>
      && Identity(e) && Get(e, "generated_at").Str? && VerifySelfDigest(H, e, "evidence_digest").Ok?
      && ReleaseManifest(manifest) && Passes(log) && InstallScript(manifest, blobs).Ok?
      && ReceiptMeans(H, e, manifest, log, InstallScript(manifest, blobs).value)
  {
    VerifyIff(H, e, manifest, log, blobs);
    HeaderIff(H, e);
    ManifestInfoIff(manifest);
    PassesIff(log);
    var info := ManifestReleaseInfo(manifest);
    if info.Ok? {
      var script, checks := blobs(info.value.commit, CLEAN_INSTALL_SCRIPT), DeriveChecks(log, EXPECTED_HEAD);
      InputsIff(H, e, info.value, log, blobs);
      if checks.All() && script.Ok? { BoundIff(H, e, manifest, info.value, log, script.value, checks); }
    }
  }

  /** A built receipt says the same, with the time and the environment it was given. */
  lemma BuiltReceiptMeans(H: Hash, manifest: Document, log: string, blobs: Blobs, generatedAt: string,
                          environment: Document)
    requires Sha256Shaped(H) && Build(H, manifest, log, blobs, generatedAt, environment).Ok?
    ensures var e := Build(H, manifest, log, blobs, generatedAt, environment).value;
      && InstallScript(manifest, blobs).Ok?
      && ReceiptMeans(H, e, manifest, log, InstallScript(manifest, blobs).value)
      && Get(e, "generated_at") == Str(generatedAt) && Get(e, "environment") == Obj(environment)
  {
    var e := Build(H, manifest, log, blobs, generatedAt, environment).value;
    BuiltReceiptVerifies(H, manifest, log, blobs, generatedAt, environment);
    ReceiptAcceptedIff(H, e, manifest, log, blobs);
    CleanInstall.BuiltParts(H, manifest, log, blobs, generatedAt, environment);
    TimeAndPlace(H, ManifestReleaseInfo(manifest).value, log, ScriptOf(manifest, blobs).value, generatedAt, environment,
                 DeriveChecks(log, EXPECTED_HEAD));
  }

  lemma TimeAndPlace(H: Hash, info: ReleaseInfo, log: string, script: string, generatedAt: string,
                     environment: Document, checks: Checks)
    ensures var e := Seal(H, Body(H, info, log, script, generatedAt, environment, checks), "evidence_digest");
      Get(e, "generated_at") == Str(generatedAt) && Get(e, "environment") == Obj(environment)
  {
    var body := Body(H, info, log, script, generatedAt, environment, checks);
    BodyTimeAndPlace(H, info, log, script, generatedAt, environment, checks);
    assert |"evidence_digest"| == 15 && |"generated_at"| == 12 && |"environment"| == 11;
    SealedField(H, body, "evidence_digest", "generated_at");
    SealedField(H, body, "evidence_digest", "environment");
  }

  lemma BodyTimeAndPlace(H: Hash, info: ReleaseInfo, log: string, script: string, generatedAt: string,
                         environment: Document, checks: Checks)
    ensures var body := Body(H, info, log, script, generatedAt, environment, checks);
      Get(body, "generated_at") == Str(generatedAt) && Get(body, "environment") == Obj(environment)
  {
  }
}
