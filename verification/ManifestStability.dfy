/** A manifest outlives the branches it was built from, and an accepted manifest is exactly
    the one its declared commits give. */
module ManifestStability {
  import opened Text
  import opened CanonicalJson
  import opened Outcome
  import opened Evidence
  import opened GitStore
  import opened GitTrees
  import opened MigrationHead
  import opened ReleaseManifest

  /** Time has passed: stores grew, branches and tags moved, origins are the same. */
  ghost predicate Later(before: Repos, after: Repos)
  {
    forall k :: k in before ==>
      && k in after && after[k].origin == before[k].origin
      && Closed(before[k].commits) && Grows(before[k].commits, after[k].commits)
  }

  lemma ComponentKeysDistinct()
    ensures DistinctKeys(COMPONENTS)
  {
    assert |GOVERNANCE| == 10 && |ROUTER| == 19 && |CREDIT_DESK| == 23 && |OTEL_KIT| == 12;
  }

  ghost predicate Covers(specs: seq<(string, string)>, m: map<string, string>, all: map<string, string>)
  {
    && (forall k :: k in m <==> exists i :: 0 <= i < |specs| && specs[i].0 == k)
    && (forall k :: k in m ==> k in all && m[k] == all[k])
  }

  lemma CoversOnce(specs: seq<(string, string)>, m: map<string, string>, n: map<string, string>,
                   all: map<string, string>)
    requires Covers(specs, m, all) && Covers(specs, n, all)
    ensures m == n
  {
  }

  lemma CoversMore(specs: seq<(string, string)>, rest: map<string, string>, all: map<string, string>)
    requires specs != [] && Covers(specs[1..], rest, all) && specs[0].0 in all
    ensures Covers(specs, rest[specs[0].0 := all[specs[0].0]], all)
  {
    var m := rest[specs[0].0 := all[specs[0].0]];
    forall k ensures k in m <==> exists i :: 0 <= i < |specs| && specs[i].0 == k {
      if k in rest {
        var i :| 0 <= i < |specs| - 1 && specs[1..][i].0 == k;
        assert specs[i + 1].0 == k;
      }
      if i :| 0 <= i < |specs| && specs[i].0 == k {
        assert i > 0 ==> specs[1..][i - 1].0 == k;
      }
    }
  }

  // ---- Selecting the declared commits again ----

  ghost predicate Pinned(specs: seq<(string, string)>, repos: Repos, resolved: map<string, string>)
  {
    forall s :: s in specs ==>
      Checkout(repos, s, false).Ok? && Selected(repos, resolved, s.0) && IsHex40(resolved[s.0])
  }

  lemma {:induction false} ResolvedIsPinned(specs: seq<(string, string)>, repos: Repos, refs: map<string, string>,
                                            clean: bool)
    requires ResolveAll(specs, repos, refs, clean).Ok? && DistinctKeys(specs)
    ensures var resolved := ResolveAll(specs, repos, refs, clean).value;
      Covers(specs, resolved, resolved) && Pinned(specs, repos, resolved)
    decreases |specs|
  {
    if specs != [] {
      ResolvedIsPinned(specs[1..], repos, refs, clean);
      var rest := ResolveAll(specs[1..], repos, refs, clean).value;
      var resolved := ResolveAll(specs, repos, refs, clean).value;
      FirstKeyFresh(specs, rest);
      CoversMore(specs, rest, resolved);
      PinnedMore(specs, repos, rest, resolved[specs[0].0]);
    }
  }

  lemma FirstKeyFresh(specs: seq<(string, string)>, rest: map<string, string>)
    requires specs != [] && DistinctKeys(specs) && Covers(specs[1..], rest, rest)
    ensures specs[0].0 !in rest
  {
    forall i | 0 <= i < |specs| - 1 ensures specs[1..][i].0 != specs[0].0 {
      assert specs[1..][i] == specs[i + 1];
    }
  }

  lemma PinnedMore(specs: seq<(string, string)>, repos: Repos, rest: map<string, string>, commit: string)
    requires specs != [] && Pinned(specs[1..], repos, rest) && specs[0].0 !in rest
    requires Checkout(repos, specs[0], false).Ok? && commit in repos[specs[0].0].commits && IsHex40(commit)
    ensures Pinned(specs, repos, rest[specs[0].0 := commit])
  {
    forall s | s in specs
      ensures Checkout(repos, s, false).Ok? && Selected(repos, rest[specs[0].0 := commit], s.0)
              && IsHex40(rest[specs[0].0 := commit][s.0])
    {
      assert s == specs[0] || s in specs[1..];
    }
  }

  lemma PinnedLater(specs: seq<(string, string)>, before: Repos, after: Repos, resolved: map<string, string>)
    requires Pinned(specs, before, resolved) && Later(before, after)
    ensures Pinned(specs, after, resolved)
  {
  }

  /** Declared commits resolve to themselves. */
  lemma {:induction false} PinnedResolves(specs: seq<(string, string)>, repos: Repos, resolved: map<string, string>)
    requires Pinned(specs, repos, resolved)
    ensures ResolveAll(specs, repos, resolved, false).Ok?
    ensures Covers(specs, ResolveAll(specs, repos, resolved, false).value, resolved)
    decreases |specs|
  {
    if specs != [] {
      assert specs[0] in specs;
      PinnedResolves(specs[1..], repos, resolved);
      CoversMore(specs, ResolveAll(specs[1..], repos, resolved, false).value, resolved);
    }
  }

  ghost predicate Declares(specs: seq<(string, string)>, components: Document, resolved: map<string, string>)
  {
    forall s :: s in specs ==> s.0 in resolved && ComponentCommit(components, s.0) == Ok(resolved[s.0])
  }

  lemma {:induction false} PinnedIsDeclared(specs: seq<(string, string)>, repos: Repos, components: Document,
                                            resolved: map<string, string>)
    requires Pinned(specs, repos, resolved) && Declares(specs, components, resolved)
    ensures DeclaredCommits(specs, repos, components).Ok?
    ensures Covers(specs, DeclaredCommits(specs, repos, components).value, resolved)
    decreases |specs|
  {
    if specs != [] {
      assert specs[0] in specs;
      PinnedIsDeclared(specs[1..], repos, components, resolved);
      CoversMore(specs, DeclaredCommits(specs[1..], repos, components).value, resolved);
    }
  }

  // ---- Deriving the same sections ----

  lemma {:induction false} ComponentsStable(H: Hash, R: Readers, specs: seq<(string, string)>, before: Repos,
                                            after: Repos, resolved: map<string, string>)
    requires Later(before, after) && Components(H, R, specs, before, resolved).Ok?
    ensures Components(H, R, specs, after, resolved) == Components(H, R, specs, before, resolved)
    decreases |specs|
  {
    if specs != [] { ComponentsStable(H, R, specs[1..], before, after, resolved); }
  }

  lemma ComponentDeclares(H: Hash, R: Readers, repository: string, id: string, commit: Commit)
    requires ComponentRecord(H, R, repository, id, commit).Ok?
    ensures Get(ComponentRecord(H, R, repository, id, commit).value, "commit") == Str(id)
  {
  }

  lemma {:induction false} ComponentsDeclare(H: Hash, R: Readers, specs: seq<(string, string)>, repos: Repos,
                                             resolved: map<string, string>)
    requires Pinned(specs, repos, resolved) && DistinctKeys(specs) && Components(H, R, specs, repos, resolved).Ok?
    ensures Declares(specs, Components(H, R, specs, repos, resolved).value, resolved)
    decreases |specs|
  {
    if specs != [] {
      var key, rest := specs[0].0, Components(H, R, specs[1..], repos, resolved);
      assert specs[0] in specs;
      ComponentsDeclare(H, R, specs[1..], repos, resolved);
      ComponentDeclares(H, R, specs[0].1, resolved[key], repos[key].commits[resolved[key]]);
      DeclaresMore(specs, rest.value, resolved, Components(H, R, specs, repos, resolved).value[key]);
    }
  }

  lemma DeclaresMore(specs: seq<(string, string)>, rest: Document, resolved: map<string, string>, record: Json)
    requires specs != [] && DistinctKeys(specs) && Declares(specs[1..], rest, resolved) && specs[0].0 in resolved
    requires record.Obj? && Get(record.members, "commit") == Str(resolved[specs[0].0]) && IsHex40(resolved[specs[0].0])
    ensures Declares(specs, rest[specs[0].0 := record], resolved)
  {
    forall i | 0 <= i < |specs|
      ensures specs[i].0 in resolved
              && ComponentCommit(rest[specs[0].0 := record], specs[i].0) == Ok(resolved[specs[i].0])
    {
      assert i > 0 ==> specs[i] in specs[1..];
    }
  }

  lemma RelatedStable(H: Hash, before: Repos, after: Repos, resolved: map<string, string>, key: string,
                      evidence: string)
    requires Later(before, after) && Related(H, before, resolved, key, evidence).Ok?
    ensures Related(H, after, resolved, key, evidence) == Related(H, before, resolved, key, evidence)
  {
    CompatibilityIsStable(H, before[key], after[key], evidence, resolved[key]);
  }

  ghost predicate SameTag(before: Repos, after: Repos, tag: string)
  {
    OTEL_KIT in before && OTEL_KIT in after && Resolve(after[OTEL_KIT], tag) == Resolve(before[OTEL_KIT], tag)
  }

  lemma RelatedByTagStable(H: Hash, before: Repos, after: Repos, resolved: map<string, string>, version: string)
    requires Later(before, after) && RelatedByTag(H, before, resolved, version).Ok?
    requires SameTag(before, after, "v" + version)
    ensures RelatedByTag(H, after, resolved, version) == RelatedByTag(H, before, resolved, version)
  {
    var tagged := Resolve(before[OTEL_KIT], "v" + version).value;
    CompatibilityIsStable(H, before[OTEL_KIT], after[OTEL_KIT], tagged, resolved[OTEL_KIT]);
  }

  function RuntimeVersion(evidence: Document): Result<string>
  {
    BaselineVersion(Under(Under(evidence, P1_9), "baselines"))
  }

  lemma CompatibilityStable(H: Hash, before: Repos, after: Repos, resolved: map<string, string>, evidence: Document)
    requires Later(before, after) && CompatibilityRecord(H, before, resolved, evidence).Ok?
    requires SameTag(before, after, "v" + RuntimeVersion(evidence).value)
    ensures CompatibilityRecord(H, after, resolved, evidence) == CompatibilityRecord(H, before, resolved, evidence)
  {
    var baselines := Under(Under(evidence, P1_9), "baselines");
    RelatedStable(H, before, after, resolved, GOVERNANCE, BaselineCommit(baselines, "governance_head").value);
    RelatedStable(H, before, after, resolved, CREDIT_DESK, BaselineCommit(baselines, "credit_desk_head").value);
    RelatedByTagStable(H, before, after, resolved, RuntimeVersion(evidence).value);
  }

  lemma DeriveStable(H: Hash, R: Readers, before: Repos, after: Repos, resolved: map<string, string>,
                     evidence: Document)
    requires Later(before, after) && Derive(H, R, before, resolved).Ok?
    requires evidence == Derive(H, R, before, resolved).value.committed.evidence
    requires SameTag(before, after, "v" + RuntimeVersion(evidence).value)
    ensures Derive(H, R, after, resolved) == Derive(H, R, before, resolved)
  {
    ComponentsStable(H, R, COMPONENTS, before, after, resolved);
    CompatibilityStable(H, before, after, resolved, evidence);
    SameCommit(before, after, resolved);
  }

  lemma SameCommit(before: Repos, after: Repos, resolved: map<string, string>)
    requires Later(before, after) && Selected(before, resolved, GOVERNANCE)
    ensures Selected(after, resolved, GOVERNANCE)
    ensures after[GOVERNANCE].commits[resolved[GOVERNANCE]] == before[GOVERNANCE].commits[resolved[GOVERNANCE]]
  {
  }

  // ---- Everything derived prints unambiguously ----

  lemma FileRecordPrints(H: Hash, path: string, raw: string)
    ensures WellFormed(Obj(FileRecord(H, path, raw)))
  {
  }

  lemma ComponentPrints(H: Hash, repository: string, id: string, date: string, project: Project, lock: string)
    ensures WellFormed(Obj(ComponentBody(H, repository, id, date, project, lock)))
  {
    var d := ComponentBody(H, repository, id, date, project, lock);
    FileRecordPrints(H, "uv.lock", lock);
    assert d["lockfile"] == Obj(FileRecord(H, "uv.lock", lock));
    assert WellFormed(Obj(map["a2a_otel_kit" := StrOrNull(project.otelKit)]));
    assert forall k | k in d :: k == "lockfile" || k == "integration_dependencies" || d[k].Str?;
  }

  lemma PrintsWith(doc: Document, key: string, j: Json)
    requires WellFormed(Obj(doc)) && WellFormed(j)
    ensures WellFormed(Obj(doc[key := j]))
  {
    var extended := doc[key := j];
    forall k | k in extended ensures WellFormed(extended[k]) {
      assert k == key || (k in doc && extended[k] == doc[k]);
    }
  }

  lemma PrintsBoth(a: Document, b: Document)
    requires WellFormed(Obj(a)) && WellFormed(Obj(b))
    ensures WellFormed(Obj(a + b))
  {
    forall k | k in a + b ensures WellFormed((a + b)[k]) {
      assert (a + b)[k] == if k in b then b[k] else a[k];
    }
  }

  lemma {:induction false} ComponentsPrint(H: Hash, R: Readers, specs: seq<(string, string)>, repos: Repos,
                                           resolved: map<string, string>)
    requires Components(H, R, specs, repos, resolved).Ok?
    ensures WellFormed(Obj(Components(H, R, specs, repos, resolved).value))
    decreases |specs|
  {
    if specs != [] {
      var key, repository := specs[0].0, specs[0].1;
      var commit := repos[key].commits[resolved[key]];
      ComponentsPrint(H, R, specs[1..], repos, resolved);
      var id, tree := resolved[key], commit.tree;
      ComponentPrints(H, repository, id, commit.date, R.project(TrackedFile(id, tree, "pyproject.toml").value).value,
                      TrackedFile(id, tree, "uv.lock").value);
      PrintsWith(Components(H, R, specs[1..], repos, resolved).value, key,
                 Obj(ComponentRecord(H, R, repository, resolved[key], commit).value));
    }
  }

  lemma {:induction false} ProvenancePrints(H: Hash, files: seq<(string, string)>, id: string, tree: Tree)
    requires ProvenanceRecord(H, files, id, tree).Ok?
    ensures WellFormed(Obj(ProvenanceRecord(H, files, id, tree).value))
    decreases |files|
  {
    if files != [] {
      var raw := TrackedFile(id, tree, files[0].1).value;
      ProvenancePrints(H, files[1..], id, tree);
      FileRecordPrints(H, files[0].1, raw);
      PrintsWith(ProvenanceRecord(H, files[1..], id, tree).value, files[0].0, Obj(FileRecord(H, files[0].1, raw)));
    }
  }

  lemma EvidencePrints(H: Hash, path: string, raw: string, payload: Document)
    ensures WellFormed(Obj(EvidenceRecord(H, path, raw, payload)))
  {
    var record := FileRecord(H, path, raw);
    FileRecordPrints(H, path, raw);
    PrintsWith(record, "schema_version", TextOrNull(Get(payload, "schema_version")));
    record := record["schema_version" := TextOrNull(Get(payload, "schema_version"))];
    PrintsWith(record, "result", TextOrNull(Get(payload, "result")));
    record := record["result" := TextOrNull(Get(payload, "result"))];
    assert forall k | k in SafeBaselines(payload) :: SafeBaselines(payload)[k].Str?;
    PrintsWith(record, "baselines", Obj(SafeBaselines(payload)));
  }

  lemma {:induction false} EvidenceRecordsPrint(H: Hash, R: Readers, files: seq<(string, string)>, id: string,
                                                tree: Tree)
    requires EvidenceRecords(H, R, files, id, tree).Ok?
    ensures WellFormed(Obj(EvidenceRecords(H, R, files, id, tree).value))
    decreases |files|
  {
    if files != [] {
      var raw := TrackedFile(id, tree, files[0].1).value;
      EvidenceRecordsPrint(H, R, files[1..], id, tree);
      EvidencePrints(H, files[0].1, raw, R.report(raw).value);
      PrintsWith(EvidenceRecords(H, R, files[1..], id, tree).value, files[0].0,
                 Obj(EvidenceRecord(H, files[0].1, raw, R.report(raw).value)));
    }
  }

  lemma RelationForms(H: Hash, repo: Repo, evidence: string, selected: string) returns (items: seq<Json>)
    requires CompatibilityRelation(H, repo, evidence, selected).Ok?
    ensures var relation := CompatibilityRelation(H, repo, evidence, selected).value;
      || relation == map["relation" := Str("exact")] || relation == map["relation" := Str("descendant")]
      || relation == SquashRecord(H, items)
  {
    items := [];
    if evidence != selected && !Ancestor(repo.commits, evidence, selected) {
      items := Attested(H, CommitChangedPaths(repo, evidence).value, evidence, repo.commits[evidence].tree);
    }
  }

  lemma RelationPrints(H: Hash, repo: Repo, evidence: string, selected: string)
    requires CompatibilityRelation(H, repo, evidence, selected).Ok?
    ensures WellFormed(Obj(CompatibilityRelation(H, repo, evidence, selected).value))
  {
    var items := RelationForms(H, repo, evidence, selected);
    SquashPrints(H, items);
  }

  lemma SquashPrints(H: Hash, items: seq<Json>)
    ensures WellFormed(Obj(SquashRecord(H, items)))
  {
  }

  // No key of a relation starts like the evidence keys it is merged with.
  ghost predicate RelationKeys(relation: Document)
  {
    forall k :: k in relation ==> k != "" && k[0] != 'e'
  }

  lemma PlainRelationKeys(text: string)
    ensures RelationKeys(map["relation" := Str(text)])
  {
    assert "relation"[0] == 'r';
  }

  lemma SquashRelationKeys(H: Hash, items: seq<Json>)
    ensures RelationKeys(SquashRecord(H, items))
  {
    assert "relation"[0] == 'r' && "attested_path_count"[0] == 'a' && "attested_paths_digest"[0] == 'a';
  }

  lemma RelationHasRelationKeys(H: Hash, repo: Repo, evidence: string, selected: string)
    requires CompatibilityRelation(H, repo, evidence, selected).Ok?
    ensures RelationKeys(CompatibilityRelation(H, repo, evidence, selected).value)
  {
    PlainRelationKeys("exact");
    PlainRelationKeys("descendant");
    var items := RelationForms(H, repo, evidence, selected);
    SquashRelationKeys(H, items);
  }

  lemma CompatibilityPrints(H: Hash, repos: Repos, resolved: map<string, string>, evidence: Document)
    requires CompatibilityRecord(H, repos, resolved, evidence).Ok?
    ensures WellFormed(Obj(CompatibilityRecord(H, repos, resolved, evidence).value))
  {
    var baselines := Under(Under(evidence, P1_9), "baselines");
    var g, c := BaselineCommit(baselines, "governance_head").value, BaselineCommit(baselines, "credit_desk_head").value;
    var version := RuntimeVersion(evidence).value;
    RelatedPrints(H, repos, resolved, GOVERNANCE, g);
    RelatedPrints(H, repos, resolved, CREDIT_DESK, c);
    RelatedByTagPrints(H, repos, resolved, version);
    CompatibilityBodyPrints(Related(H, repos, resolved, GOVERNANCE, g).value,
                            Related(H, repos, resolved, CREDIT_DESK, c).value,
                            RelatedByTag(H, repos, resolved, version).value, resolved[ROUTER]);
  }

  lemma RelatedPrints(H: Hash, repos: Repos, resolved: map<string, string>, key: string, evidence: string)
    requires Related(H, repos, resolved, key, evidence).Ok?
    ensures WellFormed(Obj(Related(H, repos, resolved, key, evidence).value))
  {
    RelationPrints(H, repos[key], evidence, resolved[key]);
    PrintsBoth(map["evidence_commit" := Str(evidence), "selected_commit" := Str(resolved[key])],
               CompatibilityRelation(H, repos[key], evidence, resolved[key]).value);
  }

  lemma RelatedByTagPrints(H: Hash, repos: Repos, resolved: map<string, string>, version: string)
    requires RelatedByTag(H, repos, resolved, version).Ok?
    ensures WellFormed(Obj(RelatedByTag(H, repos, resolved, version).value))
  {
    var tagged := Resolve(repos[OTEL_KIT], "v" + version).value;
    RelationPrints(H, repos[OTEL_KIT], tagged, resolved[OTEL_KIT]);
    PrintsBoth(TagBody(version, tagged, resolved[OTEL_KIT]),
               CompatibilityRelation(H, repos[OTEL_KIT], tagged, resolved[OTEL_KIT]).value);
  }

  lemma CompatibilityBodyPrints(governance: Document, desk: Document, kit: Document, router: string)
    requires WellFormed(Obj(governance)) && WellFormed(Obj(desk)) && WellFormed(Obj(kit))
    ensures WellFormed(Obj(CompatibilityBody(governance, desk, kit, router)))
  {
    var d := CompatibilityBody(governance, desk, kit, router);
    var binding := map["selected_commit" := Str(router), "evidence_binding" := Str("not_attested_by_p1_9_report")];
    assert WellFormed(Obj(binding));
    assert forall k | k in d :: d[k] in [Obj(governance), Obj(desk), Obj(kit), Obj(binding)] || d[k].Str?;
  }

  lemma CommittedPrints(H: Hash, R: Readers, id: string, commit: Commit)
    requires CommittedRecords(H, R, id, commit).Ok?
    ensures var c := CommittedRecords(H, R, id, commit).value;
      WellFormed(Obj(c.evidence)) && WellFormed(Obj(c.provenance)) && WellFormed(Obj(c.database))
  {
    EvidenceRecordsPrint(H, R, EVIDENCE_FILES, id, commit.tree);
    ProvenancePrints(H, PROVENANCE_FILES, id, commit.tree);
    DatabasePrints(H, R, id, commit.tree);
  }

  lemma DatabasePrints(H: Hash, R: Readers, id: string, tree: Tree)
    requires DatabaseRecord(H, R, id, tree).Ok?
    ensures WellFormed(Obj(DatabaseRecord(H, R, id, tree).value))
  {
    var record := RecordOf(H, ReadMigrations(R, id, tree, MigrationNames(tree)).value).value;
    HeadPrints(record);
  }

  lemma HeadPrints(record: Record)
    ensures WellFormed(Obj(HeadDocument(record)))
  {
  }

  lemma BodyPrints(version: string, s: Sections)
    requires WellFormed(Obj(s.components)) && WellFormed(Obj(s.compatibility))
    requires WellFormed(Obj(s.committed.evidence)) && WellFormed(Obj(s.committed.provenance))
    requires WellFormed(Obj(s.committed.database))
    ensures WellFormed(Obj(Body(version, s)))
  {
    var d := Body(version, s);
    var release := map["version" := Str(version), "source_date" := Str(s.committed.date)];
    assert WellFormed(Obj(release));
    var objects := [Obj(release), Obj(s.components), Obj(s.committed.provenance), Obj(s.committed.database),
                    Obj(s.committed.evidence), Obj(s.compatibility)];
    assert forall j | j in objects :: WellFormed(j);
    assert forall k | k in d :: d[k] in objects || d[k].Str?;
  }

  lemma BuiltPrints(H: Hash, R: Readers, version: string, repos: Repos, refs: map<string, string>, clean: bool)
    requires Build(H, R, version, repos, refs, clean).Ok?
    ensures WellFormed(Obj(Build(H, R, version, repos, refs, clean).value))
  {
    var resolved := ResolveAll(COMPONENTS, repos, refs, clean).value;
    var s := Derive(H, R, repos, resolved).value;
    ComponentsPrint(H, R, COMPONENTS, repos, resolved);
    CommittedPrints(H, R, resolved[GOVERNANCE], repos[GOVERNANCE].commits[resolved[GOVERNANCE]]);
    CompatibilityPrints(H, repos, resolved, s.committed.evidence);
    BodyPrints(version, s);
    SealedWellFormed(H, Body(version, s), "manifest_digest");
  }

  // ---- What a verified manifest is ----

  lemma RederivedIsBuilt(H: Hash, R: Readers, doc: Document, repos: Repos)
    requires Sha256Shaped(H) && Rederived(H, R, doc, repos).Ok?
    ensures WellFormed(Obj(Rederived(H, R, doc, repos).value))
    ensures ValidateShape(H, Rederived(H, R, doc, repos).value).Ok?
  {
    var declared := DeclaredCommits(COMPONENTS, repos, Get(doc, "components").members).value;
    BuiltPrints(H, R, DeclaredVersion(doc).value, repos, declared, false);
    BuiltShape(H, R, DeclaredVersion(doc).value, repos, declared, false);
  }

  /** A well-formed document verifies exactly when it is the manifest that its own version and
      commits give. */
  lemma VerifiedIsRederived(H: Hash, R: Readers, doc: Document, repos: Repos)
    requires Sha256Shaped(H) && WellFormed(Obj(doc))
    ensures Verify(H, R, doc, repos).Ok? <==> Rederived(H, R, doc, repos) == Ok(doc)
  {
    var expected := Rederived(H, R, doc, repos);
    if expected.Ok? {
      RederivedIsBuilt(H, R, doc, repos);
      CanonicalJsonUnambiguous(Obj(expected.value), Obj(doc), false);
    }
  }

  lemma BuiltShape(H: Hash, R: Readers, version: string, repos: Repos, refs: map<string, string>, clean: bool)
    requires Sha256Shaped(H) && Build(H, R, version, repos, refs, clean).Ok?
    ensures ValidateShape(H, Build(H, R, version, repos, refs, clean).value) == Ok(version)
  {
    var resolved := ResolveAll(COMPONENTS, repos, refs, clean).value;
    var s := Derive(H, R, repos, resolved).value;
    SealedIdentity(H, version, s);
    SealedVersion(H, version, s);
    SealedDocumentVerifies(H, Body(version, s), "manifest_digest");
  }

  lemma SealedIdentity(H: Hash, version: string, s: Sections)
    ensures Identified(Seal(H, Body(version, s), "manifest_digest"))
  {
    BodyIdentity(version, s);
    SealKeeps(H, Body(version, s), "schema_version");
    SealKeeps(H, Body(version, s), "kind");
    SealKeeps(H, Body(version, s), "canonicalization");
  }

  lemma SealedVersion(H: Hash, version: string, s: Sections)
    requires IsRelease(version)
    ensures DeclaredVersion(Seal(H, Body(version, s), "manifest_digest")) == Ok(version)
  {
    BodyRelease(version, s);
    SealKeeps(H, Body(version, s), "release");
    ReleaseVersion(version, s.committed.date);
  }

  lemma ReleaseVersion(version: string, date: string)
    ensures Get(map["version" := Str(version), "source_date" := Str(date)], "version") == Str(version)
  {
    assert |"version"| == 7 && |"source_date"| == 11;
  }

  lemma SealKeeps(H: Hash, body: Document, key: string)
    requires key in body && |key| != 15
    ensures Get(Seal(H, body, "manifest_digest"), key) == body[key]
  {
    assert |"manifest_digest"| == 15;
  }

  lemma BodyIdentity(version: string, s: Sections)
    ensures Get(Body(version, s), "schema_version") == Str(SCHEMA_VERSION)
    ensures Get(Body(version, s), "kind") == Str(KIND)
    ensures Get(Body(version, s), "canonicalization") == Str(CANONICALIZATION)
  {
  }

  lemma BodyRelease(version: string, s: Sections)
    ensures Get(Body(version, s), "release")
         == Obj(map["version" := Str(version), "source_date" := Str(s.committed.date)])
  {
  }

  lemma BodyComponents(version: string, s: Sections)
    ensures Get(Body(version, s), "components") == Obj(s.components)
  {
  }

  lemma BodyCompatibility(version: string, s: Sections)
    ensures Get(Body(version, s), "compatibility") == Obj(s.compatibility)
  {
  }

  // ---- A manifest outlives its refs ----

  /** The tag that the manifest names for the telemetry kit's evidence. */
  function KitField(compatibility: Document, field: string): Json
  {
    Get(Under(compatibility, OTEL_KIT), field)
  }

  lemma TagBodyFields(version: string, tagged: string, selected: string, relation: Document)
    requires RelationKeys(relation)
    ensures var kit := TagBody(version, tagged, selected) + relation;
      Get(kit, "evidence_tag") == Str("v" + version) && Get(kit, "evidence_tag_commit") == Str(tagged)
  {
    assert "evidence_tag"[0] == 'e' && "evidence_tag_commit"[0] == 'e';
    assert |"evidence_tag"| == 12 && |"evidence_tag_commit"| == 19 && |"selected_commit"| == 15;
    assert |"evidence_runtime_version"| == 24;
  }

  lemma CompatibilityBodyKit(governance: Document, desk: Document, kit: Document, router: string)
    ensures Under(CompatibilityBody(governance, desk, kit, router), OTEL_KIT) == kit
  {
    assert |OTEL_KIT| == 12 && |"latest_runtime_evidence"| == 23 && |"limitation"| == 10;
    assert |GOVERNANCE| == 10 && |CREDIT_DESK| == 23 && |ROUTER| == 19;
  }

  lemma CompatibilityTag(H: Hash, repos: Repos, resolved: map<string, string>, evidence: Document)
    requires CompatibilityRecord(H, repos, resolved, evidence).Ok?
    ensures RuntimeVersion(evidence).Ok? && OTEL_KIT in repos
    ensures
      var compatibility := CompatibilityRecord(H, repos, resolved, evidence).value;
      var tag := "v" + RuntimeVersion(evidence).value;
      && Resolve(repos[OTEL_KIT], tag).Ok?
      && KitField(compatibility, "evidence_tag") == Str(tag)
      && KitField(compatibility, "evidence_tag_commit") == Str(Resolve(repos[OTEL_KIT], tag).value)
  {
    var baselines := Under(Under(evidence, P1_9), "baselines");
    var g, c := BaselineCommit(baselines, "governance_head").value, BaselineCommit(baselines, "credit_desk_head").value;
    var version := RuntimeVersion(evidence).value;
    KitTag(H, repos, resolved, version);
    CompatibilityBodyKit(Related(H, repos, resolved, GOVERNANCE, g).value,
                         Related(H, repos, resolved, CREDIT_DESK, c).value,
                         RelatedByTag(H, repos, resolved, version).value, resolved[ROUTER]);
  }

  lemma KitTag(H: Hash, repos: Repos, resolved: map<string, string>, version: string)
    requires RelatedByTag(H, repos, resolved, version).Ok?
    ensures OTEL_KIT in repos && Resolve(repos[OTEL_KIT], "v" + version).Ok?
    ensures var kit := RelatedByTag(H, repos, resolved, version).value;
      && Get(kit, "evidence_tag") == Str("v" + version)
      && Get(kit, "evidence_tag_commit") == Str(Resolve(repos[OTEL_KIT], "v" + version).value)
  {
    var tagged := Resolve(repos[OTEL_KIT], "v" + version).value;
    RelationHasRelationKeys(H, repos[OTEL_KIT], tagged, resolved[OTEL_KIT]);
    TagBodyFields(version, tagged, resolved[OTEL_KIT],
                  CompatibilityRelation(H, repos[OTEL_KIT], tagged, resolved[OTEL_KIT]).value);
  }

  // In a later store, the built manifest's own commits are selected again.
  lemma DeclaredAgain(H: Hash, R: Readers, version: string, before: Repos, refs: map<string, string>, clean: bool,
                      after: Repos)
    requires ResolveAll(COMPONENTS, before, refs, clean).Ok? && Later(before, after)
    requires Components(H, R, COMPONENTS, before, ResolveAll(COMPONENTS, before, refs, clean).value).Ok?
    ensures var resolved := ResolveAll(COMPONENTS, before, refs, clean).value;
      var components := Components(H, R, COMPONENTS, before, resolved).value;
      && DeclaredCommits(COMPONENTS, after, components) == Ok(resolved)
      && ResolveAll(COMPONENTS, after, resolved, false) == Ok(resolved)
  {
    var resolved := ResolveAll(COMPONENTS, before, refs, clean).value;
    var components := Components(H, R, COMPONENTS, before, resolved).value;
    ComponentKeysDistinct();
    ResolvedIsPinned(COMPONENTS, before, refs, clean);
    ComponentsDeclare(H, R, COMPONENTS, before, resolved);
    PinnedLater(COMPONENTS, before, after, resolved);
    PinnedResolves(COMPONENTS, after, resolved);
    PinnedIsDeclared(COMPONENTS, after, components, resolved);
    CoversOnce(COMPONENTS, resolved, DeclaredCommits(COMPONENTS, after, components).value, resolved);
    CoversOnce(COMPONENTS, resolved, ResolveAll(COMPONENTS, after, resolved, false).value, resolved);
  }

  ghost function Sealed(H: Hash, version: string, sections: Result<Sections>): Result<Document>
  {
    if sections.Ok? then Ok(Seal(H, Body(version, sections.value), "manifest_digest")) else Err(sections.reason)
  }

  lemma RederivedFrom(H: Hash, R: Readers, doc: Document, repos: Repos, version: string, declared: map<string, string>)
    requires DeclaredVersion(doc) == Ok(version) && Get(doc, "components").Obj?
    requires DeclaredCommits(COMPONENTS, repos, Get(doc, "components").members) == Ok(declared)
    requires ResolveAll(COMPONENTS, repos, declared, false) == Ok(declared)
    ensures Rederived(H, R, doc, repos) == Sealed(H, version, Derive(H, R, repos, declared))
  {
  }

  lemma RederivedLater(H: Hash, R: Readers, version: string, before: Repos, refs: map<string, string>, clean: bool,
                       after: Repos, resolved: map<string, string>, s: Sections)
    requires IsRelease(version) && Later(before, after)
    requires ResolveAll(COMPONENTS, before, refs, clean) == Ok(resolved)
    requires Components(H, R, COMPONENTS, before, resolved) == Ok(s.components)
    ensures Rederived(H, R, Seal(H, Body(version, s), "manifest_digest"), after)
         == Sealed(H, version, Derive(H, R, after, resolved))
  {
    var doc := Seal(H, Body(version, s), "manifest_digest");
    DeclaredAgain(H, R, version, before, refs, clean, after);
    SealedVersion(H, version, s);
    SealedComponents(H, version, s);
    RederivedFrom(H, R, doc, after, version, resolved);
  }

  lemma SealedComponents(H: Hash, version: string, s: Sections)
    ensures Get(Seal(H, Body(version, s), "manifest_digest"), "components") == Obj(s.components)
  {
    BodyComponents(version, s);
    SealKeeps(H, Body(version, s), "components");
  }

  lemma SealedCompatibility(H: Hash, version: string, s: Sections, t: Sections)
    requires Seal(H, Body(version, s), "manifest_digest") == Seal(H, Body(version, t), "manifest_digest")
    ensures s.compatibility == t.compatibility
  {
    BodyCompatibility(version, s);
    BodyCompatibility(version, t);
    SealKeeps(H, Body(version, s), "compatibility");
    SealKeeps(H, Body(version, t), "compatibility");
  }

  lemma SameCompatibilitySameTag(H: Hash, before: Repos, after: Repos, resolved: map<string, string>, e: Document,
                                 f: Document)
    requires CompatibilityRecord(H, before, resolved, e).Ok?
    requires CompatibilityRecord(H, after, resolved, f) == CompatibilityRecord(H, before, resolved, e)
    ensures RuntimeVersion(e).Ok? && SameTag(before, after, "v" + RuntimeVersion(e).value)
  {
    CompatibilityTag(H, before, resolved, e);
    CompatibilityTag(H, after, resolved, f);
  }

  lemma DerivedComponents(H: Hash, R: Readers, repos: Repos, resolved: map<string, string>)
    requires Derive(H, R, repos, resolved).Ok?
    ensures Components(H, R, COMPONENTS, repos, resolved) == Ok(Derive(H, R, repos, resolved).value.components)
  {
  }

  lemma DerivedCompatibility(H: Hash, R: Readers, repos: Repos, resolved: map<string, string>)
    requires Derive(H, R, repos, resolved).Ok?
    ensures var s := Derive(H, R, repos, resolved).value;
      CompatibilityRecord(H, repos, resolved, s.committed.evidence) == Ok(s.compatibility)
  {
  }

  // The derived sections are sealed to the same document exactly when the tag has not moved.
  lemma SameTagSameDocument(H: Hash, R: Readers, version: string, before: Repos, after: Repos, 
                            resolved: map<string, string>, s: Sections)
    requires Later(before, after) && Derive(H, R, before, resolved) == Ok(s)
    ensures RuntimeVersion(s.committed.evidence).Ok?
    ensures Sealed(H, version, Derive(H, R, after, resolved)) == Sealed(H, version, Ok(s))
       <==> SameTag(before, after, "v" + RuntimeVersion(s.committed.evidence).value)
  {
    var t, evidence := Derive(H, R, after, resolved), s.committed.evidence;
    DerivedCompatibility(H, R, before, resolved);
    CompatibilityTag(H, before, resolved, evidence);
    if SameTag(before, after, "v" + RuntimeVersion(evidence).value) {
      DeriveStable(H, R, before, after, resolved, evidence);
    }
    if t.Ok? && Sealed(H, version, t) == Sealed(H, version, Ok(s)) {
      SealedCompatibility(H, version, s, t.value);
      DerivedCompatibility(H, R, after, resolved);
      SameCompatibilitySameTag(H, before, after, resolved, evidence, t.value.committed.evidence);
    }
  }

  lemma BuiltParts(H: Hash, R: Readers, version: string, repos: Repos, refs: map<string, string>, clean: bool)
    returns (resolved: map<string, string>, s: Sections)
    requires Build(H, R, version, repos, refs, clean).Ok?
    ensures IsRelease(version) && ResolveAll(COMPONENTS, repos, refs, clean) == Ok(resolved)
    ensures Derive(H, R, repos, resolved) == Ok(s)
    ensures Build(H, R, version, repos, refs, clean) == Ok(Seal(H, Body(version, s), "manifest_digest"))
  {
    resolved := ResolveAll(COMPONENTS, repos, refs, clean).value;
    s := Derive(H, R, repos, resolved).value;
  }

  lemma NamedTag(H: Hash, R: Readers, version: string, repos: Repos, resolved: map<string, string>, s: Sections)
    requires Derive(H, R, repos, resolved) == Ok(s)
    ensures RuntimeVersion(s.committed.evidence).Ok? && OTEL_KIT in repos
    ensures KitField(Under(Seal(H, Body(version, s), "manifest_digest"), "compatibility"), "evidence_tag")
         == Str("v" + RuntimeVersion(s.committed.evidence).value)
  {
    BodyCompatibility(version, s);
    SealKeeps(H, Body(version, s), "compatibility");
    DerivedCompatibility(H, R, repos, resolved);
    CompatibilityTag(H, repos, resolved, s.committed.evidence);
  }

  /** A manifest built from refs is still accepted after branches have moved and the object
      stores have grown, exactly when the version tag it names still resolves to the same commit. */
  lemma ManifestOutlivesItsRefs(H: Hash, R: Readers, version: string, before: Repos, refs: map<string, string>,
                                clean: bool, after: Repos, tag: string)
    requires Sha256Shaped(H) && Build(H, R, version, before, refs, clean).Ok? && Later(before, after)
    requires KitField(Under(Build(H, R, version, before, refs, clean).value, "compatibility"), "evidence_tag")
         == Str(tag)
    ensures OTEL_KIT in before && OTEL_KIT in after
    ensures Verify(H, R, Build(H, R, version, before, refs, clean).value, after).Ok?
       <==> Resolve(after[OTEL_KIT], tag) == Resolve(before[OTEL_KIT], tag)
  {
    var resolved, s := BuiltParts(H, R, version, before, refs, clean);
    var doc := Seal(H, Body(version, s), "manifest_digest");
    NamedTag(H, R, version, before, resolved, s);
    DerivedComponents(H, R, before, resolved);
    BuiltPrints(H, R, version, before, refs, clean);
    VerifiedIsRederived(H, R, doc, after);
    RederivedLater(H, R, version, before, refs, clean, after, resolved, s);
    SameTagSameDocument(H, R, version, before, after, resolved, s);
  }

  // ---- The digest fixes the selected commits ----

  lemma SameDeclarations(components: Document, a: map<string, string>, b: map<string, string>)
    requires Declares(COMPONENTS, components, a) && Declares(COMPONENTS, components, b)
    requires Covers(COMPONENTS, a, a) && Covers(COMPONENTS, b, b)
    ensures a == b
  {
    forall i | 0 <= i < |COMPONENTS|
      ensures COMPONENTS[i].0 in a && COMPONENTS[i].0 in b && a[COMPONENTS[i].0] == b[COMPONENTS[i].0]
    {
      assert COMPONENTS[i] in COMPONENTS;
    }
  }

  lemma BuiltDeclares(H: Hash, R: Readers, repos: Repos, refs: map<string, string>, clean: bool,
                      resolved: map<string, string>, s: Sections)
    requires ResolveAll(COMPONENTS, repos, refs, clean) == Ok(resolved)
    requires Components(H, R, COMPONENTS, repos, resolved) == Ok(s.components)
    ensures Declares(COMPONENTS, s.components, resolved) && Covers(COMPONENTS, resolved, resolved)
  {
    ComponentKeysDistinct();
    ResolvedIsPinned(COMPONENTS, repos, refs, clean);
    ComponentsDeclare(H, R, COMPONENTS, repos, resolved);
  }

  /** Two manifests, built from whatever refs and stores, with the same digest are the same
      document and selected the same four commits, given that their texts do not collide. */
  lemma ManifestDigestFixesCommits(H: Hash, R: Readers, v: string, w: string, a: Repos, b: Repos,
                                   p: map<string, string>, q: map<string, string>, c: bool, d: bool)
    requires Sha256Shaped(H) && Build(H, R, v, a, p, c).Ok? && Build(H, R, w, b, q, d).Ok?
    requires NoCollision(H, Unsigned(Build(H, R, v, a, p, c).value, "manifest_digest"),
                         Unsigned(Build(H, R, w, b, q, d).value, "manifest_digest"))
    requires VerifySelfDigest(H, Build(H, R, v, a, p, c).value, "manifest_digest")
          == VerifySelfDigest(H, Build(H, R, w, b, q, d).value, "manifest_digest")
    ensures Build(H, R, v, a, p, c) == Build(H, R, w, b, q, d)
    ensures ResolveAll(COMPONENTS, a, p, c) == ResolveAll(COMPONENTS, b, q, d)
  {
    var x, s := BuiltParts(H, R, v, a, p, c);
    var y, t := BuiltParts(H, R, w, b, q, d);
    DerivedComponents(H, R, a, x);
    DerivedComponents(H, R, b, y);
    BuiltPrints(H, R, v, a, p, c);
    BuiltPrints(H, R, w, b, q, d);
    SealedDocumentVerifies(H, Body(v, s), "manifest_digest");
    SealedDocumentVerifies(H, Body(w, t), "manifest_digest");
    SelfDigestCommits(H, Build(H, R, v, a, p, c).value, Build(H, R, w, b, q, d).value, "manifest_digest");
    SealedComponents(H, v, s);
    SealedComponents(H, w, t);
    BuiltDeclares(H, R, a, p, c, x, s);
    BuiltDeclares(H, R, b, q, d, y, t);
    SameDeclarations(s.components, x, y);
  }
}
