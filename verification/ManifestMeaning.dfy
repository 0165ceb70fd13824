/** What the fields of a built or verified manifest say about the four repositories. */
module ManifestMeaning {
  import opened Text
  import opened CanonicalJson
  import opened Outcome
  import opened Evidence
  import opened Paths
  import opened GitStore
  import opened GitTrees
  import opened MigrationHead
  import opened ReleaseManifest
  import opened ManifestStability

  // ---- Release versions ----

  /** Three numerals with points between. */
  ghost predicate ThreeNumerals(s: string)
  {
    exists a, b, c :: Numeral(a) && Numeral(b) && Numeral(c) && s == a + "." + b + "." + c
  }

  predicate Alphanumeric(c: char)
  {
    '0' <= c <= '9' || 'A' <= c <= 'Z' || 'a' <= c <= 'z'
  }

  /** A letter or digit, and then letters, digits, points and hyphens. */
  predicate Label(s: string)
  {
    s != "" && Alphanumeric(s[0]) && forall i :: 0 < i < |s| ==> Alphanumeric(s[i]) || s[i] == '.' || s[i] == '-'
  }

  /** Three numerals, or these with a hyphen and a label. */
  ghost predicate ReleaseText(version: string)
  {
    || ThreeNumerals(version)
    || exists numbers, suffix :: ThreeNumerals(numbers) && Label(suffix) && version == numbers + "-" + suffix
  }

  lemma NumeralHas(s: string, c: char)
    requires Numeral(s) && !IsDigit(c)
    ensures c !in s
  {
  }

  lemma ThreeNumeralsSplit(s: string)
    ensures ThreeNumerals(s) <==> var numbers := Split(s, '.'); |numbers| == 3 && forall n | n in numbers :: Numeral(n)
    ensures ThreeNumerals(s) ==> '-' !in s
  {
    var numbers := Split(s, '.');
    JoinSplit(s, '.');
    if |numbers| == 3 && forall n | n in numbers :: Numeral(n) {
      assert numbers == [numbers[0], numbers[1], numbers[2]];
      JoinedThree(numbers[0], numbers[1], numbers[2]);
      assert Numeral(numbers[0]) && Numeral(numbers[1]) && Numeral(numbers[2]);
    }
    if a, b, c :| Numeral(a) && Numeral(b) && Numeral(c) && s == a + "." + b + "." + c {
      NumeralHas(a, '.');
      NumeralHas(b, '.');
      NumeralHas(c, '.');
      JoinedThree(a, b, c);
      SplitOfJoin([a, b, c], '.');
    }
  }

  lemma JoinedThree(a: string, b: string, c: string)
    ensures Join([a, b, c], '.') == a + "." + b + "." + c
  {
    assert [a, b, c][1..] == [b, c] && [b, c][1..] == [c] && ['.'] == ".";
    assert Join([b, c], '.') == b + "." + c;
    assert Join([a, b, c], '.') == a + "." + (b + "." + c);
  }

  lemma LabelIs(s: string)
    ensures Label(s) <==> s != "" && s[0] != '.' && s[0] != '-' && forall c | c in s :: LabelChar(c)
  {
    if s != "" && s[0] != '.' && s[0] != '-' && forall c | c in s :: LabelChar(c) {
      forall i | 0 <= i < |s| ensures LabelChar(s[i]) { assert s[i] in s; }
    }
  }

  lemma JoinRest(parts: seq<string>)
    requires |parts| > 1
    ensures Join(parts, '-') == parts[0] + "-" + Join(parts[1..], '-')
  {
  }

  /** A version is a release exactly when it reads so. */
  lemma IsReleaseIff(version: string)
    ensures IsRelease(version) <==> ReleaseText(version)
  {
    var parts := Split(version, '-');
    JoinSplit(version, '-');
    ThreeNumeralsSplit(parts[0]);
    if |parts| > 1 {
      JoinRest(parts);
      LabelIs(Join(parts[1..], '-'));
    } else {
      assert version == parts[0];
    }
    if ThreeNumerals(version) {
      ThreeNumeralsSplit(version);
      SplitFirst(version, "", '-');
    }
    if numbers, suffix :| ThreeNumerals(numbers) && Label(suffix) && version == numbers + "-" + suffix {
      LabelledIsRelease(numbers, suffix);
    }
  }

  lemma LabelledIsRelease(numbers: string, suffix: string)
    requires ThreeNumerals(numbers) && Label(suffix)
    ensures IsRelease(numbers + "-" + suffix)
  {
    ThreeNumeralsSplit(numbers);
    SplitFirst(numbers, suffix, '-');
    JoinSplit(suffix, '-');
    LabelIs(suffix);
    assert ([numbers] + Split(suffix, '-'))[1..] == Split(suffix, '-');
  }

  // ---- Selected commits ----

  /** The commit the document declares for a component, if it declares one. */
  function Declared(doc: Document, key: string): string
  {
    var commit := Get(Under(Under(doc, "components"), key), "commit");
    if commit.Str? then commit.text else ""
  }

  /** A full commit names itself; anything else is looked up. */
  predicate ResolvesTo(repo: Repo, ref: string, commit: string)
  {
    && commit in repo.commits && IsHex40(commit)
    && if IsHex40(ref) then commit == ref else ref in repo.refs && repo.refs[ref] == commit
  }

  /** The repository is the expected one, and clean if that was asked for. */
  predicate FromRepository(repos: Repos, spec: (string, string), clean: bool)
  {
    spec.0 in repos && repos[spec.0].origin == Some(spec.1) && (clean ==> repos[spec.0].clean)
  }

  function RefOf(refs: map<string, string>, key: string): string
  {
    if key in refs then refs[key] else "HEAD"
  }

  ghost predicate Chosen(repos: Repos, refs: map<string, string>, clean: bool, spec: (string, string), commit: string)
  {
    FromRepository(repos, spec, clean) && ResolvesTo(repos[spec.0], RefOf(refs, spec.0), commit)
  }

  lemma {:induction false} ResolvedAreChosen(specs: seq<(string, string)>, repos: Repos, refs: map<string, string>,
                                             clean: bool)
    requires ResolveAll(specs, repos, refs, clean).Ok? && DistinctKeys(specs)
    ensures var resolved := ResolveAll(specs, repos, refs, clean).value;
      forall s :: s in specs ==> s.0 in resolved && Chosen(repos, refs, clean, s, resolved[s.0])
    decreases |specs|
  {
    if specs != [] {
      ResolvedAreChosen(specs[1..], repos, refs, clean);
      var rest := ResolveAll(specs[1..], repos, refs, clean).value;
      var resolved := ResolveAll(specs, repos, refs, clean).value;
      assert Chosen(repos, refs, clean, specs[0], resolved[specs[0].0]);
      forall i | 0 <= i < |specs|
        ensures specs[i].0 in resolved && Chosen(repos, refs, clean, specs[i], resolved[specs[i].0])
      {
        if i > 0 { assert specs[1..][i - 1] == specs[i] && specs[i].0 != specs[0].0; }
      }
    }
  }

  // ---- Tables ----

  // A table extended by the record of the first key, when every record is to satisfy a condition.
  lemma TableMore(rest: Document, specs: seq<(string, string)>, record: Json,
                  holds: ((string, string), Document) -> bool)
    requires specs != [] && DistinctKeys(specs) && record.Obj? && holds(specs[0], record.members)
    requires forall s :: s in specs[1..] ==> holds(s, Under(rest, s.0))
    ensures forall s :: s in specs ==> holds(s, Under(rest[specs[0].0 := record], s.0))
  {
    var all := rest[specs[0].0 := record];
    forall i | 0 <= i < |specs| ensures holds(specs[i], Under(all, specs[i].0)) {
      if i > 0 {
        assert specs[1..][i - 1] == specs[i] && specs[i].0 != specs[0].0;
        assert Under(all, specs[i].0) == Under(rest, specs[i].0);
      }
    }
  }

  // ---- Records of tracked files ----

  /** The record of a tracked file of a commit. */
  ghost predicate Records(H: Hash, record: Document, path: string, id: string, tree: Tree)
  {
    && Get(record, "path") == Str(path) && Show(id, tree, path).Some?
    && Get(record, "sha256") == Str(H(Show(id, tree, path).value))
    && Get(record, "size_bytes") == Int(|Show(id, tree, path).value|)
  }

  lemma FileRecordRecords(H: Hash, path: string, id: string, tree: Tree)
    requires Show(id, tree, path).Some?
    ensures Records(H, FileRecord(H, path, Show(id, tree, path).value), path, id, tree)
  {
  }

  ghost predicate ProvenanceMeans(H: Hash, record: Document, id: string, tree: Tree, files: seq<(string, string)>)
  {
    forall f :: f in files ==> Records(H, Under(record, f.0), f.1, id, tree)
  }

  lemma {:induction false} ProvenanceRecords(H: Hash, files: seq<(string, string)>, id: string, tree: Tree)
    requires ProvenanceRecord(H, files, id, tree).Ok? && DistinctKeys(files)
    ensures ProvenanceMeans(H, ProvenanceRecord(H, files, id, tree).value, id, tree, files)
    decreases |files|
  {
    if files != [] {
      ProvenanceRecords(H, files[1..], id, tree);
      FileRecordRecords(H, files[0].1, id, tree);
      TableMore(ProvenanceRecord(H, files[1..], id, tree).value, files,
                ProvenanceRecord(H, files, id, tree).value[files[0].0],
                (f: (string, string), record) => Records(H, record, f.1, id, tree));
    }
  }

  // ---- Components ----

  /** The record of a component: its repository, commit and date, its project file and its lock. */
  ghost predicate ComponentMeans(H: Hash, R: Readers, record: Document, repository: string, id: string, commit: Commit)
  {
    && Get(record, "repository") == Str(repository) && Get(record, "commit") == Str(id)
    && Get(record, "commit_timestamp") == Str(commit.date) && commit.date != ""
    && Records(H, Under(record, "lockfile"), "uv.lock", id, commit.tree)
    && Show(id, commit.tree, "pyproject.toml").Some?
    && R.project(Show(id, commit.tree, "pyproject.toml").value).Ok?
    && ProjectMeans(record, R.project(Show(id, commit.tree, "pyproject.toml").value).value)
  }

  predicate ProjectMeans(record: Document, project: Project)
  {
    && Get(record, "project_name") == Str(project.name) && Get(record, "project_version") == Str(project.version)
    && Get(record, "requires_python") == Str(project.requiresPython)
    && Get(Under(record, "integration_dependencies"), "a2a_otel_kit")
       == (if project.otelKit.Some? then Str(project.otelKit.value) else Null)
  }

  lemma ComponentBodyMeans(H: Hash, repository: string, id: string, date: string, project: Project, lock: string)
    ensures var d := ComponentBody(H, repository, id, date, project, lock);
      && Get(d, "repository") == Str(repository) && Get(d, "commit") == Str(id)
      && Get(d, "commit_timestamp") == Str(date) && ProjectMeans(d, project)
      && Under(d, "lockfile") == FileRecord(H, "uv.lock", lock)
  {
  }

  lemma ComponentRecordMeans(H: Hash, R: Readers, repository: string, id: string, commit: Commit)
    requires ComponentRecord(H, R, repository, id, commit).Ok?
    ensures ComponentMeans(H, R, ComponentRecord(H, R, repository, id, commit).value, repository, id, commit)
  {
    var project := R.project(TrackedFile(id, commit.tree, "pyproject.toml").value).value;
    var lock := TrackedFile(id, commit.tree, "uv.lock").value;
    ComponentBodyMeans(H, repository, id, commit.date, project, lock);
    FileRecordRecords(H, "uv.lock", id, commit.tree);
  }

  ghost predicate SelectedMeans(H: Hash, R: Readers, repos: Repos, resolved: map<string, string>,
                                spec: (string, string), record: Document)
  {
    && Selected(repos, resolved, spec.0)
    && ComponentMeans(H, R, record, spec.1, resolved[spec.0], repos[spec.0].commits[resolved[spec.0]])
  }

  ghost predicate ComponentsMean(H: Hash, R: Readers, repos: Repos, components: Document, specs: seq<(string, string)>,
                                 resolved: map<string, string>)
  {
    forall s :: s in specs ==> SelectedMeans(H, R, repos, resolved, s, Under(components, s.0))
  }

  lemma {:induction false} ComponentRecordsMean(H: Hash, R: Readers, specs: seq<(string, string)>, repos: Repos,
                                                resolved: map<string, string>)
    requires Components(H, R, specs, repos, resolved).Ok? && DistinctKeys(specs)
    ensures ComponentsMean(H, R, repos, Components(H, R, specs, repos, resolved).value, specs, resolved)
    decreases |specs|
  {
    if specs != [] {
      var key := specs[0].0;
      ComponentRecordsMean(H, R, specs[1..], repos, resolved);
      ComponentRecordMeans(H, R, specs[0].1, resolved[key], repos[key].commits[resolved[key]]);
      TableMore(Components(H, R, specs[1..], repos, resolved).value, specs,
                Components(H, R, specs, repos, resolved).value[key],
                (s: (string, string), record) => SelectedMeans(H, R, repos, resolved, s, record));
    }
  }

  // ---- Evidence ----

  /** A text field is copied, anything else reads as null. */
  predicate CopiesText(record: Document, payload: Document, key: string)
  {
    Get(record, key) == if Get(payload, key).Str? then Get(payload, key) else Null
  }

  /** The record of a report: its file, schema version and result, and of its baselines the four
      known texts. */
  ghost predicate ReportMeans(H: Hash, R: Readers, record: Document, path: string, id: string, tree: Tree)
  {
    && Records(H, record, path, id, tree)
    && R.report(Show(id, tree, path).value).Ok?
    && var payload := R.report(Show(id, tree, path).value).value;
       && CopiesText(record, payload, "schema_version") && CopiesText(record, payload, "result")
       && (forall k :: k in Under(record, "baselines") <==> k in BASELINES && Get(Under(payload, "baselines"), k).Str?)
       && (forall k :: k in Under(record, "baselines") ==> CopiesText(Under(record, "baselines"),
                                                                      Under(payload, "baselines"), k))
  }

  lemma EvidenceRecordMeans(H: Hash, R: Readers, path: string, id: string, tree: Tree)
    requires Show(id, tree, path).Some? && R.report(Show(id, tree, path).value).Ok?
    ensures ReportMeans(H, R, EvidenceRecord(H, path, Show(id, tree, path).value,
                                             R.report(Show(id, tree, path).value).value), path, id, tree)
  {
    var raw, payload := Show(id, tree, path).value, R.report(Show(id, tree, path).value).value;
    FileRecordRecords(H, path, id, tree);
    EvidenceFields(H, path, raw, payload);
    SafeBaselinesMean(payload);
  }

  lemma SafeBaselinesMean(payload: Document)
    ensures var safe, all := SafeBaselines(payload), Under(payload, "baselines");
      && (forall k :: k in safe <==> k in BASELINES && Get(all, k).Str?)
      && (forall k :: k in safe ==> safe[k] == Get(all, k))
  {
  }

  lemma EvidenceFields(H: Hash, path: string, raw: string, payload: Document)
    ensures var record, file := EvidenceRecord(H, path, raw, payload), FileRecord(H, path, raw);
      && Get(record, "path") == Get(file, "path") && Get(record, "sha256") == Get(file, "sha256")
      && Get(record, "size_bytes") == Get(file, "size_bytes")
      && CopiesText(record, payload, "schema_version") && CopiesText(record, payload, "result")
      && Under(record, "baselines") == SafeBaselines(payload)
  {
    assert |"path"| == 4 && |"sha256"| == 6 && |"size_bytes"| == 10 && |"schema_version"| == 14;
    assert |"result"| == 6 && |"baselines"| == 9 && "sha256"[0] == 's' && "result"[0] == 'r';
  }

  ghost predicate ReportsMean(H: Hash, R: Readers, evidence: Document, files: seq<(string, string)>, id: string,
                              tree: Tree)
  {
    forall f :: f in files ==> ReportMeans(H, R, Under(evidence, f.0), f.1, id, tree)
  }

  lemma {:induction false} EvidenceRecordsMean(H: Hash, R: Readers, files: seq<(string, string)>, id: string,
                                               tree: Tree)
    requires EvidenceRecords(H, R, files, id, tree).Ok? && DistinctKeys(files)
    ensures ReportsMean(H, R, EvidenceRecords(H, R, files, id, tree).value, files, id, tree)
    decreases |files|
  {
    if files != [] {
      EvidenceRecordsMean(H, R, files[1..], id, tree);
      EvidenceRecordMeans(H, R, files[0].1, id, tree);
      TableMore(EvidenceRecords(H, R, files[1..], id, tree).value, files,
                EvidenceRecords(H, R, files, id, tree).value[files[0].0],
                (f: (string, string), record) => ReportMeans(H, R, record, f.1, id, tree));
    }
  }

  // ---- The database ----

  /** The head, its file and the number of migrations, from the migrations of the tree. */
  ghost predicate DatabaseMeans(H: Hash, R: Readers, record: Document, id: string, tree: Tree)
  {
    && ReadMigrations(R, id, tree, MigrationNames(tree)).Ok?
    && var files := ReadMigrations(R, id, tree, MigrationNames(tree)).value;
       && Consistent(files) && Get(record, "migration_count") == Int(|files|)
       && exists m :: m in files
            && Get(record, "alembic_head") == Str(Name(m)) && Get(record, "head_file") == Str(m.path)
            && Get(record, "head_file_sha256") == Str(H(m.raw))
            && Heads(GraphOf(files)) == {Name(m)}
  }

  lemma DatabaseRecordMeans(H: Hash, R: Readers, id: string, tree: Tree)
    requires DatabaseRecord(H, R, id, tree).Ok?
    ensures DatabaseMeans(H, R, DatabaseRecord(H, R, id, tree).value, id, tree)
  {
    var files := ReadMigrations(R, id, tree, MigrationNames(tree)).value;
    var record := RecordOf(H, files).value;
    HeadFields(record);
    var i :| 0 <= i < |files| && files[i].revision == Ok(Some(record.head)) && files[i].path == record.headFile
      && H(files[i].raw) == record.headSha;
    assert files[i] in files && Name(files[i]) == record.head;
  }

  lemma HeadFields(record: Record)
    ensures var d := HeadDocument(record);
      && Get(d, "alembic_head") == Str(record.head) && Get(d, "migration_count") == Int(record.count)
      && Get(d, "head_file") == Str(record.headFile) && Get(d, "head_file_sha256") == Str(record.headSha)
  {
  }

  // ---- Compatibility ----

  /** The names the evidence commit changed against its one parent. */
  ghost predicate Changed(repo: Repo, evidence: string, names: seq<string>)
  {
    && evidence in repo.commits && |repo.commits[evidence].parents| == 1
    && repo.commits[evidence].parents[0] in repo.commits && names != []
    && names == ChangedNames(repo.commits[repo.commits[evidence].parents[0]].tree, repo.commits[evidence].tree)
  }

  /** The selection shows the same under every name the evidence commit changed. */
  ghost predicate Preserved(repo: Repo, evidence: string, selected: string)
  {
    exists names :: Changed(repo, evidence, names) && selected in repo.commits
      && Preserves(names, evidence, repo.commits[evidence].tree, selected, repo.commits[selected].tree)
  }

  /** How the record says the selected commit stands to the evidence commit, and that it does. */
  ghost predicate Relates(record: Document, repo: Repo, evidence: string, selected: string)
  {
    && (Get(record, "relation") == Str("exact") <==> evidence == selected)
    && (Get(record, "relation") == Str("descendant") <==>
          evidence != selected && Ancestor(repo.commits, evidence, selected))
    && (Get(record, "relation") == Str("squash_equivalent") <==>
          evidence != selected && !Ancestor(repo.commits, evidence, selected))
    && (Get(record, "relation") == Str("squash_equivalent") ==> Preserved(repo, evidence, selected))
    && (evidence != selected ==> evidence in repo.commits && selected in repo.commits)
  }

  /** What a squash record counts and digests: every changed name with its bytes, or null. */
  ghost predicate Attests(H: Hash, record: Document, repo: Repo, evidence: string)
  {
    Get(record, "relation") == Str("squash_equivalent") ==>
      exists names :: Changed(repo, evidence, names)
        && Get(record, "attested_path_count") == Int(|names|)
        && Get(record, "attested_paths_digest")
           == Str(H(Print(Arr(Attested(H, names, evidence, repo.commits[evidence].tree)), false)))
  }

  lemma RelationTexts()
    ensures "exact" != "descendant" && "exact" != "squash_equivalent" && "descendant" != "squash_equivalent"
  {
    assert |"exact"| == 5 && |"descendant"| == 10 && |"squash_equivalent"| == 17;
  }

  lemma SquashMeans(H: Hash, repo: Repo, evidence: string, selected: string, record: Document)
    requires SquashOf(H, repo, evidence, selected) == Ok(Some(record))
    ensures Preserved(repo, evidence, selected) && Get(record, "relation") == Str("squash_equivalent")
    ensures Attests(H, record, repo, evidence)
  {
    var names := CommitChangedPaths(repo, evidence).value;
    assert Changed(repo, evidence, names);
    SquashFields(H, Attested(H, names, evidence, repo.commits[evidence].tree));
  }

  lemma RelationMeans(H: Hash, repo: Repo, evidence: string, selected: string)
    requires CompatibilityRelation(H, repo, evidence, selected).Ok?
    ensures var record := CompatibilityRelation(H, repo, evidence, selected).value;
      Relates(record, repo, evidence, selected) && Attests(H, record, repo, evidence)
  {
    RelationTexts();
    if evidence != selected && !Ancestor(repo.commits, evidence, selected) {
      SquashMeans(H, repo, evidence, selected, CompatibilityRelation(H, repo, evidence, selected).value);
    }
  }

  lemma SquashFields(H: Hash, items: seq<Json>)
    ensures var record := SquashRecord(H, items);
      && Get(record, "relation") == Str("squash_equivalent") && Get(record, "attested_path_count") == Int(|items|)
      && Get(record, "attested_paths_digest") == Str(H(Print(Arr(items), false)))
  {
    assert |"relation"| == 8 && |"attested_path_count"| == 19 && |"attested_paths_digest"| == 21;
  }

  /** The record of one repository: the two commits, and how they are related. */
  ghost predicate RecordRelates(H: Hash, record: Document, repo: Repo, evidence: string, selected: string)
  {
    && Get(record, "evidence_commit") == Str(evidence) && Get(record, "selected_commit") == Str(selected)
    && Relates(record, repo, evidence, selected) && Attests(H, record, repo, evidence)
  }

  // Merging in the relation changes no key that does not belong to it.
  lemma MergedBase(base: Document, relation: Document)
    requires forall k :: k in base ==> k !in relation
    ensures forall k :: k in base ==> Get(base + relation, k) == base[k]
    ensures forall k :: k !in base ==> Get(base + relation, k) == Get(relation, k)
  {
  }

  // The keys of the evidence, and of the selected commit.
  ghost predicate EvidenceKeys(base: Document)
  {
    forall k :: k in base ==> k != "" && (k[0] == 'e' || k == "selected_commit")
  }

  lemma RelationDisjoint(H: Hash, repo: Repo, evidence: string, selected: string, base: Document)
    requires CompatibilityRelation(H, repo, evidence, selected).Ok? && EvidenceKeys(base)
    ensures forall k :: k in base ==> k !in CompatibilityRelation(H, repo, evidence, selected).value
  {
    RelationHasRelationKeys(H, repo, evidence, selected);
    var items := RelationForms(H, repo, evidence, selected);
    assert "selected_commit"[0] == 's' && "relation"[0] == 'r';
    assert "attested_path_count"[0] == 'a' && "attested_paths_digest"[0] == 'a';
    assert "selected_commit" !in SquashRecord(H, items);
  }

  lemma NoEvidenceKeys(base: Document)
    requires EvidenceKeys(base)
    ensures "relation" !in base && "attested_path_count" !in base && "attested_paths_digest" !in base
  {
    assert "relation"[0] == 'r' && "attested_path_count"[0] == 'a' && "attested_paths_digest"[0] == 'a';
    assert "selected_commit"[0] == 's';
  }

  lemma SameRelation(H: Hash, a: Document, b: Document, repo: Repo, evidence: string, selected: string)
    requires Relates(a, repo, evidence, selected) && Attests(H, a, repo, evidence)
    requires Get(b, "relation") == Get(a, "relation")
    requires Get(b, "attested_path_count") == Get(a, "attested_path_count")
    requires Get(b, "attested_paths_digest") == Get(a, "attested_paths_digest")
    ensures Relates(b, repo, evidence, selected) && Attests(H, b, repo, evidence)
  {
  }

  lemma MergedRelates(H: Hash, base: Document, repo: Repo, evidence: string, selected: string)
    requires CompatibilityRelation(H, repo, evidence, selected).Ok? && EvidenceKeys(base)
    ensures var merged := base + CompatibilityRelation(H, repo, evidence, selected).value;
      && Relates(merged, repo, evidence, selected) && Attests(H, merged, repo, evidence)
      && forall k :: k in base ==> Get(merged, k) == base[k]
  {
    var relation := CompatibilityRelation(H, repo, evidence, selected).value;
    RelationMeans(H, repo, evidence, selected);
    RelationDisjoint(H, repo, evidence, selected, base);
    MergedBase(base, relation);
    NoEvidenceKeys(base);
    SameRelation(H, relation, base + relation, repo, evidence, selected);
  }

  function PairOfCommits(evidence: string, selected: string): Document
  {
    map["evidence_commit" := Str(evidence), "selected_commit" := Str(selected)]
  }

  lemma PairFields(evidence: string, selected: string)
    ensures var d := PairOfCommits(evidence, selected);
      && "evidence_commit" in d && "selected_commit" in d && d["evidence_commit"] == Str(evidence)
      && d["selected_commit"] == Str(selected) && EvidenceKeys(d)
  {
    assert "evidence_commit"[0] == 'e' && "selected_commit"[0] == 's';
  }

  lemma RelatedMeans(H: Hash, repos: Repos, resolved: map<string, string>, key: string, evidence: string)
    requires Related(H, repos, resolved, key, evidence).Ok?
    ensures Selected(repos, resolved, key)
    ensures RecordRelates(H, Related(H, repos, resolved, key, evidence).value, repos[key], evidence, resolved[key])
  {
    PairFields(evidence, resolved[key]);
    MergedRelates(H, PairOfCommits(evidence, resolved[key]), repos[key], evidence, resolved[key]);
  }

  /** The record of the telemetry kit: the tag of the runtime version and where it points. */
  ghost predicate TagRelates(H: Hash, record: Document, repo: Repo, version: string, tagged: string, selected: string)
  {
    && Get(record, "evidence_runtime_version") == Str(version) && Get(record, "evidence_tag") == Str("v" + version)
    && Get(record, "evidence_tag_commit") == Str(tagged) && ResolvesTo(repo, "v" + version, tagged)
    && Get(record, "selected_commit") == Str(selected)
    && Relates(record, repo, tagged, selected) && Attests(H, record, repo, tagged)
  }

  lemma TagFields(version: string, tagged: string, selected: string)
    ensures var d := TagBody(version, tagged, selected);
      && d.Keys == {"evidence_runtime_version", "evidence_tag", "evidence_tag_commit", "selected_commit"}
      && d["evidence_runtime_version"] == Str(version) && d["evidence_tag"] == Str("v" + version)
      && d["evidence_tag_commit"] == Str(tagged) && d["selected_commit"] == Str(selected) && EvidenceKeys(d)
  {
    assert "evidence_runtime_version"[0] == 'e' && "evidence_tag"[0] == 'e' && "evidence_tag_commit"[0] == 'e';
    assert "selected_commit"[0] == 's' && |"evidence_runtime_version"| == 24 && |"evidence_tag"| == 12;
    assert |"evidence_tag_commit"| == 19 && |"selected_commit"| == 15;
  }

  lemma ResolvedTo(repo: Repo, ref: string)
    requires Resolve(repo, ref).Ok?
    ensures ResolvesTo(repo, ref, Resolve(repo, ref).value)
  {
  }

  lemma RelatedByTagMeans(H: Hash, repos: Repos, resolved: map<string, string>, version: string)
    returns (tagged: string)
    requires RelatedByTag(H, repos, resolved, version).Ok?
    ensures Selected(repos, resolved, OTEL_KIT)
    ensures TagRelates(H, RelatedByTag(H, repos, resolved, version).value, repos[OTEL_KIT], version, tagged,
                       resolved[OTEL_KIT])
  {
    var repo, selected := repos[OTEL_KIT], resolved[OTEL_KIT];
    tagged := Resolve(repo, "v" + version).value;
    ResolvedTo(repo, "v" + version);
    TagFields(version, tagged, selected);
    MergedRelates(H, TagBody(version, tagged, selected), repo, tagged, selected);
  }

  function TextAt(doc: Document, key: string): string
  {
    if Get(doc, key).Str? then Get(doc, key).text else ""
  }

  /** The compatibility section, against the baselines of the P1.9 report. */
  ghost predicate CompatibilityMeans(H: Hash, repos: Repos, resolved: map<string, string>, compatibility: Document,
                                     baselines: Document, tagged: string)
  {
    && Selected(repos, resolved, GOVERNANCE) && Selected(repos, resolved, CREDIT_DESK)
    && Selected(repos, resolved, OTEL_KIT) && ROUTER in resolved
    && IsHex40(TextAt(baselines, "governance_head")) && IsHex40(TextAt(baselines, "credit_desk_head"))
    && TextAt(baselines, "a2a_otel_kit_runtime_version") != ""
    && RecordRelates(H, Under(compatibility, GOVERNANCE), repos[GOVERNANCE], TextAt(baselines, "governance_head"),
                     resolved[GOVERNANCE])
    && RecordRelates(H, Under(compatibility, CREDIT_DESK), repos[CREDIT_DESK], TextAt(baselines, "credit_desk_head"),
                     resolved[CREDIT_DESK])
    && TagRelates(H, Under(compatibility, OTEL_KIT), repos[OTEL_KIT],
                  TextAt(baselines, "a2a_otel_kit_runtime_version"), tagged, resolved[OTEL_KIT])
    && Get(Under(compatibility, ROUTER), "selected_commit") == Str(resolved[ROUTER])
    && Get(Under(compatibility, ROUTER), "evidence_binding") == Str("not_attested_by_p1_9_report")
    && Get(compatibility, "latest_runtime_evidence") == Str(P1_9)
  }

  lemma CompatibilityFields(governance: Document, desk: Document, kit: Document, router: string)
    ensures var d := CompatibilityBody(governance, desk, kit, router);
      && Under(d, GOVERNANCE) == governance && Under(d, CREDIT_DESK) == desk && Under(d, OTEL_KIT) == kit
      && Get(Under(d, ROUTER), "selected_commit") == Str(router)
      && Get(Under(d, ROUTER), "evidence_binding") == Str("not_attested_by_p1_9_report")
      && Get(d, "latest_runtime_evidence") == Str(P1_9)
  {
    assert |OTEL_KIT| == 12 && |"latest_runtime_evidence"| == 23 && |"limitation"| == 10;
    assert |GOVERNANCE| == 10 && |CREDIT_DESK| == 23 && |ROUTER| == 19;
    assert GOVERNANCE[0] == 'g' && "limitation"[0] == 'l' && CREDIT_DESK[0] == 'm';
    assert |"selected_commit"| == 15 && |"evidence_binding"| == 16;
  }

  lemma CompatibilityParts(H: Hash, repos: Repos, resolved: map<string, string>, evidence: Document)
    requires CompatibilityRecord(H, repos, resolved, evidence).Ok?
    ensures var baselines := Under(Under(evidence, P1_9), "baselines");
      var g := Related(H, repos, resolved, GOVERNANCE, TextAt(baselines, "governance_head"));
      var c := Related(H, repos, resolved, CREDIT_DESK, TextAt(baselines, "credit_desk_head"));
      var kit := RelatedByTag(H, repos, resolved, TextAt(baselines, "a2a_otel_kit_runtime_version"));
      && IsHex40(TextAt(baselines, "governance_head")) && IsHex40(TextAt(baselines, "credit_desk_head"))
      && TextAt(baselines, "a2a_otel_kit_runtime_version") != ""
      && g.Ok? && c.Ok? && kit.Ok? && ROUTER in resolved
      && CompatibilityRecord(H, repos, resolved, evidence)
         == Ok(CompatibilityBody(g.value, c.value, kit.value, resolved[ROUTER]))
  {
  }

  lemma CompatibilityRecordMeans(H: Hash, repos: Repos, resolved: map<string, string>, evidence: Document)
    returns (tagged: string)
    requires CompatibilityRecord(H, repos, resolved, evidence).Ok?
    ensures CompatibilityMeans(H, repos, resolved, CompatibilityRecord(H, repos, resolved, evidence).value,
                               Under(Under(evidence, P1_9), "baselines"), tagged)
  {
    var baselines := Under(Under(evidence, P1_9), "baselines");
    CompatibilityParts(H, repos, resolved, evidence);
    var g, c := TextAt(baselines, "governance_head"), TextAt(baselines, "credit_desk_head");
    var version := TextAt(baselines, "a2a_otel_kit_runtime_version");
    RelatedMeans(H, repos, resolved, GOVERNANCE, g);
    RelatedMeans(H, repos, resolved, CREDIT_DESK, c);
    tagged := RelatedByTagMeans(H, repos, resolved, version);
    CompatibilityFields(Related(H, repos, resolved, GOVERNANCE, g).value,
                        Related(H, repos, resolved, CREDIT_DESK, c).value,
                        RelatedByTag(H, repos, resolved, version).value, resolved[ROUTER]);
  }

  // ---- The whole manifest ----

  /** Every section of the manifest, from the commits selected in the four repositories. */
  ghost predicate ManifestMeans(H: Hash, R: Readers, repos: Repos, doc: Document, version: string,
                                resolved: map<string, string>, tagged: string)
  {
    && ComponentsMean(H, R, repos, Under(doc, "components"), COMPONENTS, resolved)
    && Selected(repos, resolved, GOVERNANCE)
    && var id, commit := resolved[GOVERNANCE], repos[GOVERNANCE].commits[resolved[GOVERNANCE]];
       && Get(Under(doc, "release"), "version") == Str(version) && IsRelease(version)
       && Get(Under(doc, "release"), "source_date") == Str(commit.date)
       && ProvenanceMeans(H, Under(doc, "governance_provenance"), id, commit.tree, PROVENANCE_FILES)
       && ReportsMean(H, R, Under(doc, "evidence"), EVIDENCE_FILES, id, commit.tree)
       && DatabaseMeans(H, R, Under(doc, "database"), id, commit.tree)
       && CompatibilityMeans(H, repos, resolved, Under(doc, "compatibility"),
                             Under(Under(Under(doc, "evidence"), P1_9), "baselines"), tagged)
  }

  lemma BodyFields(version: string, s: Sections)
    ensures Holds(Body(version, s), version, s)
  {
    assert |"version"| == 7 && |"source_date"| == 11;
  }

  lemma SealedFields(H: Hash, version: string, s: Sections)
    ensures var d, body := Seal(H, Body(version, s), "manifest_digest"), Body(version, s);
      && Under(d, "components") == Under(body, "components")
      && Under(d, "governance_provenance") == Under(body, "governance_provenance")
      && Under(d, "database") == Under(body, "database") && Under(d, "evidence") == Under(body, "evidence")
      && Under(d, "compatibility") == Under(body, "compatibility") && Under(d, "release") == Under(body, "release")
  {
    assert |"manifest_digest"| == 15 && |"components"| == 10 && |"governance_provenance"| == 21;
    assert |"database"| == 8 && |"evidence"| == 8 && |"compatibility"| == 13 && |"release"| == 7;
  }

  lemma FileKeysDistinct()
    ensures DistinctKeys(PROVENANCE_FILES) && DistinctKeys(EVIDENCE_FILES)
  {
    assert |"policy_engine"| == 13 && |"control_catalog"| == 15 && |"control_crosswalk"| == 17;
    assert |"p1_7_runtime_telemetry"| == 22 && |"p1_8_runtime_assurance"| == 22 && |P1_9| == 23;
    assert "p1_7_runtime_telemetry"[3] == '7' && "p1_8_runtime_assurance"[3] == '8';
  }

  lemma CommittedMeans(H: Hash, R: Readers, id: string, commit: Commit)
    requires CommittedRecords(H, R, id, commit).Ok?
    ensures CommitMeans(H, R, CommittedRecords(H, R, id, commit).value, id, commit)
  {
    FileKeysDistinct();
    ProvenanceRecords(H, PROVENANCE_FILES, id, commit.tree);
    EvidenceRecordsMean(H, R, EVIDENCE_FILES, id, commit.tree);
    DatabaseRecordMeans(H, R, id, commit.tree);
  }

  /** The same, of the sections before they are put in one document. */
  ghost predicate SectionsMean(H: Hash, R: Readers, repos: Repos, s: Sections, resolved: map<string, string>,
                               tagged: string)
  {
    && ComponentsMean(H, R, repos, s.components, COMPONENTS, resolved)
    && Selected(repos, resolved, GOVERNANCE)
    && CommitMeans(H, R, s.committed, resolved[GOVERNANCE], repos[GOVERNANCE].commits[resolved[GOVERNANCE]])
    && CompatibilityMeans(H, repos, resolved, s.compatibility, Under(Under(s.committed.evidence, P1_9), "baselines"),
                          tagged)
  }

  ghost predicate CommitMeans(H: Hash, R: Readers, c: Committed, id: string, commit: Commit)
  {
    && c.date == commit.date && ProvenanceMeans(H, c.provenance, id, commit.tree, PROVENANCE_FILES)
    && ReportsMean(H, R, c.evidence, EVIDENCE_FILES, id, commit.tree)
    && DatabaseMeans(H, R, c.database, id, commit.tree)
  }

  lemma DerivedParts(H: Hash, R: Readers, repos: Repos, resolved: map<string, string>, s: Sections)
    requires Derive(H, R, repos, resolved) == Ok(s)
    ensures Components(H, R, COMPONENTS, repos, resolved) == Ok(s.components) && Selected(repos, resolved, GOVERNANCE)
    ensures CommittedRecords(H, R, resolved[GOVERNANCE], repos[GOVERNANCE].commits[resolved[GOVERNANCE]])
         == Ok(s.committed)
    ensures CompatibilityRecord(H, repos, resolved, s.committed.evidence) == Ok(s.compatibility)
  {
  }

  lemma DerivedMeans(H: Hash, R: Readers, repos: Repos, resolved: map<string, string>, s: Sections)
    returns (tagged: string)
    requires Derive(H, R, repos, resolved) == Ok(s)
    ensures SectionsMean(H, R, repos, s, resolved, tagged)
  {
    DerivedParts(H, R, repos, resolved, s);
    ComponentKeysDistinct();
    ComponentRecordsMean(H, R, COMPONENTS, repos, resolved);
    CommittedMeans(H, R, resolved[GOVERNANCE], repos[GOVERNANCE].commits[resolved[GOVERNANCE]]);
    tagged := CompatibilityRecordMeans(H, repos, resolved, s.committed.evidence);
  }

  /** The document holds these sections. */
  predicate Holds(doc: Document, version: string, s: Sections)
  {
    && Under(doc, "components") == s.components && Under(doc, "governance_provenance") == s.committed.provenance
    && Under(doc, "database") == s.committed.database && Under(doc, "evidence") == s.committed.evidence
    && Under(doc, "compatibility") == s.compatibility
    && Get(Under(doc, "release"), "version") == Str(version)
    && Get(Under(doc, "release"), "source_date") == Str(s.committed.date)
  }

  lemma SealedHolds(H: Hash, version: string, s: Sections)
    ensures Holds(Seal(H, Body(version, s), "manifest_digest"), version, s)
  {
    BodyFields(version, s);
    SealedFields(H, version, s);
  }

  lemma HoldingMeans(H: Hash, R: Readers, repos: Repos, doc: Document, version: string, s: Sections,
                     resolved: map<string, string>, tagged: string)
    requires Holds(doc, version, s) && SectionsMean(H, R, repos, s, resolved, tagged) && IsRelease(version)
    ensures ManifestMeans(H, R, repos, doc, version, resolved, tagged)
  {
  }

  ghost predicate AllChosen(repos: Repos, refs: map<string, string>, clean: bool, resolved: map<string, string>)
  {
    forall s :: s in COMPONENTS ==> s.0 in resolved && Chosen(repos, refs, clean, s, resolved[s.0])
  }

  lemma BuildParts(H: Hash, R: Readers, version: string, repos: Repos, refs: map<string, string>, clean: bool)
    returns (resolved: map<string, string>, s: Sections)
    requires Build(H, R, version, repos, refs, clean).Ok?
    ensures IsRelease(version) && ResolveAll(COMPONENTS, repos, refs, clean) == Ok(resolved)
    ensures Derive(H, R, repos, resolved) == Ok(s)
    ensures Build(H, R, version, repos, refs, clean) == Ok(Seal(H, Body(version, s), "manifest_digest"))
  {
    resolved := ResolveAll(COMPONENTS, repos, refs, clean).value;
    s := Derive(H, R, repos, resolved).value;
  }

  /** A built manifest: in each repository the commit its ref resolves to is selected, and every
      section says of these commits what it should. */
  lemma BuiltManifestMeans(H: Hash, R: Readers, version: string, repos: Repos, refs: map<string, string>, clean: bool)
    returns (resolved: map<string, string>, tagged: string)
    requires Build(H, R, version, repos, refs, clean).Ok?
    ensures AllChosen(repos, refs, clean, resolved)
    ensures ManifestMeans(H, R, repos, Build(H, R, version, repos, refs, clean).value, version, resolved, tagged)
  {
    var s: Sections;
    resolved, s := BuildParts(H, R, version, repos, refs, clean);
    ComponentKeysDistinct();
    ResolvedAreChosen(COMPONENTS, repos, refs, clean);
    tagged := DerivedMeans(H, R, repos, resolved, s);
    SealedHolds(H, version, s);
    HoldingMeans(H, R, repos, Seal(H, Body(version, s), "manifest_digest"), version, s, resolved, tagged);
  }

  lemma {:induction false} DeclaredAre(specs: seq<(string, string)>, repos: Repos, components: Document)
    requires DeclaredCommits(specs, repos, components).Ok? && DistinctKeys(specs)
    ensures var declared := DeclaredCommits(specs, repos, components).value;
      forall s :: s in specs ==> s.0 in declared && ComponentCommit(components, s.0) == Ok(declared[s.0])
    decreases |specs|
  {
    if specs != [] {
      DeclaredAre(specs[1..], repos, components);
      forall i | 0 <= i < |specs|
        ensures var declared := DeclaredCommits(specs, repos, components).value;
          specs[i].0 in declared && ComponentCommit(components, specs[i].0) == Ok(declared[specs[i].0])
      {
        if i > 0 { assert specs[1..][i - 1] == specs[i] && specs[i].0 != specs[0].0; }
      }
    }
  }

  lemma RederivedParts(H: Hash, R: Readers, doc: Document, repos: Repos)
    requires Rederived(H, R, doc, repos) == Ok(doc)
    ensures Get(doc, "components").Obj? && DeclaredVersion(doc).Ok?
    ensures var components := Get(doc, "components").members;
      && DeclaredCommits(COMPONENTS, repos, components).Ok?
      && Build(H, R, DeclaredVersion(doc).value, repos, DeclaredCommits(COMPONENTS, repos, components).value, false)
         == Ok(doc)
  {
  }

  lemma VersionText(doc: Document)
    requires DeclaredVersion(doc).Ok?
    ensures DeclaredVersion(doc) == Ok(TextAt(Under(doc, "release"), "version"))
  {
  }

  lemma VerifiedIsBuilt(H: Hash, R: Readers, doc: Document, repos: Repos) returns (declared: map<string, string>)
    requires Sha256Shaped(H) && WellFormed(Obj(doc)) && Verify(H, R, doc, repos).Ok?
    ensures Build(H, R, TextAt(Under(doc, "release"), "version"), repos, declared, false) == Ok(doc)
    ensures AllDeclared(doc, declared)
  {
    VerifiedIsRederived(H, R, doc, repos);
    RederivedParts(H, R, doc, repos);
    VersionText(doc);
    declared := DeclaredCommits(COMPONENTS, repos, Get(doc, "components").members).value;
    CommitsDeclared(doc, repos, declared);
  }

  ghost predicate AllDeclared(doc: Document, declared: map<string, string>)
  {
    forall s :: s in COMPONENTS ==> s.0 in declared && declared[s.0] == Declared(doc, s.0) && IsHex40(declared[s.0])
  }

  lemma CommitsDeclared(doc: Document, repos: Repos, declared: map<string, string>)
    requires Get(doc, "components").Obj?
    requires DeclaredCommits(COMPONENTS, repos, Get(doc, "components").members) == Ok(declared)
    ensures AllDeclared(doc, declared)
  {
    ComponentKeysDistinct();
    DeclaredAre(COMPONENTS, repos, Get(doc, "components").members);
    forall s | s in COMPONENTS ensures declared[s.0] == Declared(doc, s.0) && IsHex40(declared[s.0]) {
      DeclaredText(doc, s.0, declared[s.0]);
    }
  }

  lemma DeclaredText(doc: Document, key: string, commit: string)
    requires Get(doc, "components").Obj? && ComponentCommit(Get(doc, "components").members, key) == Ok(commit)
    ensures Declared(doc, key) == commit && IsHex40(commit)
  {
  }

  lemma FullCommitsChosen(repos: Repos, refs: map<string, string>, resolved: map<string, string>)
    requires AllChosen(repos, refs, false, resolved)
    requires forall s :: s in COMPONENTS ==> s.0 in refs && IsHex40(refs[s.0])
    ensures forall s :: s in COMPONENTS ==> resolved[s.0] == refs[s.0]
    ensures AllChosen(repos, resolved, false, resolved)
  {
    forall s | s in COMPONENTS ensures resolved[s.0] == refs[s.0] && Chosen(repos, resolved, false, s, resolved[s.0]) {
      assert Chosen(repos, refs, false, s, resolved[s.0]);
    }
  }

  /** A verified manifest means the same of the commits it declares. */
  lemma VerifiedManifestMeans(H: Hash, R: Readers, doc: Document, repos: Repos)
    returns (resolved: map<string, string>, tagged: string)
    requires Sha256Shaped(H) && WellFormed(Obj(doc)) && Verify(H, R, doc, repos).Ok?
    ensures forall s :: s in COMPONENTS ==> s.0 in resolved && resolved[s.0] == Declared(doc, s.0)
    ensures AllChosen(repos, resolved, false, resolved)
    ensures ManifestMeans(H, R, repos, doc, TextAt(Under(doc, "release"), "version"), resolved, tagged)
  {
    var declared := VerifiedIsBuilt(H, R, doc, repos);
    resolved, tagged := BuiltManifestMeans(H, R, TextAt(Under(doc, "release"), "version"), repos, declared, false);
    FullCommitsChosen(repos, declared, resolved);
  }

  lemma BuiltRelates(H: Hash, R: Readers, version: string, repos: Repos, refs: map<string, string>, clean: bool,
                     resolved: map<string, string>, key: string, evidence: string) returns (record: Document)
    requires Build(H, R, version, repos, refs, clean).Ok?
    requires AllChosen(repos, refs, clean, resolved) && (key == GOVERNANCE || key == CREDIT_DESK)
    requires ReportedHead(R, repos, resolved, key, evidence)
    ensures Relates(record, repos[key], evidence, resolved[key])
  {
    var built, tagged := BuiltManifestMeans(H, R, version, repos, refs, clean);
    SameHead(R, repos, refs, clean, resolved, built, key, evidence);
    record := ReportedIsRecorded(H, R, repos, Build(H, R, version, repos, refs, clean).value, version, built, tagged,
                                 key, evidence);
  }

  lemma SameSelection(repos: Repos, refs: map<string, string>, clean: bool, a: map<string, string>,
                      b: map<string, string>, i: nat)
    requires AllChosen(repos, refs, clean, a) && AllChosen(repos, refs, clean, b) && i < |COMPONENTS|
    ensures COMPONENTS[i].0 in a && COMPONENTS[i].0 in b && a[COMPONENTS[i].0] == b[COMPONENTS[i].0]
  {
    ChosenOnce(repos, refs, clean, a, b);
    assert COMPONENTS[i] in COMPONENTS;
  }

  lemma SameHead(R: Readers, repos: Repos, refs: map<string, string>, clean: bool, resolved: map<string, string>,
                 built: map<string, string>, key: string, evidence: string)
    requires AllChosen(repos, refs, clean, resolved) && AllChosen(repos, refs, clean, built)
    requires (key == GOVERNANCE || key == CREDIT_DESK) && ReportedHead(R, repos, resolved, key, evidence)
    ensures key in built && built[key] == resolved[key] && ReportedHead(R, repos, built, key, evidence)
  {
    SameSelection(repos, refs, clean, resolved, built, 0);
    SameSelection(repos, refs, clean, resolved, built, 2);
  }

  /** No manifest is built on a selection that neither is, nor descends from, nor preserves the
      commit of the evidence: here of the governance repository or the credit desk. */
  lemma UnrelatedSelectionFails(H: Hash, R: Readers, version: string, repos: Repos, refs: map<string, string>,
                                clean: bool, resolved: map<string, string>, key: string, evidence: string)
    requires AllChosen(repos, refs, clean, resolved) && (key == GOVERNANCE || key == CREDIT_DESK)
    requires ReportedHead(R, repos, resolved, key, evidence)
    requires evidence != resolved[key] && !Ancestor(repos[key].commits, evidence, resolved[key])
    requires !Preserved(repos[key], evidence, resolved[key])
    ensures Build(H, R, version, repos, refs, clean).Err?
  {
    if Build(H, R, version, repos, refs, clean).Ok? {
      var record := BuiltRelates(H, R, version, repos, refs, clean, resolved, key, evidence);
    }
  }

  /** The head that the P1.9 report of the selected governance commit gives for the repository. */
  ghost predicate ReportedHead(R: Readers, repos: Repos, resolved: map<string, string>, key: string, evidence: string)
  {
    Selected(repos, resolved, GOVERNANCE) && Selected(repos, resolved, key)
    && HeadAt(R, resolved[GOVERNANCE], repos[GOVERNANCE].commits[resolved[GOVERNANCE]].tree, HeadKey(key), evidence)
  }

  ghost predicate HeadAt(R: Readers, id: string, tree: Tree, head: string, evidence: string)
  {
    && var raw := Show(id, tree, EVIDENCE_FILES[2].1);
       && raw.Some? && R.report(raw.value).Ok?
       && Get(Under(R.report(raw.value).value, "baselines"), head) == Str(evidence)
  }

  function HeadKey(key: string): string
  {
    if key == GOVERNANCE then "governance_head" else "credit_desk_head"
  }

  lemma ChosenOnce(repos: Repos, refs: map<string, string>, clean: bool, a: map<string, string>, b: map<string, string>)
    requires AllChosen(repos, refs, clean, a) && AllChosen(repos, refs, clean, b)
    ensures forall s :: s in COMPONENTS ==> a[s.0] == b[s.0]
  {
    forall s | s in COMPONENTS ensures a[s.0] == b[s.0] {
      assert Chosen(repos, refs, clean, s, a[s.0]) && Chosen(repos, refs, clean, s, b[s.0]);
    }
  }

  lemma RecordedHead(H: Hash, R: Readers, evidence: Document, id: string, tree: Tree, head: string, commit: string)
    requires ReportsMean(H, R, evidence, EVIDENCE_FILES, id, tree) && head in BASELINES
    requires HeadAt(R, id, tree, head, commit)
    ensures TextAt(Under(Under(evidence, P1_9), "baselines"), head) == commit
  {
    var file, record := EVIDENCE_FILES[2].1, Under(evidence, P1_9);
    assert EVIDENCE_FILES[2] in EVIDENCE_FILES;
    assert ReportMeans(H, R, record, file, id, tree);
    var payload := R.report(Show(id, tree, file).value).value;
    assert head in Under(record, "baselines");
    assert CopiesText(Under(record, "baselines"), Under(payload, "baselines"), head);
  }

  lemma ReportedIsRecorded(H: Hash, R: Readers, repos: Repos, doc: Document, version: string,
                           resolved: map<string, string>, tagged: string, key: string, evidence: string)
    returns (record: Document)
    requires ManifestMeans(H, R, repos, doc, version, resolved, tagged) && (key == GOVERNANCE || key == CREDIT_DESK)
    requires ReportedHead(R, repos, resolved, key, evidence)
    ensures Relates(record, repos[key], evidence, resolved[key])
  {
    var id, tree := resolved[GOVERNANCE], repos[GOVERNANCE].commits[resolved[GOVERNANCE]].tree;
    RecordedHead(H, R, Under(doc, "evidence"), id, tree, HeadKey(key), evidence);
    record := Under(Under(doc, "compatibility"), key);
  }

  lemma BuiltTagRelates(H: Hash, R: Readers, version: string, repos: Repos, refs: map<string, string>, clean: bool,
                        resolved: map<string, string>, runtime: string, tag: string) returns (record: Document)
    requires Build(H, R, version, repos, refs, clean).Ok? && AllChosen(repos, refs, clean, resolved)
    requires Selected(repos, resolved, GOVERNANCE) && Selected(repos, resolved, OTEL_KIT)
    requires HeadAt(R, resolved[GOVERNANCE], repos[GOVERNANCE].commits[resolved[GOVERNANCE]].tree,
                    "a2a_otel_kit_runtime_version", runtime)
    requires ResolvesTo(repos[OTEL_KIT], "v" + runtime, tag)
    ensures Relates(record, repos[OTEL_KIT], tag, resolved[OTEL_KIT])
  {
    var built, tagged := BuiltManifestMeans(H, R, version, repos, refs, clean);
    SameSelection(repos, refs, clean, resolved, built, 0);
    SameSelection(repos, refs, clean, resolved, built, 3);
    record := RecordedTag(H, R, repos, Build(H, R, version, repos, refs, clean).value, version, built, tagged, runtime,
                          tag);
  }

  lemma RecordedTag(H: Hash, R: Readers, repos: Repos, doc: Document, version: string, resolved: map<string, string>,
                    tagged: string, runtime: string, tag: string) returns (record: Document)
    requires ManifestMeans(H, R, repos, doc, version, resolved, tagged)
    requires HeadAt(R, resolved[GOVERNANCE], repos[GOVERNANCE].commits[resolved[GOVERNANCE]].tree,
                    "a2a_otel_kit_runtime_version", runtime)
    requires ResolvesTo(repos[OTEL_KIT], "v" + runtime, tag)
    ensures Relates(record, repos[OTEL_KIT], tag, resolved[OTEL_KIT])
  {
    var id, tree := resolved[GOVERNANCE], repos[GOVERNANCE].commits[resolved[GOVERNANCE]].tree;
    RecordedHead(H, R, Under(doc, "evidence"), id, tree, "a2a_otel_kit_runtime_version", runtime);
    record := Under(Under(doc, "compatibility"), OTEL_KIT);
  }

  /** And of the telemetry kit, against the commit that the tag of the reported version names. */
  lemma UnrelatedTagFails(H: Hash, R: Readers, version: string, repos: Repos, refs: map<string, string>, clean: bool,
                          resolved: map<string, string>, runtime: string, tag: string)
    requires AllChosen(repos, refs, clean, resolved)
    requires Selected(repos, resolved, GOVERNANCE) && Selected(repos, resolved, OTEL_KIT)
    requires HeadAt(R, resolved[GOVERNANCE], repos[GOVERNANCE].commits[resolved[GOVERNANCE]].tree,
                    "a2a_otel_kit_runtime_version", runtime)
    requires ResolvesTo(repos[OTEL_KIT], "v" + runtime, tag)
    requires tag != resolved[OTEL_KIT] && !Ancestor(repos[OTEL_KIT].commits, tag, resolved[OTEL_KIT])
    requires !Preserved(repos[OTEL_KIT], tag, resolved[OTEL_KIT])
    ensures Build(H, R, version, repos, refs, clean).Err?
  {
    if Build(H, R, version, repos, refs, clean).Ok? {
      var record := BuiltTagRelates(H, R, version, repos, refs, clean, resolved, runtime, tag);
    }
  }
}
