/** The verifier accepts what the generator wrote, exactly when the output directory lies
    outside the security evidence that the bundle collects. */
module ProvenanceAgreement {
  import opened Text
  import opened CanonicalJson
  import opened Outcome
  import opened Evidence
  import opened Paths
  import opened Checksums
  import opened BuildProvenance

  // ---- Paths below a directory ----

  /** A path as the file system lists it: relative, safe and in normal form. */
  predicate NormalPath(p: string)
  {
    SafeRelativePath(p).Ok? && AsPosix(Parts(p)) == p
  }

  lemma {:induction false} SplitChild(dir: string, leaf: string)
    requires '/' !in leaf
    ensures Split(dir + "/" + leaf, '/') == Split(dir, '/') + [leaf]
  {
    var path := dir + "/" + leaf;
    if dir == "" {
      SplitFirst("", leaf, '/');
      SplitFirst(leaf, "", '/');
      assert path == "" + ['/'] + leaf;
    } else {
      assert path[1..] == dir[1..] + "/" + leaf;
      SplitChild(dir[1..], leaf);
    }
  }

  lemma {:induction false} MeaningfulAppends(a: seq<string>, b: seq<string>)
    ensures Meaningful(a + b) == Meaningful(a) + Meaningful(b)
  {
    if a == [] {
      assert a + b == b;
    } else {
      assert (a + b)[1..] == a[1..] + b;
      MeaningfulAppends(a[1..], b);
    }
  }

  lemma {:induction false} JoinAppends(parts: seq<string>, leaf: string)
    requires parts != []
    ensures AsPosix(parts + [leaf]) == AsPosix(parts) + "/" + leaf
  {
    if |parts| > 1 {
      assert (parts + [leaf])[1..] == parts[1..] + [leaf];
      JoinAppends(parts[1..], leaf);
      assert parts[0] + ['/'] + (AsPosix(parts[1..]) + "/" + leaf)
          == (parts[0] + ['/'] + AsPosix(parts[1..])) + "/" + leaf;
    } else {
      assert (parts + [leaf])[1..] == [leaf] && AsPosix([leaf]) == leaf && AsPosix(parts) == parts[0];
      assert AsPosix(parts + [leaf]) == parts[0] + ['/'] + leaf;
    }
  }

  lemma PartsChild(dir: string, leaf: string)
    requires CleanPart(leaf)
    ensures Parts(dir + "/" + leaf) == Parts(dir) + [leaf]
  {
    SplitChild(dir, leaf);
    MeaningfulAppends(Split(dir, '/'), [leaf]);
    assert [leaf][1..] == [];
  }

  lemma NormalChild(dir: string, leaf: string)
    requires NormalPath(dir) && CleanPart(leaf) && leaf != ".."
    ensures NormalPath(dir + "/" + leaf) && Parts(dir) <= Parts(dir + "/" + leaf)
  {
    PartsChild(dir, leaf);
    JoinAppends(Parts(dir), leaf);
    assert dir != "" && (dir + "/" + leaf)[0] == dir[0];
  }

  // ---- The generated paths ----

  /** No separator. */
  predicate Plain(s: string)
  {
    '/' !in s
  }

  /** A generated path: in normal form below out. */
  ghost predicate Generated(out: string, path: string)
  {
    && NormalPath(path) && Inside(path, out)
    && |path| > |out| + 9 && path[..|out| + 1] == out + "/"
  }

  /** Two characters that tell the generated paths apart. */
  function Mark(out: string, path: string): (char, char)
    requires |path| > |out| + 9
  {
    (path[|out| + 1], path[|out| + 9])
  }

  lemma LeafGenerated(out: string, leaf: string)
    requires NormalPath(out) && Plain(leaf) && |leaf| > 8
    ensures Generated(out, out + "/" + leaf) && Mark(out, out + "/" + leaf) == (leaf[0], leaf[8])
  {
    assert '/' !in leaf;
    NormalChild(out, leaf);
    var path := out + "/" + leaf;
    assert path[..|out| + 1] == out + "/";
    assert path[|out| + 1] == leaf[0] && path[|out| + 9] == leaf[8];
  }

  lemma EvidenceGenerated(out: string, version: string)
    requires NormalPath(out) && Plain(version)
    ensures Generated(out, EvidencePath(out, version)) && Mark(out, EvidencePath(out, version)) == ('r', 'e')
  {
    var head, leaf := "release-evidence-", "release-evidence-" + version + ".tar.gz";
    assert head[0] == 'r' && head[8] == 'e' && Plain(head) && Plain(".tar.gz");
    assert leaf[0] == head[0] && leaf[8] == head[8];
    LeafGenerated(out, leaf);
  }

  lemma RecipeGenerated(out: string, version: string)
    requires NormalPath(out) && Plain(version)
    ensures Generated(out, RecipePath(out, version)) && Mark(out, RecipePath(out, version)).0 == 'b'
  {
    var head, leaf := "build-recipe-", "build-recipe-" + version + ".tar.gz";
    assert head[0] == 'b' && Plain(head) && Plain(".tar.gz");
    assert leaf[0] == head[0];
    LeafGenerated(out, leaf);
  }

  lemma ProvenanceGenerated(out: string)
    requires NormalPath(out)
    ensures Generated(out, ProvenancePath(out)) && Mark(out, ProvenancePath(out)) == ('r', 'b')
  {
    var head, tail := "release-", "build-provenance.json";
    assert Plain(head) && |head| == 8 && head[0] == 'r';
    assert Plain(tail) && tail[0] == 'b';
    LeafGenerated(out, head + tail);
  }

  lemma ChecksumsGenerated(out: string)
    requires NormalPath(out)
    ensures Generated(out, ChecksumsPath(out)) && Mark(out, ChecksumsPath(out)) == ('r', 's')
  {
    var leaf := "release-subjects.sha256";
    assert Plain(leaf) && leaf[0] == 'r' && leaf[8] == 's';
    LeafGenerated(out, leaf);
  }

  lemma PlainJoins(a: string, b: string)
    requires Plain(a) && Plain(b)
    ensures Plain(a + b)
  {
  }

  lemma PlainLeaf(name: string, commit: string)
    requires Plain(name) && Plain(commit)
    ensures Plain(Stem(name, commit) + ".tar.gz")
  {
    var short := if |commit| <= 12 then commit else commit[..12];
    assert forall c | c in short :: c in commit;
    assert Plain("-") && Plain(".tar.gz");
    PlainJoins(name, "-");
    PlainJoins(name + "-", short);
    assert Stem(name, commit) == name + "-" + short;
    PlainJoins(Stem(name, commit), ".tar.gz");
  }

  lemma ArchivePathShape(out: string, name: string, commit: string)
    requires name != ""
    ensures var path := ArchivePath(out, name, commit);
      && |path| > |out| + 9 && path[..|out| + 1] == out + "/"
      && path[|out| + 1] == 's' && path[|out| + 9] == name[0]
  {
    var middle, leaf := "/sources/", Stem(name, commit) + ".tar.gz";
    assert middle == "/sources" + "/" && |middle| == 9 && middle[0] == '/' && middle[1] == 's';
    assert ArchivePath(out, name, commit) == out + middle + leaf;
    assert leaf[0] == name[0];
    assert (out + middle + leaf)[..|out| + 1] == out + "/";
  }

  lemma InsideDeeper(path: string, dir: string, out: string)
    requires Inside(path, dir) && Inside(dir, out)
    ensures Inside(path, out)
  {
  }

  lemma ArchiveGenerated(out: string, name: string, commit: string)
    requires NormalPath(out) && Plain(name) && Plain(commit) && |name| > 8
    ensures Generated(out, ArchivePath(out, name, commit))
    ensures Mark(out, ArchivePath(out, name, commit)) == ('s', name[0])
  {
    var dir, leaf := out + "/sources", Stem(name, commit) + ".tar.gz";
    PlainLeaf(name, commit);
    SourcesDirectory(out);
    LeafGenerated(dir, leaf);
    InsideDeeper(dir + "/" + leaf, dir, out);
    ArchivePathShape(out, name, commit);
  }

  lemma SourcesDirectory(out: string)
    requires NormalPath(out)
    ensures NormalPath(out + "/sources") && Inside(out + "/sources", out)
  {
    var leaf := "sources";
    assert out + "/sources" == out + "/" + leaf;
    assert '/' !in leaf && Plain(leaf) && |leaf| == 7;
    NormalChild(out, leaf);
  }

  // ---- The six subjects ----

  /** What names contribute to paths is plain, and the output directory is in normal form. */
  ghost predicate Placeable(out: string, u: Upstream)
  {
    && NormalPath(out) && Plain(u.version)
    && forall name :: name in u.bindings ==> Plain(u.bindings[name].commit)
  }

  function ArchiveOutput(P: Ports, out: string, bindings: map<string, Binding>, name: string): Output
    requires SourceArchive(P, bindings, name).Ok?
  {
    (ArchivePath(out, name, bindings[name].commit), Product(ArchiveRole(name), SourceArchive(P, bindings, name).value))
  }

  lemma {:induction false} ArchivesAre(P: Ports, out: string, bindings: map<string, Binding>, names: seq<string>)
    requires Archives(P, out, bindings, names).Ok?
    ensures var archives := Archives(P, out, bindings, names).value;
      |archives| == |names| && forall i :: 0 <= i < |names| ==>
        SourceArchive(P, bindings, names[i]).Ok? && archives[i] == ArchiveOutput(P, out, bindings, names[i])
  {
    if names != [] { ArchivesAre(P, out, bindings, names[1..]); }
  }

  lemma ComponentInitials()
    ensures COMPONENT_ORDER[0][0] == 'g' && COMPONENT_ORDER[1][0] == 'p' && COMPONENT_ORDER[2][0] == 'm'
    ensures COMPONENT_ORDER[3][0] == 'a'
    ensures forall i :: 0 <= i < 4 ==> |COMPONENT_ORDER[i]| > 8
  {
  }

  lemma ComponentsPlain()
    ensures forall i :: 0 <= i < 4 ==> Plain(COMPONENT_ORDER[i])
  {
    assert Plain("governance") && Plain("policy_model_router");
    assert Plain("multi_agent_credit_desk") && Plain("a2a_otel_kit");
  }

  ghost predicate SubjectMark(m: (char, char))
  {
    m.0 == 's' || m.0 == 'b' || m == ('r', 'e')
  }

  ghost predicate WellPlaced(out: string, outputs: seq<Output>)
  {
    forall i {:trigger PlacedAt(out, outputs, i)} :: 0 <= i < |outputs| ==> PlacedAt(out, outputs, i)
  }

  ghost predicate PlacedAt(out: string, outputs: seq<Output>, i: nat)
    requires i < |outputs|
  {
    Generated(out, outputs[i].0) && SubjectMark(Mark(out, outputs[i].0))
  }

  ghost predicate DistinctRoles(outputs: seq<Output>)
  {
    forall i, j :: 0 <= i < j < |outputs| ==> outputs[i].1.role != outputs[j].1.role
  }

  lemma ArchivesPlaced(P: Ports, out: string, u: Upstream)
    requires Archives(P, out, u.bindings, COMPONENT_ORDER).Ok? && Placeable(out, u)
    ensures var archives := Archives(P, out, u.bindings, COMPONENT_ORDER).value;
      && |archives| == 4
      && forall i :: 0 <= i < 4 ==>
         Generated(out, archives[i].0) && Mark(out, archives[i].0) == ('s', COMPONENT_ORDER[i][0])
                                    && archives[i].1.role == ArchiveRole(COMPONENT_ORDER[i])
  {
    ArchivesAre(P, out, u.bindings, COMPONENT_ORDER);
    ComponentInitials();
    ComponentsPlain();
    var archives := Archives(P, out, u.bindings, COMPONENT_ORDER).value;
    forall i | 0 <= i < 4
      ensures Generated(out, archives[i].0) && Mark(out, archives[i].0) == ('s', COMPONENT_ORDER[i][0])
              && archives[i].1.role == ArchiveRole(COMPONENT_ORDER[i])
    {
      ArchiveGenerated(out, COMPONENT_ORDER[i], u.bindings[COMPONENT_ORDER[i]].commit);
    }
  }

  lemma RoleInitials(name: string)
    requires name != ""
    ensures EVIDENCE_ROLE[0] == 'r' && RECIPE_ROLE[0] == 'b'
    ensures |ArchiveRole(name)| > 15 && ArchiveRole(name)[0] == 's' && ArchiveRole(name)[15] == name[0]
  {
    assert |"source_archive:"| == 15 && "source_archive:"[0] == 's';
  }

  ghost predicate SixSubjects(out: string, u: Upstream, archives: seq<Output>, evidence: string, recipe: string,
                              outputs: seq<Output>)
  {
    outputs == archives + [(EvidencePath(out, u.version), Product(EVIDENCE_ROLE, evidence))]
                        + [(RecipePath(out, u.version), Product(RECIPE_ROLE, recipe))]
  }

  lemma SubjectPlaced(P: Ports, u: Upstream, out: string, evidence: string, recipe: string, outputs: seq<Output>,
                      i: nat)
    requires Archives(P, out, u.bindings, COMPONENT_ORDER).Ok? && Placeable(out, u) && i < 6
    requires SixSubjects(out, u, Archives(P, out, u.bindings, COMPONENT_ORDER).value, evidence, recipe, outputs)
    ensures |outputs| == 6 && Generated(out, outputs[i].0)
    ensures Mark(out, outputs[i].0).0 == if i < 4 then 's' else if i == 4 then 'r' else 'b'
    ensures i < 4 ==> Mark(out, outputs[i].0).1 == COMPONENT_ORDER[i][0]
    ensures i == 4 ==> Mark(out, outputs[i].0).1 == 'e'
  {
    ArchivesPlaced(P, out, u);
    var archives := Archives(P, out, u.bindings, COMPONENT_ORDER).value;
    if i < 4 {
      assert outputs[i] == archives[i];
    } else if i == 4 {
      EvidenceGenerated(out, u.version);
    } else {
      RecipeGenerated(out, u.version);
    }
  }

  lemma SubjectsPlaced(P: Ports, u: Upstream, out: string, evidence: string, recipe: string, outputs: seq<Output>)
    requires Archives(P, out, u.bindings, COMPONENT_ORDER).Ok? && Placeable(out, u)
    requires SixSubjects(out, u, Archives(P, out, u.bindings, COMPONENT_ORDER).value, evidence, recipe, outputs)
    ensures |outputs| == 6 && WellPlaced(out, outputs) && DistinctKeys(outputs)
  {
    ArchivesAre(P, out, u.bindings, COMPONENT_ORDER);
    ComponentInitials();
    forall i | 0 <= i < 6 ensures PlacedAt(out, outputs, i) {
      SubjectPlaced(P, u, out, evidence, recipe, outputs, i);
    }
    forall i, j | 0 <= i < j < 6 ensures outputs[i].0 != outputs[j].0 {
      SubjectPlaced(P, u, out, evidence, recipe, outputs, i);
      SubjectPlaced(P, u, out, evidence, recipe, outputs, j);
    }
  }

  // Two characters that tell the roles apart.
  lemma RoleMarks(P: Ports, u: Upstream, out: string, evidence: string, recipe: string, outputs: seq<Output>, i: nat)
    requires Archives(P, out, u.bindings, COMPONENT_ORDER).Ok? && i < 6
    requires SixSubjects(out, u, Archives(P, out, u.bindings, COMPONENT_ORDER).value, evidence, recipe, outputs)
    ensures |outputs| == 6 && |outputs[i].1.role| > 15
    ensures outputs[i].1.role[0] == if i < 4 then 's' else if i == 4 then 'r' else 'b'
    ensures i < 4 ==> outputs[i].1.role[15] == COMPONENT_ORDER[i][0]
  {
    ArchivesAre(P, out, u.bindings, COMPONENT_ORDER);
    ComponentInitials();
    RoleInitials(COMPONENT_ORDER[i % 4]);
    var archives := Archives(P, out, u.bindings, COMPONENT_ORDER).value;
    assert i < 4 ==> outputs[i] == archives[i];
    assert |EVIDENCE_ROLE| == 23 && |RECIPE_ROLE| == 19;
  }

  lemma SubjectRolesDistinct(P: Ports, u: Upstream, out: string, evidence: string, recipe: string, outputs: seq<Output>)
    requires Archives(P, out, u.bindings, COMPONENT_ORDER).Ok?
    requires SixSubjects(out, u, Archives(P, out, u.bindings, COMPONENT_ORDER).value, evidence, recipe, outputs)
    ensures |outputs| == 6 && DistinctRoles(outputs)
  {
    ArchivesAre(P, out, u.bindings, COMPONENT_ORDER);
    ComponentInitials();
    forall i, j | 0 <= i < j < 6 ensures outputs[i].1.role != outputs[j].1.role {
      RoleMarks(P, u, out, evidence, recipe, outputs, i);
      RoleMarks(P, u, out, evidence, recipe, outputs, j);
    }
  }

  // ---- Writing files ----

  lemma {:induction false} WriteAllKeeps(files: Files, outputs: seq<Output>, p: string)
    requires forall o :: o in outputs ==> o.0 != p
    ensures p in WriteAll(files, outputs) <==> p in files
    ensures p in files ==> WriteAll(files, outputs)[p] == files[p]
    decreases |outputs|
  {
    if outputs != [] { WriteAllKeeps(files[outputs[0].0 := outputs[0].1.data], outputs[1..], p); }
  }

  lemma {:induction false} WriteAllHas(files: Files, outputs: seq<Output>, i: nat)
    requires DistinctKeys(outputs) && i < |outputs|
    ensures outputs[i].0 in WriteAll(files, outputs) && WriteAll(files, outputs)[outputs[i].0] == outputs[i].1.data
    decreases |outputs|
  {
    var next := files[outputs[0].0 := outputs[0].1.data];
    if i == 0 {
      forall o | o in outputs[1..] ensures o.0 != outputs[0].0 {
        var k :| 0 <= k < |outputs| - 1 && outputs[1..][k] == o;
        assert outputs[k + 1] == o;
      }
      WriteAllKeeps(next, outputs[1..], outputs[0].0);
    } else {
      WriteAllHas(next, outputs[1..], i - 1);
    }
  }

  lemma {:induction false} WriteAllAppends(files: Files, a: seq<Output>, b: seq<Output>)
    ensures WriteAll(files, a + b) == WriteAll(WriteAll(files, a), b)
    decreases |a|
  {
    if a == [] {
      assert a + b == b;
    } else {
      assert (a + b)[1..] == a[1..] + b;
      WriteAllAppends(files[a[0].0 := a[0].1.data], a[1..], b);
    }
  }

  lemma GeneratedIsNew(files: Files, out: string, path: string)
    requires !Exists(files, out) && Generated(out, path)
    ensures path !in files
  {
    assert path in files ==> StartsWith(path, out + "/");
  }

  // ---- Subject records ----

  lemma RecordFields(H: Hash, o: Output)
    ensures var d := Record(H, o);
      && Get(d, "path") == Str(o.0) && Get(d, "role") == Str(o.1.role) && Get(d, "sha256") == Str(H(o.1.data))
      && Get(d, "size_bytes") == Int(|o.1.data|)
  {
    assert |"media_type"| == 10 && |"path"| == 4 && |"role"| == 4 && |"sha256"| == 6 && |"size_bytes"| == 10;
    assert "path"[0] == 'p' && "role"[0] == 'r' && "media_type"[0] == 'm' && "size_bytes"[0] == 's';
  }

  ghost predicate Present(files: Files, outputs: seq<Output>)
  {
    forall i :: 0 <= i < |outputs| ==> outputs[i].0 in files && files[outputs[i].0] == outputs[i].1.data
  }

  lemma SubjectAccepted(H: Hash, files: Files, out: string, o: Output)
    requires Generated(out, o.0) && o.0 in files && files[o.0] == o.1.data
    ensures CheckSubject(H, files, out, Obj(Record(H, o))) == Ok(Record(H, o))
  {
    RecordFields(H, o);
  }

  lemma TailPlaced(out: string, outputs: seq<Output>)
    requires WellPlaced(out, outputs) && outputs != []
    ensures WellPlaced(out, outputs[1..])
  {
    forall i | 0 <= i < |outputs| - 1 ensures PlacedAt(out, outputs[1..], i) {
      assert PlacedAt(out, outputs, i + 1);
    }
  }

  lemma {:induction false} SubjectsAccepted(H: Hash, files: Files, out: string, outputs: seq<Output>)
    requires WellPlaced(out, outputs) && Present(files, outputs)
    ensures CheckSubjects(H, files, out, Objects(Records(H, outputs))) == Ok(Records(H, outputs))
    decreases |outputs|
  {
    if outputs != [] {
      var raws := Objects(Records(H, outputs));
      assert raws[1..] == Objects(Records(H, outputs[1..]));
      assert Records(H, outputs) == [Record(H, outputs[0])] + Records(H, outputs[1..]);
      assert PlacedAt(out, outputs, 0);
      TailPlaced(out, outputs);
      SubjectAccepted(H, files, out, outputs[0]);
      SubjectsAccepted(H, files, out, outputs[1..]);
    }
  }

  lemma {:induction false} ByRoleFinds(H: Hash, outputs: seq<Output>, i: nat)
    requires DistinctRoles(outputs) && i < |outputs|
    ensures ByRole(Records(H, outputs), outputs[i].1.role) == Some(Record(H, outputs[i]))
    decreases |outputs|
  {
    var rest := outputs[1..];
    assert Records(H, outputs)[1..] == Records(H, rest);
    RecordFields(H, outputs[0]);
    if i == 0 {
      NoSuchRole(H, rest, outputs[0].1.role);
    } else {
      ByRoleFinds(H, rest, i - 1);
    }
  }

  lemma {:induction false} NoSuchRole(H: Hash, outputs: seq<Output>, role: string)
    requires forall i :: 0 <= i < |outputs| ==> outputs[i].1.role != role
    ensures ByRole(Records(H, outputs), role) == None
    decreases |outputs|
  {
    if outputs != [] {
      assert Records(H, outputs)[1..] == Records(H, outputs[1..]);
      RecordFields(H, outputs[0]);
      NoSuchRole(H, outputs[1..], role);
    }
  }

  /** Sorting the subjects keeps each of them, with its place and role. */
  lemma SortedSubjects(out: string, outputs: seq<Output>, files: Files)
    requires WellPlaced(out, outputs) && DistinctKeys(outputs) && DistinctRoles(outputs) && Present(files, outputs)
    ensures var sorted := Sort(outputs);
      && |sorted| == |outputs| && (forall o :: o in sorted <==> o in outputs)
      && WellPlaced(out, sorted) && DistinctKeys(sorted) && DistinctRoles(sorted) && Present(files, sorted)
  {
    var sorted := Sort(outputs);
    SortPermutes(outputs);
    assert forall o :: o in sorted <==> o in multiset(sorted);
    assert forall o :: o in outputs <==> o in multiset(outputs);
    PermutationKeepsDistinctKeys(outputs, sorted);
    forall i | 0 <= i < |sorted|
      ensures PlacedAt(out, sorted, i) && sorted[i].0 in files && files[sorted[i].0] == sorted[i].1.data
    {
      assert sorted[i] in outputs;
      var k :| 0 <= k < |outputs| && outputs[k] == sorted[i];
      assert PlacedAt(out, outputs, k);
    }
    forall i, j | 0 <= i < j < |sorted| ensures sorted[i].1.role != sorted[j].1.role {
      assert sorted[i] in outputs && sorted[j] in outputs;
      var k :| 0 <= k < |outputs| && outputs[k] == sorted[i];
      var m :| 0 <= m < |outputs| && outputs[m] == sorted[j];
      assert sorted[i].0 != sorted[j].0;
    }
  }

  // ---- Rows of the checksum file ----

  function RowsOf(H: Hash, outputs: seq<Output>): seq<Row>
  {
    seq(|outputs|, i requires 0 <= i < |outputs| => (outputs[i].0, H(outputs[i].1.data)))
  }

  lemma RecordReads(H: Hash, o: Output)
    requires NormalPath(o.0)
    ensures ReadRecord(Record(H, o)) == Ok((o.0, H(o.1.data)))
  {
    RecordFields(H, o);
  }

  lemma PrependRow(records: seq<Document>, row: Row, rest: seq<Row>)
    requires records != [] && ReadRecord(records[0]) == Ok(row) && ReadRecords(records[1..]) == Ok(rest)
    ensures ReadRecords(records) == Ok([row] + rest)
  {
  }

  lemma FirstRow(H: Hash, outputs: seq<Output>)
    requires outputs != []
    ensures Records(H, outputs)[1..] == Records(H, outputs[1..])
    ensures RowsOf(H, outputs) == [(outputs[0].0, H(outputs[0].1.data))] + RowsOf(H, outputs[1..])
  {
  }

  lemma {:induction false} RecordsRead(H: Hash, out: string, outputs: seq<Output>)
    requires WellPlaced(out, outputs)
    ensures ReadRecords(Records(H, outputs)) == Ok(RowsOf(H, outputs))
    decreases |outputs|
  {
    if outputs == [] {
      assert Records(H, outputs) == [] && RowsOf(H, outputs) == [];
    } else {
      assert PlacedAt(out, outputs, 0);
      TailPlaced(out, outputs);
      RecordReads(H, outputs[0]);
      RecordsRead(H, out, outputs[1..]);
      FirstRow(H, outputs);
      PrependRow(Records(H, outputs), (outputs[0].0, H(outputs[0].1.data)), RowsOf(H, outputs[1..]));
    }
  }

  lemma {:induction false} RowsPermute(H: Hash, a: seq<Output>, b: seq<Output>)
    requires multiset(a) == multiset(b)
    ensures multiset(RowsOf(H, a)) == multiset(RowsOf(H, b))
    decreases |a|
  {
    if a == [] {
      assert |multiset(b)| == |b|;
    } else {
      assert a[0] in multiset(b);
      var j :| 0 <= j < |b| && b[j] == a[0];
      TakeOut(a, b, j);
      RowsPermute(H, a[1..], b[..j] + b[j + 1..]);
      var row := (a[0].0, H(a[0].1.data));
      assert RowsOf(H, a) == [row] + RowsOf(H, a[1..]);
      assert RowsOf(H, b[..j] + b[j + 1..]) == RowsOf(H, b[..j]) + RowsOf(H, b[j + 1..]);
      assert RowsOf(H, b) == RowsOf(H, b[..j]) + [row] + RowsOf(H, b[j + 1..]);
    }
  }

  /** Every path of the checksum file is on one line. */
  ghost predicate OneLinePaths(out: string, outputs: seq<Output>)
  {
    OneLine(ProvenancePath(out)) && forall o :: o in outputs ==> OneLine(o.0)
  }

  lemma RowsAreSound(H: Hash, out: string, outputs: seq<Output>, text: string)
    requires Sha256Shaped(H) && WellPlaced(out, outputs) && DistinctKeys(outputs)
    requires NormalPath(out) && OneLinePaths(out, outputs)
    ensures var rows := RowsOf(H, outputs) + [(ProvenancePath(out), H(text))]; RowsOk(rows) && DistinctKeys(rows)
  {
    var rows := RowsOf(H, outputs) + [(ProvenancePath(out), H(text))];
    ProvenanceGenerated(out);
    forall row | row in rows ensures RowOk(row) {
      var i :| 0 <= i < |rows| && rows[i] == row;
      assert i < |outputs| ==> PlacedAt(out, outputs, i) && row == (outputs[i].0, H(outputs[i].1.data));
    }
    forall i, j | 0 <= i < j < |rows| ensures rows[i].0 != rows[j].0 {
      assert rows[i].0 == outputs[i].0 && PlacedAt(out, outputs, i);
      if j == |outputs| { assert Mark(out, outputs[i].0) != Mark(out, ProvenancePath(out)); }
    }
  }

  lemma ChecksumsAccepted(P: Ports, files: Files, out: string, outputs: seq<Output>)
    requires Sha256Shaped(P.H) && WellPlaced(out, outputs) && DistinctKeys(outputs) && WellPlaced(out, Sort(outputs))
    requires NormalPath(out) && OneLinePaths(out, outputs)
    requires ChecksumsPath(out) in files && ProvenancePath(out) in files
    requires ChecksumText(Records(P.H, outputs), (ProvenancePath(out), P.H(files[ProvenancePath(out)])))
          == Ok(files[ChecksumsPath(out)])
    ensures CheckChecksums(P, files, out, Records(P.H, Sort(outputs))).Ok?
  {
    var row := (ProvenancePath(out), P.H(files[ProvenancePath(out)]));
    var a, b := Records(P.H, outputs), Records(P.H, Sort(outputs));
    RecordsRead(P.H, out, outputs);
    RecordsRead(P.H, out, Sort(outputs));
    SortPermutes(outputs);
    RowsPermute(P.H, outputs, Sort(outputs));
    RowsAreSound(P.H, out, outputs, files[ProvenancePath(out)]);
    ChecksumTextIgnoresOrder(a, b, row);
    ChecksumRoundTrip(a, row);
  }
}
