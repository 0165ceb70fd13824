/** Which generator runs go through: a checkout that can be built from at all can also be built
    into directories where the result does not verify, below the security evidence or with a line
    break in their name. */
module ProvenanceReach {
  import opened Text
  import opened CanonicalJson
  import opened Outcome
  import opened Evidence
  import opened Paths
  import opened FilesBundle
  import opened BuildProvenance
  import opened ProvenanceAgreement
  import opened ProvenanceLines
  import opened ProvenanceRoundTrip

  /** Everything a run reads is there: sources, evidence and recipe files. */
  ghost predicate Supplied(P: Ports, files: Files, r: Request, u: Upstream)
  {
    && NormalFiles(files) && MANIFEST in files && SecurityFiles(files) != {}
    && (forall name :: name in COMPONENT_ORDER ==> SourceArchive(P, u.bindings, name).Ok?)
    && (forall p :: p in r.recipe ==> p in files)
  }

  lemma {:induction false} ArchivesSucceed(P: Ports, out: string, bindings: map<string, Binding>, names: seq<string>)
    requires forall name :: name in names ==> SourceArchive(P, bindings, name).Ok?
    ensures Archives(P, out, bindings, names).Ok?
  {
    if names != [] {
      assert names[0] in names;
      ArchivesSucceed(P, out, bindings, names[1..]);
    }
  }

  lemma PreflightEpoch(P: Ports, files: Files, manifestPath: string, securityPath: string)
    requires ReadUpstream(P, files, manifestPath, securityPath).Ok?
    ensures P.epoch(ReadUpstream(P, files, manifestPath, securityPath).value.date).Ok?
  {
    var manifest := ReadDocument(P, files, manifestPath).value;
    assert DateAndVersion(P, manifest).Ok?;
  }

  lemma WrittenGrows(P: Ports, files: Files, out: string, u: Upstream, archives: seq<Output>)
    requires Archives(P, out, u.bindings, COMPONENT_ORDER) == Ok(archives) && Placeable(out, u) && !Exists(files, out)
    requires NormalFiles(files)
    ensures Grown(files, out, WriteAll(files, archives)) && NormalFiles(WriteAll(files, archives))
  {
    ArchivesPlaced(P, out, u);
    forall i | 0 <= i < |archives| ensures PlacedAt(out, archives, i) {
    }
    ArchivesGrow(files, out, archives);
    GrownIsNormal(files, out, WriteAll(files, archives));
  }

  lemma BundleSucceeds(P: Ports, entries: seq<Entry>, date: string)
    requires NormalEntries(entries) && P.epoch(date).Ok?
    ensures BundleBytes(P, entries, date).Ok?
  {
    NormalEntriesStay(entries);
  }

  lemma EvidenceSucceeds(P: Ports, files: Files, date: string)
    requires NormalFiles(files) && MANIFEST in files && P.epoch(date).Ok?
    ensures EvidenceBytes(P, files, date).Ok?
  {
    EvidenceEntriesNormal(files);
    BundleSucceeds(P, EvidenceEntries(files).value, date);
  }

  lemma RecipeSucceeds(P: Ports, files: Files, recipe: seq<string>, date: string)
    requires forall p :: p in recipe ==> p in files && NormalPath(p)
    requires P.epoch(date).Ok?
    ensures RecipeEntries(files, recipe).Ok? && BundleBytes(P, RecipeEntries(files, recipe).value, date).Ok?
  {
    var entries := RecipeEntries(files, recipe).value;
    forall i | 0 <= i < |entries| ensures NormalPath(entries[i].0) {
      assert recipe[i] in recipe;
    }
    BundleSucceeds(P, entries, date);
  }

  lemma OutputsSucceed(P: Ports, files: Files, r: Request, u: Upstream)
    requires Supplied(P, files, r, u) && Placeable(r.out, u) && !Exists(files, r.out) && P.epoch(u.date).Ok?
    ensures Outputs(P, files, r, u).Ok?
  {
    ArchivesSucceed(P, r.out, u.bindings, COMPONENT_ORDER);
    var archives := Archives(P, r.out, u.bindings, COMPONENT_ORDER).value;
    var written := WriteAll(files, archives);
    WrittenGrows(P, files, r.out, u, archives);
    assert MANIFEST in written;
    var some :| some in SecurityFiles(files);
    assert some in written && some in SecurityFiles(written);
    EvidenceSucceeds(P, written, u.date);
    var after := written[EvidencePath(r.out, u.version) := EvidenceBytes(P, written, u.date).value];
    forall p | p in r.recipe ensures p in after && NormalPath(p) {
      assert p in files && p in written;
    }
    RecipeSucceeds(P, after, r.recipe, u.date);
  }

  lemma AssembleSucceeds(P: Ports, files: Files, r: Request, u: Upstream)
    requires Outputs(P, files, r, u).Ok? && Placeable(r.out, u)
    ensures Produce(P, files, r, u).Ok?
  {
    var run := OutputsParts(P, files, r, u);
    SubjectsPlaced(P, u, r.out, run.evidence, run.recipe, run.outputs);
    RecordsRead(P.H, r.out, run.outputs);
  }

  /** With everything supplied and plain names, a run that passes preflight goes through. */
  lemma GenerateSucceeds(P: Ports, files: Files, r: Request, u: Upstream)
    requires Preflight(P, files, r) == Ok(u) && Supplied(P, files, r, u) && Placeable(r.out, u)
    ensures Generate(P, files, r).Ok?
  {
    PreflightFacts(P, files, r);
    PreflightEpoch(P, files, r.manifestPath, r.securityPath);
    OutputsSucceed(P, files, r, u);
    AssembleSucceeds(P, files, r, u);
    GenerateSteps(P, files, r);
  }

  // ---- A new directory below the security evidence ----

  lemma {:induction false} LongestPath(paths: set<string>) returns (n: nat)
    ensures forall p :: p in paths ==> |p| <= n
    decreases |paths|
  {
    if paths == {} {
      n := 0;
    } else {
      var some :| some in paths;
      var m := LongestPath(paths - {some});
      n := if |some| <= m then m else |some|;
      forall p | p in paths ensures |p| <= n {
        assert p == some || p in paths - {some};
      }
    }
  }

  lemma NormalLeaf(leaf: string)
    requires CleanPart(leaf) && leaf != ".."
    ensures NormalPath(leaf)
  {
    SplitFirst(leaf, "", '/');
    assert [leaf][1..] == [] && Meaningful([leaf]) == [leaf];
    assert AsPosix([leaf]) == leaf;
  }

  const SECURITY_DIRECTORY := "artifacts/release/security"

  lemma SecurityParts()
    ensures SECURITY_DIRECTORY == "artifacts" + "/" + "release" + "/" + "security"
    ensures SECURITY_DIRECTORY + "/" == SECURITY_ROOT
  {
  }

  lemma PartsArePlain()
    ensures CleanPart("artifacts") && CleanPart("release") && CleanPart("security")
    ensures "artifacts" != ".." && "release" != ".." && "security" != ".."
  {
    assert |"artifacts"| == 9 && |"release"| == 7 && |"security"| == 8;
  }

  lemma SecurityDirectory()
    ensures NormalPath(SECURITY_DIRECTORY)
  {
    PartsArePlain();
    Nested("artifacts", "release", "security");
    SecurityParts();
  }

  lemma Nested(a: string, b: string, c: string)
    requires CleanPart(a) && a != ".." && CleanPart(b) && b != ".." && CleanPart(c) && c != ".."
    ensures NormalPath(a + "/" + b + "/" + c)
  {
    NormalLeaf(a);
    NormalChild(a, b);
    NormalChild(a + "/" + b, c);
  }

  function Filler(n: nat): string
  {
    seq(n, _ => 'x')
  }

  lemma BelowSecurity(n: nat)
    requires n > 2
    ensures var out := SECURITY_DIRECTORY + "/" + Filler(n); NormalPath(out) && InsideSecurity(out) && |out| > n
  {
    SecurityDirectory();
    NormalChild(SECURITY_DIRECTORY, Filler(n));
    SecurityParts();
    Starts(SECURITY_DIRECTORY, Filler(n));
  }

  lemma Starts(dir: string, leaf: string)
    ensures StartsWith(dir + "/" + leaf + "/", dir + "/")
  {
    assert (dir + "/" + leaf + "/")[..|dir + "/"|] == dir + "/";
  }

  lemma FreshInside(files: Files) returns (out: string)
    ensures NormalPath(out) && InsideSecurity(out) && !Exists(files, out)
  {
    var n := LongestPath(files.Keys);
    out := SECURITY_DIRECTORY + "/" + Filler(n + 3);
    BelowSecurity(n + 3);
  }

  lemma FreshBroken(files: Files) returns (out: string)
    ensures NormalPath(out) && !Checksums.OneLine(out) && !Exists(files, out)
  {
    var n := LongestPath(files.Keys);
    out := Filler(n + 1) + "\n" + "x";
    assert out[n + 1] == '\n' && '\n' in out && out[0] == 'x';
    assert forall c | c in out :: c == 'x' || c == '\n';
    NormalLeaf(out);
  }

  lemma PreflightIgnoresPlace(P: Ports, files: Files, r: Request, out: string)
    requires Preflight(P, files, r).Ok? && !Exists(files, out)
    ensures Preflight(P, files, r.(out := out)) == Preflight(P, files, r)
  {
  }

  /** Every run that goes through can be repeated in any new directory on a normal path. */
  lemma GenerateElsewhere(P: Ports, files: Files, r: Request, u: Upstream, out: string) returns (moved: Request)
    requires Preflight(P, files, r) == Ok(u) && Supplied(P, files, r, u) && Placeable(r.out, u)
    requires NormalPath(out) && !Exists(files, out)
    ensures moved == r.(out := out) && Placeable(out, u)
    ensures Preflight(P, files, moved) == Ok(u) && Generate(P, files, moved).Ok?
  {
    PreflightIgnoresPlace(P, files, r, out);
    moved := r.(out := out);
    GenerateSucceeds(P, files, moved, u);
  }

  /** What the verifier says of a finished run, given lossless encodings and no collision. */
  ghost predicate Rejected(P: Ports, files: Files, r: Request, u: Upstream, final: Files, provenance: Document)
  {
    && Generate(P, files, r) == Ok((final, provenance))
    && (Lossless(P, files, r, u, final, provenance)
        && (InsideSecurity(r.out) ==> NoEvidenceCollision(P, r, u, final)) ==>
          Verify(P, final, r.manifestPath, r.securityPath, r.out).Err?)
  }

  lemma MisplacedIsRejected(P: Ports, files: Files, r: Request, u: Upstream)
    returns (final: Files, provenance: Document)
    requires Sha256Shaped(P.H) && ProperRecipe(r.recipe) && NormalFiles(files) && MANIFEST in files
    requires Preflight(P, files, r) == Ok(u) && Placeable(r.out, u) && Generate(P, files, r).Ok?
    requires InsideSecurity(r.out) || !OneLineNames(r.out, u)
    ensures Rejected(P, files, r, u, final, provenance)
  {
    final, provenance := Generate(P, files, r).value.0, Generate(P, files, r).value.1;
    if Lossless(P, files, r, u, final, provenance) && (InsideSecurity(r.out) ==> NoEvidenceCollision(P, r, u, final)) {
      GeneratedProvenanceVerifies(P, files, r, final, provenance, u);
    }
  }

  /** Every run that goes through can be repeated inside the security evidence: preflight does not
      object, generation succeeds, and the verifier rejects what was generated. */
  lemma AnyRunFailsInside(P: Ports, files: Files, r: Request, u: Upstream)
    returns (inside: Request, final: Files, provenance: Document)
    requires Sha256Shaped(P.H) && ProperRecipe(r.recipe)
    requires Preflight(P, files, r) == Ok(u) && Supplied(P, files, r, u) && Placeable(r.out, u)
    ensures inside == r.(out := inside.out) && InsideSecurity(inside.out) && Preflight(P, files, inside) == Ok(u)
    ensures Rejected(P, files, inside, u, final, provenance)
  {
    var out := FreshInside(files);
    inside := GenerateElsewhere(P, files, r, u, out);
    final, provenance := MisplacedIsRejected(P, files, inside, u);
  }

  /** And in a directory with a line break in its name. */
  lemma AnyRunFailsBroken(P: Ports, files: Files, r: Request, u: Upstream)
    returns (broken: Request, final: Files, provenance: Document)
    requires Sha256Shaped(P.H) && ProperRecipe(r.recipe)
    requires Preflight(P, files, r) == Ok(u) && Supplied(P, files, r, u) && Placeable(r.out, u)
    ensures broken == r.(out := broken.out) && !Checksums.OneLine(broken.out) && Preflight(P, files, broken) == Ok(u)
    ensures Rejected(P, files, broken, u, final, provenance)
  {
    var out := FreshBroken(files);
    broken := GenerateElsewhere(P, files, r, u, out);
    final, provenance := MisplacedIsRejected(P, files, broken, u);
  }
}
