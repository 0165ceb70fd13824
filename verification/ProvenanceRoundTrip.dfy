/** One generator run followed by verification of the files it left. */
module ProvenanceRoundTrip {
  import opened Text
  import opened CanonicalJson
  import opened Outcome
  import opened Evidence
  import opened Checksums
  import opened FilesBundle
  import opened BuildProvenance
  import opened ProvenanceAgreement
  import opened ProvenanceLines

  /** The pieces of a successful run. */
  datatype Run = Run(u: Upstream, archives: seq<Output>, evidence: string, recipe: string, outputs: seq<Output>,
                     entries: seq<Entry>, provenance: Document, checksums: string, final: Files)

  ghost predicate Collected(P: Ports, files: Files, r: Request, run: Run)
  {
    var written := WriteAll(files, run.archives);
    && Archives(P, r.out, run.u.bindings, COMPONENT_ORDER) == Ok(run.archives)
    && EvidenceBytes(P, written, run.u.date) == Ok(run.evidence)
    && RecipeEntries(written[EvidencePath(r.out, run.u.version) := run.evidence], r.recipe) == Ok(run.entries)
    && BundleBytes(P, run.entries, run.u.date) == Ok(run.recipe)
    && SixSubjects(r.out, run.u, run.archives, run.evidence, run.recipe, run.outputs)
  }

  ghost predicate Finished(P: Ports, files: Files, r: Request, run: Run)
  {
    && |run.outputs| == 6 && run.provenance == Provenance(P.H, run.u, run.outputs, run.entries)
    && ChecksumText(Records(P.H, run.outputs),
                    (ProvenancePath(r.out), P.H(P.writeJson(run.provenance)))) == Ok(run.checksums)
    && run.final == WriteAll(files, run.outputs)[ProvenancePath(r.out) := P.writeJson(run.provenance)][
                      ChecksumsPath(r.out) := run.checksums]
  }

  lemma OutputsParts(P: Ports, files: Files, r: Request, u: Upstream) returns (run: Run)
    requires Outputs(P, files, r, u).Ok?
    ensures run.u == u && Collected(P, files, r, run) && Outputs(P, files, r, u) == Ok((run.outputs, run.entries))
    ensures |run.outputs| == 6
  {
    var archives := Archives(P, r.out, u.bindings, COMPONENT_ORDER).value;
    var written := WriteAll(files, archives);
    var evidence := EvidenceBytes(P, written, u.date).value;
    var entries := RecipeEntries(written[EvidencePath(r.out, u.version) := evidence], r.recipe).value;
    var recipe := BundleBytes(P, entries, u.date).value;
    var outputs := Outputs(P, files, r, u).value.0;
    ArchivesAre(P, r.out, u.bindings, COMPONENT_ORDER);
    run := Run(u, archives, evidence, recipe, outputs, entries, map[], "", map[]);
  }

  lemma AssembledParts(P: Ports, files: Files, out: string, outputs: seq<Output>, provenance: Document)
    returns (checksums: string, final: Files)
    requires Assemble(P, files, out, outputs, provenance).Ok?
    ensures ChecksumText(Records(P.H, outputs), (ProvenancePath(out), P.H(P.writeJson(provenance)))) == Ok(checksums)
    ensures final
         == WriteAll(files, outputs)[ProvenancePath(out) := P.writeJson(provenance)][ChecksumsPath(out) := checksums]
    ensures Assemble(P, files, out, outputs, provenance) == Ok((final, provenance))
  {
    checksums := ChecksumText(Records(P.H, outputs), (ProvenancePath(out), P.H(P.writeJson(provenance)))).value;
    final := Assemble(P, files, out, outputs, provenance).value.0;
  }

  lemma RunOf(P: Ports, files: Files, r: Request) returns (run: Run)
    requires Generate(P, files, r).Ok?
    ensures Preflight(P, files, r) == Ok(run.u)
    ensures Collected(P, files, r, run) && Finished(P, files, r, run)
    ensures Generate(P, files, r) == Ok((run.final, run.provenance))
  {
    var u := Preflight(P, files, r).value;
    GenerateSteps(P, files, r);
    var parts := OutputsParts(P, files, r, u);
    var provenance := Provenance(P.H, u, parts.outputs, parts.entries);
    var checksums, final := AssembledParts(P, files, r.out, parts.outputs, provenance);
    run := parts.(provenance := provenance, checksums := checksums, final := final);
  }

  // ---- What is on disk afterwards ----

  /** Below out, on plain names. */
  ghost predicate Proper(P: Ports, files: Files, r: Request, run: Run)
  {
    && Preflight(P, files, r) == Ok(run.u) && Collected(P, files, r, run) && Finished(P, files, r, run)
    && Placeable(r.out, run.u)
  }

  /** The files before and after: six subjects, the document and the checksums in a new directory. */
  ghost predicate Disk(files: Files, out: string, outputs: seq<Output>, text: string, checksums: string, final: Files)
  {
    && !Exists(files, out) && NormalPath(out)
    && WellPlaced(out, outputs) && DistinctKeys(outputs)
    && final == WriteAll(files, outputs)[ProvenancePath(out) := text][ChecksumsPath(out) := checksums]
  }

  lemma ProperDisk(P: Ports, files: Files, r: Request, run: Run)
    requires Proper(P, files, r, run)
    ensures Disk(files, r.out, run.outputs, P.writeJson(run.provenance), run.checksums, run.final)
    ensures DistinctRoles(run.outputs)
  {
    PreflightFacts(P, files, r);
    SubjectsPlaced(P, run.u, r.out, run.evidence, run.recipe, run.outputs);
    SubjectRolesDistinct(P, run.u, r.out, run.evidence, run.recipe, run.outputs);
  }

  lemma NotAnExistingPath(files: Files, out: string, outputs: seq<Output>, p: string)
    requires !Exists(files, out) && WellPlaced(out, outputs) && p in files
    ensures forall o :: o in outputs ==> o.0 != p
  {
    forall i | 0 <= i < |outputs| ensures outputs[i].0 != p {
      assert PlacedAt(out, outputs, i);
      GeneratedIsNew(files, out, outputs[i].0);
    }
  }

  /** Nothing that was there before has changed. */
  lemma FinalKeeps(files: Files, out: string, outputs: seq<Output>, text: string, checksums: string, final: Files,
                   p: string)
    requires Disk(files, out, outputs, text, checksums, final) && p in files
    ensures p in final && final[p] == files[p]
  {
    NotAnExistingPath(files, out, outputs, p);
    WriteAllKeeps(files, outputs, p);
    ProvenanceGenerated(out);
    ChecksumsGenerated(out);
    GeneratedIsNew(files, out, ProvenancePath(out));
    GeneratedIsNew(files, out, ChecksumsPath(out));
  }

  lemma LastTwoPaths(out: string, path: string)
    requires NormalPath(out) && Generated(out, path) && SubjectMark(Mark(out, path))
    ensures path != ProvenancePath(out) && path != ChecksumsPath(out) && ProvenancePath(out) != ChecksumsPath(out)
  {
    ProvenanceGenerated(out);
    ChecksumsGenerated(out);
  }

  lemma FinalHas(files: Files, out: string, outputs: seq<Output>, text: string, checksums: string, final: Files)
    requires Disk(files, out, outputs, text, checksums, final) && outputs != []
    ensures Present(final, outputs)
    ensures ProvenancePath(out) in final && final[ProvenancePath(out)] == text
    ensures ChecksumsPath(out) in final && final[ChecksumsPath(out)] == checksums
  {
    assert PlacedAt(out, outputs, 0);
    LastTwoPaths(out, outputs[0].0);
    forall i | 0 <= i < |outputs| ensures outputs[i].0 in final && final[outputs[i].0] == outputs[i].1.data {
      WriteAllHas(files, outputs, i);
      assert PlacedAt(out, outputs, i);
      LastTwoPaths(out, outputs[i].0);
    }
  }

  /** Every new file is a generated one. */
  lemma FinalKeys(files: Files, out: string, outputs: seq<Output>, text: string, checksums: string, final: Files,
                  p: string)
    requires Disk(files, out, outputs, text, checksums, final) && p in final && p !in files
    ensures Generated(out, p)
  {
    ProvenanceGenerated(out);
    ChecksumsGenerated(out);
    if forall o :: o in outputs ==> o.0 != p {
      WriteAllKeeps(files, outputs, p);
    } else {
      var o :| o in outputs && o.0 == p;
      var i :| 0 <= i < |outputs| && outputs[i] == o;
      assert PlacedAt(out, outputs, i);
    }
  }

  lemma UpstreamReads(P: Ports, files: Files, manifestPath: string, securityPath: string)
    requires ReadUpstream(P, files, manifestPath, securityPath).Ok?
    ensures manifestPath in files && securityPath in files
  {
  }

  lemma UpstreamAgain(P: Ports, files: Files, r: Request, run: Run)
    requires Proper(P, files, r, run)
    ensures ReadUpstream(P, run.final, r.manifestPath, r.securityPath) == Ok(run.u)
    ensures CheckIdentities(P, run.u.bindings, COMPONENT_ORDER).Ok?
  {
    var text := P.writeJson(run.provenance);
    PreflightFacts(P, files, r);
    ProperDisk(P, files, r, run);
    UpstreamReads(P, files, r.manifestPath, r.securityPath);
    FinalKeeps(files, r.out, run.outputs, text, run.checksums, run.final, r.manifestPath);
    FinalKeeps(files, r.out, run.outputs, text, run.checksums, run.final, r.securityPath);
    SameUpstream(P, files, run.final, r.manifestPath, r.securityPath);
  }

  lemma SameUpstream(P: Ports, files: Files, final: Files, manifestPath: string, securityPath: string)
    requires manifestPath in files && securityPath in files && manifestPath in final && securityPath in final
    requires final[manifestPath] == files[manifestPath] && final[securityPath] == files[securityPath]
    ensures ReadUpstream(P, final, manifestPath, securityPath) == ReadUpstream(P, files, manifestPath, securityPath)
  {
    assert ReadDocument(P, final, manifestPath) == ReadDocument(P, files, manifestPath);
    assert ReadDocument(P, final, securityPath) == ReadDocument(P, files, securityPath);
  }

  // ---- The document's claims ----

  lemma SealKeeps(H: Hash, body: Document, key: string)
    requires key in body && |key| != 17
    ensures Get(Seal(H, body, "provenance_digest"), key) == body[key]
  {
    assert |"provenance_digest"| == 17;
  }

  lemma BodyClaims(u: Upstream, subjects: seq<Document>, recipe: Document, facts: seq<Json>)
    ensures var d := Body(u, subjects, recipe, facts);
      && Get(d, "kind") == Str(KIND) && Get(d, "release_version") == Str(u.version)
      && Get(d, "source_date") == Str(u.date)
  {
  }

  lemma BodyBindings(u: Upstream, subjects: seq<Document>, recipe: Document, facts: seq<Json>)
    ensures var d := Body(u, subjects, recipe, facts);
      && Get(d, "source_bindings") == BindingsJson(u.bindings) && Get(d, "attestation") == Attestation()
  {
  }

  lemma BodyRoots(u: Upstream, subjects: seq<Document>, recipe: Document, facts: seq<Json>)
    ensures Get(Body(u, subjects, recipe, facts), "upstream_roots") == UpstreamRoots(u)
  {
  }

  lemma BodyContents(u: Upstream, subjects: seq<Document>, recipe: Document, facts: seq<Json>)
    ensures var d := Body(u, subjects, recipe, facts);
      && Get(d, "subjects") == Arr(Objects(subjects))
      && Get(d, "build_recipe") == Obj(map["bundle" := Obj(recipe), "files" := Arr(facts)])
  {
  }

  lemma RootsBound(u: Upstream)
    ensures UpstreamBound(UpstreamRoots(u), u)
  {
  }

  lemma DocumentClaims(P: Ports, run: Run)
    requires |run.outputs| == 6 && run.provenance == Provenance(P.H, run.u, run.outputs, run.entries)
    requires Sha256Shaped(P.H)
    ensures VerifySelfDigest(P.H, run.provenance, "provenance_digest").Ok? && Claims(run.provenance, run.u)
  {
    var subjects, recipe := Records(P.H, Sort(run.outputs)), Record(P.H, run.outputs[5]);
    var facts := FileFacts(P.H, run.entries);
    var body := Body(run.u, subjects, recipe, facts);
    SealedDocumentVerifies(P.H, body, "provenance_digest");
    BodyClaims(run.u, subjects, recipe, facts);
    BodyBindings(run.u, subjects, recipe, facts);
    BodyRoots(run.u, subjects, recipe, facts);
    RootsBound(run.u);
    SealKeeps(P.H, body, "kind");
    SealKeeps(P.H, body, "release_version");
    SealKeeps(P.H, body, "source_date");
    SealKeeps(P.H, body, "source_bindings");
    SealKeeps(P.H, body, "attestation");
    SealKeeps(P.H, body, "upstream_roots");
  }

  lemma DocumentContents(P: Ports, run: Run)
    requires |run.outputs| == 6 && run.provenance == Provenance(P.H, run.u, run.outputs, run.entries)
    ensures Get(run.provenance, "subjects") == Arr(Objects(Records(P.H, Sort(run.outputs))))
    ensures Get(run.provenance, "build_recipe")
         == Obj(map["bundle" := Obj(Record(P.H, run.outputs[5])), "files" := Arr(FileFacts(P.H, run.entries))])
  {
    var subjects, recipe := Records(P.H, Sort(run.outputs)), Record(P.H, run.outputs[5]);
    var facts := FileFacts(P.H, run.entries);
    var body := Body(run.u, subjects, recipe, facts);
    BodyContents(run.u, subjects, recipe, facts);
    SealKeeps(P.H, body, "subjects");
    SealKeeps(P.H, body, "build_recipe");
  }

  // ---- Subjects by role ----

  lemma ByRoleSorted(H: Hash, outputs: seq<Output>, i: nat)
    requires DistinctRoles(Sort(outputs)) && i < |outputs| && outputs[i] in Sort(outputs)
    ensures ByRole(Records(H, Sort(outputs)), outputs[i].1.role) == Some(Record(H, outputs[i]))
    ensures Get(Record(H, outputs[i]), "sha256") == Str(H(outputs[i].1.data))
  {
    var k :| 0 <= k < |Sort(outputs)| && Sort(outputs)[k] == outputs[i];
    ByRoleFinds(H, Sort(outputs), k);
    RecordFields(H, outputs[i]);
  }

  lemma {:induction false} ArchivesAccepted(P: Ports, bindings: map<string, Binding>, subjects: seq<Document>,
                                            names: seq<string>)
    requires forall name :: name in names ==> CheckArchive(P, bindings, subjects, name).Ok?
    ensures CheckArchives(P, bindings, subjects, names).Ok?
  {
    if names != [] {
      assert names[0] in names;
      ArchivesAccepted(P, bindings, subjects, names[1..]);
    }
  }

  lemma SourceAccepted(P: Ports, files: Files, r: Request, run: Run, i: nat)
    requires Collected(P, files, r, run) && |run.outputs| == 6 && DistinctRoles(Sort(run.outputs)) && i < 4
    requires forall o :: o in run.outputs ==> o in Sort(run.outputs)
    ensures CheckArchive(P, run.u.bindings, Records(P.H, Sort(run.outputs)), COMPONENT_ORDER[i]).Ok?
  {
    ArchivesAre(P, r.out, run.u.bindings, COMPONENT_ORDER);
    assert run.outputs[i] == run.archives[i] && run.outputs[i] in run.outputs;
    ByRoleSorted(P.H, run.outputs, i);
  }

  lemma SourcesAccepted(P: Ports, files: Files, r: Request, run: Run)
    requires Collected(P, files, r, run) && |run.outputs| == 6 && DistinctRoles(Sort(run.outputs))
    requires forall o :: o in run.outputs ==> o in Sort(run.outputs)
    ensures CheckArchives(P, run.u.bindings, Records(P.H, Sort(run.outputs)), COMPONENT_ORDER).Ok?
  {
    var names := COMPONENT_ORDER;
    forall name | name in names ensures CheckArchive(P, run.u.bindings, Records(P.H, Sort(run.outputs)), name).Ok? {
      var i :| 0 <= i < |names| && names[i] == name;
      SourceAccepted(P, files, r, run, i);
    }
    ArchivesAccepted(P, run.u.bindings, Records(P.H, Sort(run.outputs)), names);
  }

  // ---- The recipe bundle ----

  /** The archive written for these entries, if any, is read back as it was. */
  predicate Restored(P: Ports, entries: Result<seq<Entry>>, date: string)
  {
    entries.Ok? && P.epoch(date).Ok? && Bundle(entries.value, P.epoch(date).value).Ok? ==>
      var archive := Bundle(entries.value, P.epoch(date).value);
      P.decode(P.encode(archive.value)) == archive
  }

  /** The encodings lose nothing of what one run and its verification write: the document, the
      evidence bundle as written and as collected again, and the recipe bundle. */
  predicate Lossless(P: Ports, files: Files, r: Request, u: Upstream, final: Files, provenance: Document)
  {
    && P.readJson(P.writeJson(provenance)) == Ok(provenance)
    && Restored(P, EvidenceEntries(final), u.date)
    && (var archives := Archives(P, r.out, u.bindings, COMPONENT_ORDER);
        archives.Ok? ==>
          var written := WriteAll(files, archives.value);
          var evidence := EvidenceBytes(P, written, u.date);
          && Restored(P, EvidenceEntries(written), u.date)
          && (evidence.Ok? ==>
                Restored(P, RecipeEntries(written[EvidencePath(r.out, u.version) := evidence.value], r.recipe),
                         u.date)))
  }

  ghost predicate RunLossless(P: Ports, files: Files, run: Run)
  {
    && P.readJson(P.writeJson(run.provenance)) == Ok(run.provenance)
    && Restored(P, EvidenceEntries(run.final), run.u.date)
    && Restored(P, EvidenceEntries(WriteAll(files, run.archives)), run.u.date)
    && Restored(P, Ok(run.entries), run.u.date)
  }

  lemma LosslessRun(P: Ports, files: Files, r: Request, run: Run)
    requires Collected(P, files, r, run) && Lossless(P, files, r, run.u, run.final, run.provenance)
    ensures RunLossless(P, files, run)
  {
  }

  ghost predicate NormalEntries(entries: seq<Entry>)
  {
    forall i :: 0 <= i < |entries| ==> NormalPath(entries[i].0)
  }

  lemma {:induction false} NormalEntriesStay(entries: seq<Entry>)
    requires NormalEntries(entries)
    ensures Normalize(entries) == Ok(entries)
    decreases |entries|
  {
    if entries != [] {
      NormalEntriesStay(entries[1..]);
      assert entries == [entries[0]] + entries[1..];
      assert NormalizeEntry(entries[0]) == Ok(entries[0]);
    }
  }

  lemma FactFields(H: Hash, e: Entry)
    ensures FileFact(H, e).Obj? && Get(FileFact(H, e).members, "path") == Str(e.0)
    ensures Get(FileFact(H, e).members, "sha256") == Str(H(e.1))
    ensures Get(FileFact(H, e).members, "size_bytes") == Int(|e.1|)
  {
    assert |"path"| == 4 && |"sha256"| == 6 && |"size_bytes"| == 10;
  }

  lemma {:induction false} FactsAccepted(H: Hash, embedded: map<string, string>, entries: seq<Entry>)
    requires forall i :: 0 <= i < |entries| ==> entries[i].0 in embedded && embedded[entries[i].0] == entries[i].1
    ensures CheckRecipeFiles(H, embedded, FileFacts(H, entries)).Ok?
    ensures var paths := CheckRecipeFiles(H, embedded, FileFacts(H, entries)).value;
      |paths| == |entries| && forall i :: 0 <= i < |entries| ==> paths[i] == entries[i].0
    decreases |entries|
  {
    if entries != [] {
      assert FileFacts(H, entries)[1..] == FileFacts(H, entries[1..]);
      FactFields(H, entries[0]);
      FactsAccepted(H, embedded, entries[1..]);
    }
  }

  ghost predicate Holds(embedded: map<string, string>, entries: seq<Entry>)
  {
    && (forall i :: 0 <= i < |entries| ==> entries[i].0 in embedded && embedded[entries[i].0] == entries[i].1)
    && (forall k :: k in embedded ==> exists i :: 0 <= i < |entries| && entries[i].0 == k)
  }

  lemma BundleHolds(entries: seq<Entry>, epoch: int)
    requires NormalEntries(entries) && DistinctKeys(entries)
    ensures Bundle(entries, epoch).Ok? && ReadFrom(Bundle(entries, epoch).value, map[]).Ok?
    ensures Holds(ReadFrom(Bundle(entries, epoch).value, map[]).value, entries)
  {
    NormalEntriesStay(entries);
    BundleRoundTrip(entries, epoch);
    var m := ReadFrom(Bundle(entries, epoch).value, map[]).value;
    forall i | 0 <= i < |entries| ensures entries[i].0 in m && m[entries[i].0] == entries[i].1 {
      assert entries[i] in entries;
    }
    forall k | k in m ensures exists i :: 0 <= i < |entries| && entries[i].0 == k {
      var e :| e in entries && e.0 == k;
      var i :| 0 <= i < |entries| && entries[i] == e;
    }
  }

  lemma RecipeEmbeds(P: Ports, files: Files, o: Output, entries: seq<Entry>, date: string)
    returns (embedded: map<string, string>)
    requires Restored(P, Ok(entries), date) && NormalEntries(entries) && DistinctKeys(entries)
    requires NormalPath(o.0) && o.0 in files && files[o.0] == o.1.data
    requires BundleBytes(P, entries, date) == Ok(o.1.data)
    ensures Embedded(P, files, Record(P.H, o)) == Ok(embedded) && Holds(embedded, entries)
  {
    var epoch := P.epoch(date).value;
    BundleHolds(entries, epoch);
    RecordFields(P.H, o);
    var archive := Bundle(entries, epoch).value;
    embedded := ReadFrom(archive, map[]).value;
  }

  lemma InventoryAccepted(H: Hash, embedded: map<string, string>, entries: seq<Entry>)
    requires Holds(embedded, entries)
    ensures CheckRecipeFiles(H, embedded, FileFacts(H, entries)).Ok?
    ensures forall k | k in embedded :: k in CheckRecipeFiles(H, embedded, FileFacts(H, entries)).value
  {
    FactsAccepted(H, embedded, entries);
    var paths := CheckRecipeFiles(H, embedded, FileFacts(H, entries)).value;
    forall k | k in embedded ensures k in paths {
      var i :| 0 <= i < |entries| && entries[i].0 == k;
      assert paths[i] == k;
    }
  }

  lemma RecipeAccepted(P: Ports, files: Files, subjects: seq<Document>, o: Output, entries: seq<Entry>, date: string,
                       recipe: Document)
    requires Restored(P, Ok(entries), date) && NormalEntries(entries) && DistinctKeys(entries)
    requires NormalPath(o.0) && o.0 in files && files[o.0] == o.1.data
    requires BundleBytes(P, entries, date) == Ok(o.1.data)
    requires ByRole(subjects, RECIPE_ROLE) == Some(Record(P.H, o))
    requires Get(recipe, "bundle") == Obj(Record(P.H, o)) && Get(recipe, "files") == Arr(FileFacts(P.H, entries))
    ensures CheckRecipe(P, files, Obj(recipe), subjects).Ok?
  {
    var embedded := RecipeEmbeds(P, files, o, entries, date);
    InventoryAccepted(P.H, embedded, entries);
  }

  lemma RecipeFields(record: Document, facts: seq<Json>)
    ensures var recipe := map["bundle" := Obj(record), "files" := Arr(facts)];
      Get(recipe, "bundle") == Obj(record) && Get(recipe, "files") == Arr(facts)
  {
    assert |"bundle"| == 6 && |"files"| == 5;
  }

  ghost predicate ProperRecipe(recipe: seq<string>)
  {
    && (forall i :: 0 <= i < |recipe| ==> NormalPath(recipe[i]))
    && (forall i, j :: 0 <= i < j < |recipe| ==> recipe[i] != recipe[j])
  }

  lemma RecipeEntriesAre(files: Files, recipe: seq<string>)
    requires RecipeEntries(files, recipe).Ok? && ProperRecipe(recipe)
    ensures NormalEntries(RecipeEntries(files, recipe).value) && DistinctKeys(RecipeEntries(files, recipe).value)
  {
  }

  // ---- The evidence bundle ----

  ghost predicate NormalFiles(files: Files)
  {
    forall p {:trigger NormalPath(p)} :: p in files ==> NormalPath(p)
  }

  predicate InsideSecurity(out: string)
  {
    StartsWith(out + "/", SECURITY_ROOT)
  }

  lemma RootSeparators(i: nat)
    requires i < 26 && SECURITY_ROOT[i] == '/'
    ensures i == 9 || i == 17
  {
    var head, tail := "artifacts/release/", "security/";
    assert SECURITY_ROOT == head + tail && |head| == 18;
    assert forall j :: 0 <= j < 8 ==> tail[j] != '/';
    assert forall j :: 0 <= j < 9 ==> head[j] != '/';
    assert forall j :: 10 <= j < 17 ==> head[j] != '/';
  }

  lemma ParentHoldsManifest(out: string)
    requires |out| < 26 && out + "/" == SECURITY_ROOT[..|out| + 1]
    ensures StartsWith(MANIFEST, out + "/")
  {
    assert SECURITY_ROOT[|out|] == (out + "/")[|out|];
    RootSeparators(|out|);
    var shared := "artifacts/release/";
    assert SECURITY_ROOT == shared + "security/" && MANIFEST == shared + "release-manifest.json";
  }

  // A new directory outside the security evidence holds nothing the bundle collects.
  lemma OutsideStaysOutside(files: Files, out: string, path: string)
    requires MANIFEST in files && !Exists(files, out) && Generated(out, path) && !InsideSecurity(out)
    ensures !StartsWith(path, SECURITY_ROOT)
  {
    if StartsWith(path, SECURITY_ROOT) {
      var n := |out|;
      assert |SECURITY_ROOT| == 27;
      if n < 26 {
        assert out + "/" == path[..27][..n + 1] == SECURITY_ROOT[..n + 1];
        ParentHoldsManifest(out);
      }
    }
  }

  lemma EvidenceFollowsFiles(f: Files, g: Files)
    requires MANIFEST in f && MANIFEST in g && f[MANIFEST] == g[MANIFEST] && SecurityFiles(f) == SecurityFiles(g)
    requires forall p :: p in SecurityFiles(f) ==> f[p] == g[p]
    ensures EvidenceEntries(f) == EvidenceEntries(g)
  {
    var paths := SortedKeys(SecurityFiles(f));
    forall i | 0 <= i < |paths| ensures EntriesAt(f, paths)[i] == EntriesAt(g, paths)[i] {
      assert paths[i] in paths;
    }
    assert EntriesAt(f, paths) == EntriesAt(g, paths);
  }

  // Any path that existed before is still there while the archives are being written, too.
  lemma ArchivesKeep(files: Files, out: string, archives: seq<Output>, p: string)
    requires !Exists(files, out) && WellPlaced(out, archives)
    ensures p in files ==> p in WriteAll(files, archives) && WriteAll(files, archives)[p] == files[p]
    ensures p in WriteAll(files, archives) && p !in files ==> Generated(out, p)
  {
    if p in files { NotAnExistingPath(files, out, archives, p); }
    if forall o :: o in archives ==> o.0 != p {
      WriteAllKeeps(files, archives, p);
    } else {
      var o :| o in archives && o.0 == p;
      var i :| 0 <= i < |archives| && archives[i] == o;
      assert PlacedAt(out, archives, i);
    }
  }

  /** A file store with the same old files, whose new files are all generated ones. */
  ghost predicate Grown(files: Files, out: string, later: Files)
  {
    && (forall p {:trigger p in later} :: p in files ==> p in later && later[p] == files[p])
    && (forall p {:trigger Generated(out, p)} :: p in later && p !in files ==> Generated(out, p))
  }

  lemma OutsideEvidence(files: Files, out: string, later: Files)
    requires MANIFEST in files && !Exists(files, out) && !InsideSecurity(out) && Grown(files, out, later)
    ensures SecurityFiles(later) == SecurityFiles(files) && MANIFEST in later && later[MANIFEST] == files[MANIFEST]
    ensures EvidenceEntries(later) == EvidenceEntries(files)
  {
    forall p | p in later && StartsWith(p, SECURITY_ROOT) ensures p in files {
      if p !in files { OutsideStaysOutside(files, out, p); }
    }
    EvidenceFollowsFiles(later, files);
  }

  // ---- Inside the security evidence the bundle changes ----

  lemma NamesAt(files: Files, paths: seq<string>, name: string)
    requires forall p :: p in paths ==> p in files
    ensures (exists e :: e in EntriesAt(files, paths) && e.0 == name) <==> name in paths
  {
    var entries := EntriesAt(files, paths);
    if name in paths {
      var i :| 0 <= i < |paths| && paths[i] == name;
      assert entries[i] in entries;
    }
    if e :| e in entries && e.0 == name {
      var i :| 0 <= i < |entries| && entries[i] == e;
      assert paths[i] in paths;
    }
  }

  lemma EntryNames(files: Files, name: string)
    requires EvidenceEntries(files).Ok?
    ensures (exists e :: e in EvidenceEntries(files).value && e.0 == name) <==>
      name == MANIFEST || name in SecurityFiles(files)
  {
    var paths := SortedKeys(SecurityFiles(files));
    var first: Entry, tail := (MANIFEST, files[MANIFEST]), EntriesAt(files, paths);
    NamesAt(files, paths, name);
    assert EvidenceEntries(files) == Ok([first] + tail);
    assert forall e :: e in [first] + tail <==> e == first || e in tail;
    assert first.0 == name ==> first in [first] + tail;
  }

  lemma EvidenceEntriesNormal(files: Files)
    requires EvidenceEntries(files).Ok? && NormalFiles(files)
    ensures NormalEntries(EvidenceEntries(files).value)
  {
    var entries, paths := EvidenceEntries(files).value, SortedKeys(SecurityFiles(files));
    forall i | 0 <= i < |entries| ensures NormalPath(entries[i].0) {
      if i > 0 { assert paths[i - 1] in paths; }
      assert entries[i].0 in files;
    }
  }

  lemma MemberNames(entries: seq<Entry>, epoch: int, name: string)
    ensures (exists m :: m in Members(entries, epoch) && m.name == name) <==> (exists e :: e in entries && e.0 == name)
  {
    var archive := Members(entries, epoch);
    if m :| m in archive && m.name == name {
      var i :| 0 <= i < |archive| && archive[i] == m;
      assert entries[i] in entries;
    }
    if e :| e in entries && e.0 == name {
      var i :| 0 <= i < |entries| && entries[i] == e;
      assert archive[i] in archive;
    }
  }

  lemma ArchiveNames(entries: seq<Entry>, epoch: int, name: string)
    requires NormalEntries(entries)
    ensures Bundle(entries, epoch).Ok?
    ensures (exists m :: m in Bundle(entries, epoch).value && m.name == name) <==>
      (exists e :: e in entries && e.0 == name)
  {
    NormalEntriesStay(entries);
    SortPermutes(entries);
    MemberNames(Sort(entries), epoch, name);
    assert forall e :: e in Sort(entries) <==> e in multiset(Sort(entries));
    assert forall e :: e in entries <==> e in multiset(entries);
  }

  // One more security file: other bytes.
  lemma EvidenceChanges(P: Ports, f: Files, g: Files, date: string, name: string)
    requires NormalFiles(f) && NormalFiles(g)
    requires Restored(P, EvidenceEntries(f), date) && Restored(P, EvidenceEntries(g), date)
    requires EvidenceBytes(P, f, date).Ok? && EvidenceBytes(P, g, date).Ok?
    requires name != MANIFEST && name in SecurityFiles(g) && name !in SecurityFiles(f)
    ensures EvidenceBytes(P, f, date).value != EvidenceBytes(P, g, date).value
  {
    var epoch := P.epoch(date).value;
    var a, b := EvidenceEntries(f).value, EvidenceEntries(g).value;
    EvidenceEntriesNormal(f);
    EvidenceEntriesNormal(g);
    EntryNames(f, name);
    EntryNames(g, name);
    ArchiveNames(a, epoch, name);
    ArchiveNames(b, epoch, name);
  }

  // ---- The verdict on a run ----

  lemma FinalGrows(files: Files, out: string, outputs: seq<Output>, text: string, checksums: string, final: Files)
    requires Disk(files, out, outputs, text, checksums, final)
    ensures Grown(files, out, final)
  {
    forall p | p in files ensures p in final && final[p] == files[p] {
      FinalKeeps(files, out, outputs, text, checksums, final, p);
    }
    forall p | p in final && p !in files ensures Generated(out, p) {
      FinalKeys(files, out, outputs, text, checksums, final, p);
    }
  }

  lemma ArchivesGrow(files: Files, out: string, archives: seq<Output>)
    requires !Exists(files, out) && WellPlaced(out, archives)
    ensures Grown(files, out, WriteAll(files, archives))
  {
    forall p ensures p in files ==> p in WriteAll(files, archives) && WriteAll(files, archives)[p] == files[p] {
      ArchivesKeep(files, out, archives, p);
    }
    forall p | p in WriteAll(files, archives) && p !in files ensures Generated(out, p) {
      ArchivesKeep(files, out, archives, p);
    }
  }

  lemma GrownIsNormal(files: Files, out: string, later: Files)
    requires NormalFiles(files) && Grown(files, out, later)
    ensures NormalFiles(later)
  {
    forall p | p in later ensures NormalPath(p) {
      assert p !in files ==> Generated(out, p);
    }
  }

  lemma FourOf(P: Ports, out: string, bindings: map<string, Binding>, archives: seq<Output>)
    requires Archives(P, out, bindings, COMPONENT_ORDER) == Ok(archives)
    ensures |archives| == 4
  {
    ArchivesAre(P, out, bindings, COMPONENT_ORDER);
  }

  lemma SixShape(P: Ports, files: Files, r: Request, run: Run)
    requires Collected(P, files, r, run)
    ensures |run.archives| == 4 && |run.outputs| == 6 && run.outputs[..4] == run.archives
    ensures run.outputs[4] == (EvidencePath(r.out, run.u.version), Product(EVIDENCE_ROLE, run.evidence))
    ensures run.outputs[5] == (RecipePath(r.out, run.u.version), Product(RECIPE_ROLE, run.recipe))
  {
    FourOf(P, r.out, run.u.bindings, run.archives);
  }

  lemma PrefixPlaced(out: string, outputs: seq<Output>, n: nat)
    requires WellPlaced(out, outputs) && n <= |outputs|
    ensures WellPlaced(out, outputs[..n])
  {
    forall i | 0 <= i < n ensures PlacedAt(out, outputs[..n], i) {
      assert PlacedAt(out, outputs, i);
    }
  }

  lemma FourArchives(P: Ports, files: Files, r: Request, run: Run)
    requires Collected(P, files, r, run) && WellPlaced(r.out, run.outputs) && DistinctKeys(run.outputs)
    ensures |run.archives| == 4 && |run.outputs| == 6 && WellPlaced(r.out, run.archives)
    ensures forall o :: o in run.archives ==> o.0 != EvidencePath(r.out, run.u.version)
    ensures run.outputs[4] == (EvidencePath(r.out, run.u.version), Product(EVIDENCE_ROLE, run.evidence))
  {
    SixShape(P, files, r, run);
    PrefixPlaced(r.out, run.outputs, 4);
    BeforeIsDifferent(run.outputs, 4);
  }

  lemma BeforeIsDifferent(outputs: seq<Output>, n: nat)
    requires DistinctKeys(outputs) && n < |outputs|
    ensures forall o :: o in outputs[..n] ==> o.0 != outputs[n].0
  {
  }

  /** The evidence bundle is reproduced exactly when the new directory is outside the evidence. */
  lemma EvidenceAgain(P: Ports, files: Files, r: Request, run: Run)
    requires Proper(P, files, r, run) && RunLossless(P, files, run) && NormalFiles(files) && MANIFEST in files
    ensures !InsideSecurity(r.out) ==> EvidenceBytes(P, run.final, run.u.date) == Ok(run.evidence)
    ensures InsideSecurity(r.out) && EvidenceBytes(P, run.final, run.u.date).Ok? ==>
      EvidenceBytes(P, run.final, run.u.date).value != run.evidence
  {
    var text, written := P.writeJson(run.provenance), WriteAll(files, run.archives);
    ProperDisk(P, files, r, run);
    FourArchives(P, files, r, run);
    FinalGrows(files, r.out, run.outputs, text, run.checksums, run.final);
    ArchivesGrow(files, r.out, run.archives);
    if !InsideSecurity(r.out) {
      OutsideEvidence(files, r.out, run.final);
      OutsideEvidence(files, r.out, written);
    } else if EvidenceBytes(P, run.final, run.u.date).Ok? {
      InsideEvidence(P, files, r, run);
    }
  }

  // Inside the security evidence, the bundle's own name is new to the files it would collect.
  lemma InsideName(P: Ports, files: Files, r: Request, run: Run)
    requires Proper(P, files, r, run) && NormalFiles(files) && MANIFEST in files && InsideSecurity(r.out)
    ensures var name, written := EvidencePath(r.out, run.u.version), WriteAll(files, run.archives);
      && name != MANIFEST && name in SecurityFiles(run.final) && name !in SecurityFiles(written)
      && run.final[name] == run.evidence
      && NormalFiles(written) && NormalFiles(run.final) && MANIFEST in written && MANIFEST in run.final
  {
    var name, written := EvidencePath(r.out, run.u.version), WriteAll(files, run.archives);
    ProperDisk(P, files, r, run);
    FourArchives(P, files, r, run);
    FinalGrows(files, r.out, run.outputs, P.writeJson(run.provenance), run.checksums, run.final);
    ArchivesGrow(files, r.out, run.archives);
    FinalHas(files, r.out, run.outputs, P.writeJson(run.provenance), run.checksums, run.final);
    EvidenceGenerated(r.out, run.u.version);
    GeneratedIsNew(files, r.out, name);
    WriteAllKeeps(files, run.archives, name);
    assert run.outputs[4].0 in run.final;
    assert name[..|r.out| + 1] == r.out + "/";
    assert StartsWith(name, SECURITY_ROOT);
    GrownIsNormal(files, r.out, run.final);
    GrownIsNormal(files, r.out, written);
    assert MANIFEST in run.final && MANIFEST in written;
  }

  lemma InsideEvidence(P: Ports, files: Files, r: Request, run: Run)
    requires Proper(P, files, r, run) && RunLossless(P, files, run) && NormalFiles(files) && MANIFEST in files
    requires InsideSecurity(r.out) && EvidenceBytes(P, run.final, run.u.date).Ok?
    ensures EvidenceBytes(P, run.final, run.u.date).value != run.evidence
  {
    InsideName(P, files, r, run);
    EvidenceChanges(P, WriteAll(files, run.archives), run.final, run.u.date, EvidencePath(r.out, run.u.version));
  }

  lemma SubjectsAgain(P: Ports, files: Files, r: Request, run: Run)
    requires Proper(P, files, r, run)
    ensures var sorted := Sort(run.outputs);
      && CheckSubjects(P.H, run.final, r.out, Objects(Records(P.H, sorted))) == Ok(Records(P.H, sorted))
      && WellPlaced(r.out, sorted) && DistinctRoles(sorted) && forall o :: o in run.outputs ==> o in sorted
  {
    ProperDisk(P, files, r, run);
    FinalHas(files, r.out, run.outputs, P.writeJson(run.provenance), run.checksums, run.final);
    SortedSubjects(r.out, run.outputs, run.final);
    SubjectsAccepted(P.H, run.final, r.out, Sort(run.outputs));
  }

  lemma ChecksumsAgain(P: Ports, files: Files, r: Request, run: Run)
    requires Proper(P, files, r, run) && Sha256Shaped(P.H)
    ensures CheckChecksums(P, run.final, r.out, Records(P.H, Sort(run.outputs))).Ok? <==> OneLineNames(r.out, run.u)
  {
    ProperDisk(P, files, r, run);
    SubjectsAgain(P, files, r, run);
    FinalHas(files, r.out, run.outputs, P.writeJson(run.provenance), run.checksums, run.final);
    ChecksumsAcceptedIff(P, run.final, r.out, run.u, run.evidence, run.recipe, run.outputs);
  }

  lemma SixthSubject(P: Ports, files: Files, r: Request, run: Run)
    requires Proper(P, files, r, run)
    ensures |run.outputs| == 6 && run.outputs[5].1.role == RECIPE_ROLE && run.outputs[5].1.data == run.recipe
    ensures NormalPath(run.outputs[5].0) && run.outputs[5].0 in run.final && run.final[run.outputs[5].0] == run.recipe
  {
    SixShape(P, files, r, run);
    ProperDisk(P, files, r, run);
    FinalHas(files, r.out, run.outputs, P.writeJson(run.provenance), run.checksums, run.final);
    assert PlacedAt(r.out, run.outputs, 5);
  }

  lemma RecipeSources(P: Ports, files: Files, r: Request, run: Run)
    requires Collected(P, files, r, run) && ProperRecipe(r.recipe)
    ensures NormalEntries(run.entries) && DistinctKeys(run.entries)
    ensures BundleBytes(P, run.entries, run.u.date) == Ok(run.recipe)
  {
    RecipeEntriesAre(WriteAll(files, run.archives)[EvidencePath(r.out, run.u.version) := run.evidence], r.recipe);
  }

  lemma RecipeAgain(P: Ports, files: Files, r: Request, run: Run)
    requires Proper(P, files, r, run) && RunLossless(P, files, run) && ProperRecipe(r.recipe)
    ensures CheckRecipe(P, run.final, Get(run.provenance, "build_recipe"), Records(P.H, Sort(run.outputs))).Ok?
  {
    SixthSubject(P, files, r, run);
    RecipeSources(P, files, r, run);
    SubjectsAgain(P, files, r, run);
    ByRoleSorted(P.H, run.outputs, 5);
    DocumentContents(P, run);
    var record, facts := Record(P.H, run.outputs[5]), FileFacts(P.H, run.entries);
    RecipeFields(record, facts);
    RecipeAccepted(P, run.final, Records(P.H, Sort(run.outputs)), run.outputs[5], run.entries, run.u.date,
                   map["bundle" := Obj(record), "files" := Arr(facts)]);
  }

  lemma EvidenceVerdict(P: Ports, files: Files, r: Request, run: Run)
    requires Proper(P, files, r, run)
    ensures CheckEvidence(P, run.final, run.u.date, Records(P.H, Sort(run.outputs))).Ok? <==>
      var again := EvidenceBytes(P, run.final, run.u.date); again.Ok? && P.H(again.value) == P.H(run.evidence)
  {
    ProperDisk(P, files, r, run);
    SubjectsAgain(P, files, r, run);
    FourArchives(P, files, r, run);
    ByRoleSorted(P.H, run.outputs, 4);
  }

  // The verdict on the contents, once the other checks are known to pass.
  lemma ContentsOf(P: Ports, files: Files, out: string, u: Upstream, provenance: Document, raws: seq<Json>,
                   subjects: seq<Document>)
    requires Get(provenance, "subjects") == Arr(raws) && CheckSubjects(P.H, files, out, raws) == Ok(subjects)
    requires CheckIdentities(P, u.bindings, COMPONENT_ORDER).Ok?
    requires CheckArchives(P, u.bindings, subjects, COMPONENT_ORDER).Ok?
    requires CheckRecipe(P, files, Get(provenance, "build_recipe"), subjects).Ok?
    ensures CheckContents(P, files, out, u, provenance).Ok? <==>
      CheckEvidence(P, files, u.date, subjects).Ok? && CheckChecksums(P, files, out, subjects).Ok?
  {
  }

  // Everything but the evidence bundle and the checksum file is always reproduced.
  lemma ContentsVerdict(P: Ports, files: Files, r: Request, run: Run)
    requires Proper(P, files, r, run) && RunLossless(P, files, run) && Sha256Shaped(P.H) && ProperRecipe(r.recipe)
    ensures CheckContents(P, run.final, r.out, run.u, run.provenance).Ok? <==>
      CheckEvidence(P, run.final, run.u.date, Records(P.H, Sort(run.outputs))).Ok? && OneLineNames(r.out, run.u)
  {
    DocumentContents(P, run);
    SubjectsAgain(P, files, r, run);
    UpstreamAgain(P, files, r, run);
    SourcesAccepted(P, files, r, run);
    RecipeAgain(P, files, r, run);
    ChecksumsAgain(P, files, r, run);
    var subjects := Records(P.H, Sort(run.outputs));
    ContentsOf(P, run.final, r.out, run.u, run.provenance, Objects(subjects), subjects);
  }

  lemma VerifyReads(P: Ports, files: Files, r: Request, run: Run)
    requires Proper(P, files, r, run) && RunLossless(P, files, run) && Sha256Shaped(P.H)
    ensures Verify(P, run.final, r.manifestPath, r.securityPath, r.out).Ok?
       <==> CheckContents(P, run.final, r.out, run.u, run.provenance).Ok?
    ensures Verify(P, run.final, r.manifestPath, r.securityPath, r.out).Ok?
        ==> Verify(P, run.final, r.manifestPath, r.securityPath, r.out) == Ok(run.provenance)
  {
    ProperDisk(P, files, r, run);
    FinalHas(files, r.out, run.outputs, P.writeJson(run.provenance), run.checksums, run.final);
    UpstreamAgain(P, files, r, run);
    DocumentClaims(P, run);
  }

  /** The evidence bundle as written and as collected again do not collide. */
  predicate NoEvidenceCollision(P: Ports, r: Request, u: Upstream, final: Files)
  {
    EvidencePath(r.out, u.version) in final && EvidenceBytes(P, final, u.date).Ok? ==>
      NoCollision(P.H, final[EvidencePath(r.out, u.version)], EvidenceBytes(P, final, u.date).value)
  }

  /** The verifier accepts what the generator wrote, and returns its document, exactly when the
      output directory is not inside the security evidence (which the bundle, collected again,
      would then include) and no line break stands in the directory, the version or a commit (which
      would cut rows of the checksum file in two).  One collision assumption, and only inside: the
      two evidence bundles being compared. */
  lemma GeneratedProvenanceVerifies(P: Ports, files: Files, r: Request, final: Files, provenance: Document, u: Upstream)
    requires Sha256Shaped(P.H) && NormalFiles(files) && MANIFEST in files && ProperRecipe(r.recipe)
    requires Generate(P, files, r) == Ok((final, provenance)) && Preflight(P, files, r) == Ok(u) && Placeable(r.out, u)
    requires Lossless(P, files, r, u, final, provenance)
    requires InsideSecurity(r.out) ==> NoEvidenceCollision(P, r, u, final)
    ensures Verify(P, final, r.manifestPath, r.securityPath, r.out).Ok?
       <==> !InsideSecurity(r.out) && OneLineNames(r.out, u)
    ensures Verify(P, final, r.manifestPath, r.securityPath, r.out).Ok?
        ==> Verify(P, final, r.manifestPath, r.securityPath, r.out) == Ok(provenance)
  {
    var run := RunOf(P, files, r);
    LosslessRun(P, files, r, run);
    ProperDisk(P, files, r, run);
    FourArchives(P, files, r, run);
    FinalHas(files, r.out, run.outputs, P.writeJson(run.provenance), run.checksums, run.final);
    assert final[run.outputs[4].0] == run.evidence;
    EvidenceAgain(P, files, r, run);
    EvidenceVerdict(P, files, r, run);
    ContentsVerdict(P, files, r, run);
    VerifyReads(P, files, r, run);
  }
}
