/** The generator as it runs: it writes into the checkout step by step, and a failure removes
    the output directory again. */
module Workspace {
  import opened Text
  import opened CanonicalJson
  import opened Outcome
  import opened Checksums
  import opened FilesBundle
  import opened BuildProvenance

  predicate Below(p: string, dir: string) { StartsWith(p, dir + "/") }

  /** shutil.rmtree. */
  function Without(files: Files, dir: string): Files
  {
    map p | p in files && !Below(p, dir) :: files[p]
  }

  /** The same files outside dir, and none but new ones inside. */
  ghost predicate OnlyBelow(before: Files, dir: string, now: Files)
  {
    Without(now, dir) == before
  }

  lemma CleanStart(files: Files, dir: string)
    requires !Exists(files, dir)
    ensures OnlyBelow(files, dir, files)
  {
    forall p | p in files ensures !Below(p, dir) {
    }
  }

  lemma WriteBelow(before: Files, dir: string, now: Files, rest: string, data: string)
    requires OnlyBelow(before, dir, now)
    ensures OnlyBelow(before, dir, now[dir + "/" + rest := data])
  {
    var p := dir + "/" + rest;
    assert p[..|dir| + 1] == dir + "/";
    assert Without(now[p := data], dir) == Without(now, dir);
  }

  lemma ArchivePathBelow(dir: string, name: string, commit: string)
    ensures ArchivePath(dir, name, commit) == dir + "/" + ("sources" + "/" + (Stem(name, commit) + ".tar.gz"))
  {
    assert "/sources" == "/" + "sources";
  }

  lemma ArchivesStep(P: Ports, out: string, bindings: map<string, Binding>, names: seq<string>, i: nat)
    requires i < |names|
    ensures Archives(P, out, bindings, names[i..]) ==
      (var data := SourceArchive(P, bindings, names[i]);
       if data.Err? then Err(data.reason)
       else Prepend([(ArchivePath(out, names[i], bindings[names[i]].commit),
                      Product(ArchiveRole(names[i]), data.value))],
                    Archives(P, out, bindings, names[i + 1..])))
  {
    assert names[i..][1..] == names[i + 1..];
  }

  lemma {:induction false} WriteOneMore(files: Files, outputs: seq<Output>, o: Output)
    ensures WriteAll(files, outputs + [o]) == WriteAll(files, outputs)[o.0 := o.1.data]
    decreases |outputs|
  {
    if outputs == [] {
      assert [o][1..] == [];
    } else {
      assert (outputs + [o])[1..] == outputs[1..] + [o];
      WriteOneMore(files[outputs[0].0 := outputs[0].1.data], outputs[1..], o);
    }
  }

  class Checkout {
    var files: Files

    constructor (files: Files)
      ensures this.files == files
    {
      this.files := files;
    }

    method WriteBytes(path: string, data: string)
      modifies this
      ensures files == old(files)[path := data]
    {
      files := files[path := data];
    }

    method RemoveTree(dir: string)
      modifies this
      ensures files == Without(old(files), dir)
    {
      files := Without(files, dir);
    }

    /** Writes one archive per component; stops at the first that cannot be made. */
    method WriteArchives(P: Ports, out: string, bindings: map<string, Binding>) returns (r: Result<seq<Output>>)
      modifies this
      ensures r.Ok? <==> Archives(P, out, bindings, COMPONENT_ORDER).Ok?
      ensures r.Ok? ==> r == Archives(P, out, bindings, COMPONENT_ORDER) && files == WriteAll(old(files), r.value)
      ensures forall before :: OnlyBelow(before, out, old(files)) ==> OnlyBelow(before, out, files)
    {
      var subjects: seq<Output> := [];
      assert COMPONENT_ORDER[0..] == COMPONENT_ORDER;
      PrependEnds(subjects, Archives(P, out, bindings, COMPONENT_ORDER));
      for i := 0 to |COMPONENT_ORDER|
        invariant files == WriteAll(old(files), subjects)
        invariant Prepend(subjects, Archives(P, out, bindings, COMPONENT_ORDER[i..]))
               == Archives(P, out, bindings, COMPONENT_ORDER)
        invariant forall before :: OnlyBelow(before, out, old(files)) ==> OnlyBelow(before, out, files)
      {
        var name := COMPONENT_ORDER[i];
        ArchivesStep(P, out, bindings, COMPONENT_ORDER, i);
        var data := SourceArchive(P, bindings, name);
        if data.Err? { return Err(data.reason); }
        var path := ArchivePath(out, name, bindings[name].commit);
        var o: Output := (path, Product(ArchiveRole(name), data.value));
        ghost var now := files;
        WriteBytes(path, data.value);
        ArchivePathBelow(out, name, bindings[name].commit);
        forall before | OnlyBelow(before, out, now) ensures OnlyBelow(before, out, files) {
          WriteBelow(before, out, now, "sources" + "/" + (Stem(name, bindings[name].commit) + ".tar.gz"), data.value);
        }
        WriteOneMore(old(files), subjects, o);
        PrependMore(subjects, o, Archives(P, out, bindings, COMPONENT_ORDER[i + 1..]));
        subjects := subjects + [o];
      }
      assert COMPONENT_ORDER[|COMPONENT_ORDER|..] == [];
      PrependEnds(subjects, Ok([]));
      return Ok(subjects);
    }

    /** Archives, then the evidence bundle, then the recipe bundle. */
    method WriteSubjects(P: Ports, r: Request, u: Upstream) returns (made: Result<(seq<Output>, seq<Entry>)>)
      modifies this
      ensures made.Ok? <==> Outputs(P, old(files), r, u).Ok?
      ensures made.Ok? ==> made == Outputs(P, old(files), r, u) && files == WriteAll(old(files), made.value.0)
      ensures forall before :: OnlyBelow(before, r.out, old(files)) ==> OnlyBelow(before, r.out, files)
    {
      var archives := WriteArchives(P, r.out, u.bindings);
      if archives.Err? { return Err(archives.reason); }
      if SecurityFiles(files) == {} { return Err("security evidence directory is missing"); }
      var evidence := EvidenceBytes(P, files, u.date);
      if evidence.Err? { return Err(evidence.reason); }
      ghost var now := files;
      var e: Output := (EvidencePath(r.out, u.version), Product(EVIDENCE_ROLE, evidence.value));
      WriteBytes(e.0, e.1.data);
      WriteOneMore(old(files), archives.value, e);
      forall before | OnlyBelow(before, r.out, now) ensures OnlyBelow(before, r.out, files) {
        WriteBelow(before, r.out, now, "release-evidence-" + u.version + ".tar.gz", e.1.data);
      }
      var entries := RecipeEntries(files, r.recipe);
      if entries.Err? { return Err(entries.reason); }
      var recipe := BundleBytes(P, entries.value, u.date);
      if recipe.Err? { return Err(recipe.reason); }
      now := files;
      var o: Output := (RecipePath(r.out, u.version), Product(RECIPE_ROLE, recipe.value));
      WriteBytes(o.0, o.1.data);
      WriteOneMore(old(files), archives.value + [e], o);
      forall before | OnlyBelow(before, r.out, now) ensures OnlyBelow(before, r.out, files) {
        WriteBelow(before, r.out, now, "build-recipe-" + u.version + ".tar.gz", o.1.data);
      }
      return Ok((archives.value + [e] + [o], entries.value));
    }

    /** Once the output directory has been created, a failure removes it. */
    method ProduceAll(P: Ports, r: Request, u: Upstream) returns (result: Result<Document>)
      requires !Exists(files, r.out)
      modifies this
      ensures result.Ok? <==> Produce(P, old(files), r, u).Ok?
      ensures result.Ok? ==> Produce(P, old(files), r, u) == Ok((files, result.value))
      ensures result.Err? ==> files == old(files)
    {
      CleanStart(files, r.out);
      var made := WriteSubjects(P, r, u);
      if made.Err? {
        RemoveTree(r.out);
        return Err(made.reason);
      }
      var outputs, entries := made.value.0, made.value.1;
      result := WriteDocument(P, r.out, outputs, Provenance(P.H, u, outputs, entries), old(files));
      if result.Err? { RemoveTree(r.out); }
    }

    /** A failed run leaves the checkout as it was; a successful one leaves exactly what
        BuildProvenance.Generate says. */
    method GenerateProvenance(P: Ports, r: Request) returns (result: Result<Document>)
      modifies this
      ensures result.Ok? <==> Generate(P, old(files), r).Ok?
      ensures result.Ok? ==> Generate(P, old(files), r) == Ok((files, result.value))
      ensures result.Err? ==> files == old(files)
    {
      var u := Preflight(P, files, r);
      GenerateSteps(P, files, r);
      if u.Err? { return Err(u.reason); }
      PreflightFacts(P, files, r);
      result := ProduceAll(P, r, u.value);
    }

    method WriteDocument(P: Ports, out: string, outputs: seq<Output>, provenance: Document, ghost before: Files)
      returns (result: Result<Document>)
      requires files == WriteAll(before, outputs) && OnlyBelow(before, out, files)
      modifies this
      ensures result.Ok? <==> Assemble(P, before, out, outputs, provenance).Ok?
      ensures result.Ok? ==> Assemble(P, before, out, outputs, provenance) == Ok((files, result.value))
      ensures OnlyBelow(before, out, files)
    {
      var text := P.writeJson(provenance);
      WriteBelow(before, out, files, "release-" + "build-provenance.json", text);
      WriteBytes(ProvenancePath(out), text);
      var checksums := BuildChecksums(Records(P.H, outputs), (ProvenancePath(out), P.H(files[ProvenancePath(out)])));
      if checksums.Err? { return Err(checksums.reason); }
      WriteBelow(before, out, files, "release-subjects.sha256", checksums.value);
      WriteBytes(ChecksumsPath(out), checksums.value);
      return Ok(provenance);
    }
  }
}
