/** Line breaks in the names that make up the generated paths: the generator accepts them, the
    checksum file does not survive them. */
module ProvenanceLines {
  import opened Text
  import opened Outcome
  import opened Evidence
  import opened Checksums
  import opened BrokenRows
  import opened BuildProvenance
  import opened ProvenanceAgreement

  /** Output directory, version and the commits' beginnings are free of line breaks. */
  ghost predicate OneLineNames(out: string, u: Upstream)
  {
    && OneLine(out) && OneLine(u.version)
    && forall name :: name in COMPONENT_ORDER && name in u.bindings ==> OneLine(Stem(name, u.bindings[name].commit))
  }

  lemma OneLineJoins(a: string, b: string)
    ensures OneLine(a + b) <==> OneLine(a) && OneLine(b)
  {
    if OneLine(a + b) {
      assert forall c | c in a :: c in a + b;
      assert forall c | c in b :: c in a + b;
    }
  }

  lemma LiteralsOneLine()
    ensures OneLine("/release-evidence-") && OneLine("/build-recipe-") && OneLine(".tar.gz")
    ensures OneLine("/sources/") && OneLine("/release-build-provenance.json")
  {
  }

  lemma Regroup(out: string, a: string, b: string, c: string, d: string)
    ensures out + a + (b + c + d) == out + (a + b) + c + d
    ensures out + a + b + (c + d) == out + (a + b) + c + d
  {
  }

  lemma EvidenceForm(out: string, version: string)
    ensures EvidencePath(out, version) == out + "/release-evidence-" + version + ".tar.gz"
  {
    Regroup(out, "/", "release-evidence-", version, ".tar.gz");
    assert "/" + "release-evidence-" == "/release-evidence-";
  }

  lemma RecipeForm(out: string, version: string)
    ensures RecipePath(out, version) == out + "/build-recipe-" + version + ".tar.gz"
  {
    Regroup(out, "/", "build-recipe-", version, ".tar.gz");
    assert "/" + "build-recipe-" == "/build-recipe-";
  }

  lemma ArchiveForm(out: string, name: string, commit: string)
    ensures ArchivePath(out, name, commit) == out + "/sources/" + Stem(name, commit) + ".tar.gz"
  {
    Regroup(out, "/sources", "/", Stem(name, commit), ".tar.gz");
    assert "/sources" + "/" == "/sources/";
  }

  lemma DocumentForm(out: string)
    ensures ProvenancePath(out) == out + "/release-build-provenance.json"
  {
    assert "/" + ("release-" + "build-provenance.json") == "/release-build-provenance.json";
    assert out + "/" + ("release-" + "build-provenance.json") == out + ("/" + ("release-" + "build-provenance.json"));
  }

  lemma FourJoin(a: string, b: string, c: string, d: string)
    ensures OneLine(a + b + c + d) <==> OneLine(a) && OneLine(b) && OneLine(c) && OneLine(d)
  {
    OneLineJoins(a + b + c, d);
    OneLineJoins(a + b, c);
    OneLineJoins(a, b);
  }

  // ---- On one line ----

  lemma SubjectOneLine(P: Ports, out: string, u: Upstream, evidence: string, recipe: string, outputs: seq<Output>,
                       i: nat)
    requires Archives(P, out, u.bindings, COMPONENT_ORDER).Ok? && i < 6
    requires SixSubjects(out, u, Archives(P, out, u.bindings, COMPONENT_ORDER).value, evidence, recipe, outputs)
    requires OneLineNames(out, u)
    ensures |outputs| == 6 && OneLine(outputs[i].0)
  {
    ArchivesAre(P, out, u.bindings, COMPONENT_ORDER);
    LiteralsOneLine();
    var archives := Archives(P, out, u.bindings, COMPONENT_ORDER).value;
    if i < 4 {
      var name := COMPONENT_ORDER[i];
      assert outputs[i] == archives[i];
      ArchiveForm(out, name, u.bindings[name].commit);
      FourJoin(out, "/sources/", Stem(name, u.bindings[name].commit), ".tar.gz");
    } else if i == 4 {
      EvidenceForm(out, u.version);
      FourJoin(out, "/release-evidence-", u.version, ".tar.gz");
    } else {
      RecipeForm(out, u.version);
      FourJoin(out, "/build-recipe-", u.version, ".tar.gz");
    }
  }

  lemma PathsOneLine(P: Ports, out: string, u: Upstream, evidence: string, recipe: string, outputs: seq<Output>)
    requires Archives(P, out, u.bindings, COMPONENT_ORDER).Ok? && OneLineNames(out, u)
    requires SixSubjects(out, u, Archives(P, out, u.bindings, COMPONENT_ORDER).value, evidence, recipe, outputs)
    ensures OneLinePaths(out, outputs)
  {
    DocumentForm(out);
    LiteralsOneLine();
    OneLineJoins(out, "/release-build-provenance.json");
    ArchivesAre(P, out, u.bindings, COMPONENT_ORDER);
    forall o | o in outputs ensures OneLine(o.0) {
      var i :| 0 <= i < |outputs| && outputs[i] == o;
      SubjectOneLine(P, out, u, evidence, recipe, outputs, i);
    }
  }

  // ---- Broken ----

  /** A break in the output directory: all rows begin with the same piece. */
  lemma BrokenDirectory(rows: seq<Row>, r: Row, s: Row, out: string, x: string, y: string)
    requires r in rows && s in rows && r != s && r.0 == out + x && s.0 == out + y && !OneLine(out)
    requires Hex64(r.1) && Hex64(s.1)
    ensures Parse(RowsText(Sort(rows))).Err?
  {
    HeadPiece(r, out, x);
    HeadPiece(s, out, y);
    var front := out[..FirstLine(out)];
    HeadPieceParses(r.1, front);
    HeadPieceParses(s.1, front);
    SharedPieceRejectsText(rows, r, s, r.1 + "  " + front, s.1 + "  " + front);
  }

  /** A break in the version: the two bundle rows end with the same piece. */
  lemma BrokenVersion(rows: seq<Row>, r: Row, s: Row, version: string, x: string, y: string)
    requires r in rows && s in rows && r != s && !OneLine(version)
    requires r.0 == x + version + ".tar.gz" && s.0 == y + version + ".tar.gz"
    ensures Parse(RowsText(Sort(rows))).Err?
  {
    LiteralsOneLine();
    TailPiece(r, x, version, ".tar.gz");
    TailPiece(s, y, version, ".tar.gz");
    SharedPieceRejectsText(rows, r, s, AfterLastBreak(version) + ".tar.gz", AfterLastBreak(version) + ".tar.gz");
  }

  /** A break in an archive's name: the piece after it is too short to hold a digest. */
  lemma BrokenStem(rows: seq<Row>, r: Row, x: string, stem: string)
    requires r in rows && r.0 == x + stem + ".tar.gz" && !OneLine(stem) && |stem| <= 56
    ensures Parse(RowsText(Sort(rows))).Err?
  {
    LiteralsOneLine();
    TailPiece(r, x, stem, ".tar.gz");
    var piece := AfterLastBreak(stem) + ".tar.gz";
    assert |".tar.gz"| == 7;
    ShortLineIsBad(piece);
    BadPieceRejectsText(rows, r, piece);
  }

  function AllRows(H: Hash, out: string, outputs: seq<Output>, text: string): seq<Row>
  {
    RowsOf(H, outputs) + [(ProvenancePath(out), H(text))]
  }

  lemma RowAt(H: Hash, out: string, outputs: seq<Output>, text: string, i: nat)
    requires i < |outputs|
    ensures (outputs[i].0, H(outputs[i].1.data)) in AllRows(H, out, outputs, text)
  {
    assert AllRows(H, out, outputs, text)[i] == (outputs[i].0, H(outputs[i].1.data));
  }

  lemma StemIsShort(name: string, commit: string)
    requires name in COMPONENT_ORDER
    ensures |Stem(name, commit)| <= 56
  {
    assert |"governance"| == 10 && |"policy_model_router"| == 19 && |"multi_agent_credit_desk"| == 23;
    assert |"a2a_otel_kit"| == 12;
  }

  lemma BrokenBundles(P: Ports, out: string, u: Upstream, evidence: string, recipe: string, outputs: seq<Output>,
                      text: string)
    requires Sha256Shaped(P.H) && |outputs| == 6 && DistinctKeys(outputs) && (!OneLine(out) || !OneLine(u.version))
    requires outputs[4].0 == EvidencePath(out, u.version) && outputs[5].0 == RecipePath(out, u.version)
    ensures Parse(RowsText(Sort(AllRows(P.H, out, outputs, text)))).Err?
  {
    var rows := AllRows(P.H, out, outputs, text);
    var r, s := (outputs[4].0, P.H(outputs[4].1.data)), (outputs[5].0, P.H(outputs[5].1.data));
    RowAt(P.H, out, outputs, text, 4);
    RowAt(P.H, out, outputs, text, 5);
    EvidenceForm(out, u.version);
    RecipeForm(out, u.version);
    if !OneLine(out) {
      Tail(out, "/release-evidence-", u.version, ".tar.gz");
      Tail(out, "/build-recipe-", u.version, ".tar.gz");
      BrokenDirectory(rows, r, s, out, "/release-evidence-" + u.version + ".tar.gz",
                      "/build-recipe-" + u.version + ".tar.gz");
    } else {
      BrokenVersion(rows, r, s, u.version, out + "/release-evidence-", out + "/build-recipe-");
    }
  }

  lemma Tail(a: string, b: string, c: string, d: string)
    ensures a + b + c + d == a + (b + c + d)
  {
  }

  lemma BrokenArchive(P: Ports, out: string, u: Upstream, outputs: seq<Output>, text: string, i: nat)
    requires |outputs| == 6 && i < 4 && COMPONENT_ORDER[i] in u.bindings
    requires outputs[i].0 == ArchivePath(out, COMPONENT_ORDER[i], u.bindings[COMPONENT_ORDER[i]].commit)
    requires !OneLine(Stem(COMPONENT_ORDER[i], u.bindings[COMPONENT_ORDER[i]].commit))
    ensures Parse(RowsText(Sort(AllRows(P.H, out, outputs, text)))).Err?
  {
    var name, commit := COMPONENT_ORDER[i], u.bindings[COMPONENT_ORDER[i]].commit;
    RowAt(P.H, out, outputs, text, i);
    ArchiveForm(out, name, commit);
    StemIsShort(name, commit);
    BrokenStem(AllRows(P.H, out, outputs, text), (outputs[i].0, P.H(outputs[i].1.data)), out + "/sources/",
               Stem(name, commit));
  }

  /** With a line break in any of the names, the checksum text is rejected. */
  lemma BrokenNamesReject(P: Ports, out: string, u: Upstream, evidence: string, recipe: string, outputs: seq<Output>,
                          text: string)
    requires Sha256Shaped(P.H) && Archives(P, out, u.bindings, COMPONENT_ORDER).Ok? && DistinctKeys(outputs)
    requires SixSubjects(out, u, Archives(P, out, u.bindings, COMPONENT_ORDER).value, evidence, recipe, outputs)
    requires !OneLineNames(out, u)
    ensures Parse(RowsText(Sort(AllRows(P.H, out, outputs, text)))).Err?
  {
    ArchivesAre(P, out, u.bindings, COMPONENT_ORDER);
    var archives := Archives(P, out, u.bindings, COMPONENT_ORDER).value;
    if !OneLine(out) || !OneLine(u.version) {
      BrokenBundles(P, out, u, evidence, recipe, outputs, text);
    } else {
      var name :| name in COMPONENT_ORDER && name in u.bindings && !OneLine(Stem(name, u.bindings[name].commit));
      var i :| 0 <= i < |COMPONENT_ORDER| && COMPONENT_ORDER[i] == name;
      assert outputs[i] == archives[i];
      BrokenArchive(P, out, u, outputs, text, i);
    }
  }

  /** The checksum file of a run is accepted exactly when the names are free of line breaks. */
  lemma ChecksumsAcceptedIff(P: Ports, files: Files, out: string, u: Upstream, evidence: string, recipe: string,
                             outputs: seq<Output>)
    requires Sha256Shaped(P.H) && WellPlaced(out, outputs) && DistinctKeys(outputs) && WellPlaced(out, Sort(outputs))
    requires NormalPath(out) && Archives(P, out, u.bindings, COMPONENT_ORDER).Ok?
    requires SixSubjects(out, u, Archives(P, out, u.bindings, COMPONENT_ORDER).value, evidence, recipe, outputs)
    requires ChecksumsPath(out) in files && ProvenancePath(out) in files
    requires ChecksumText(Records(P.H, outputs), (ProvenancePath(out), P.H(files[ProvenancePath(out)])))
          == Ok(files[ChecksumsPath(out)])
    ensures CheckChecksums(P, files, out, Records(P.H, Sort(outputs))).Ok? <==> OneLineNames(out, u)
  {
    if OneLineNames(out, u) {
      PathsOneLine(P, out, u, evidence, recipe, outputs);
      ChecksumsAccepted(P, files, out, outputs);
    } else {
      RecordsRead(P.H, out, outputs);
      BrokenNamesReject(P, out, u, evidence, recipe, outputs, files[ProvenancePath(out)]);
    }
  }
}
