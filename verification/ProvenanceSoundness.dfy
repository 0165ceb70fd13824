/** What an accepted provenance document proves about the files beside it. */
module ProvenanceSoundness {
  import opened Text
  import opened CanonicalJson
  import opened Outcome
  import opened Evidence
  import opened Checksums
  import opened FilesBundle
  import opened BuildProvenance

  function MembersOf(raws: seq<Json>): seq<Document>
  {
    seq(|raws|, i requires 0 <= i < |raws| => if raws[i].Obj? then raws[i].members else map[])
  }

  function Subjects(provenance: Document): seq<Document>
  {
    var raws := Get(provenance, "subjects");
    if raws.Arr? then MembersOf(raws.items) else []
  }

  /** The bytes at the path of a record. */
  function FileOf(files: Files, record: Document): Option<string>
  {
    var path := Get(record, "path");
    if path.Str? && Locate(path.text) in files then Some(files[Locate(path.text)]) else None
  }

  /** The bytes of the subject the verifier selects for a role. */
  function SubjectFile(files: Files, provenance: Document, role: string): Option<string>
  {
    var record := ByRole(Subjects(provenance), role);
    if record.Some? then FileOf(files, record.value) else None
  }

  /** The record's file exists and has the recorded digest and size. */
  ghost predicate Backed(H: Hash, files: Files, record: Document)
  {
    var file := FileOf(files, record);
    && file.Some?
    && Get(record, "sha256") == Str(H(file.value)) && Get(record, "size_bytes") == Int(|file.value|)
  }

  lemma CheckedIsBacked(H: Hash, files: Files, out: string, raw: Json)
    requires CheckSubject(H, files, out, raw).Ok?
    ensures raw.Obj? && CheckSubject(H, files, out, raw) == Ok(raw.members) && Backed(H, files, raw.members)
  {
  }

  lemma {:induction false} SubjectsAreBacked(H: Hash, files: Files, out: string, raws: seq<Json>)
    requires CheckSubjects(H, files, out, raws).Ok?
    ensures CheckSubjects(H, files, out, raws).value == MembersOf(raws)
    ensures AllBacked(H, files, MembersOf(raws))
  {
    if raws != [] {
      CheckedIsBacked(H, files, out, raws[0]);
      SubjectsAreBacked(H, files, out, raws[1..]);
      assert MembersOf(raws) == [raws[0].members] + MembersOf(raws[1..]);
    }
  }

  ghost predicate AllBacked(H: Hash, files: Files, records: seq<Document>)
  {
    forall d {:trigger Backed(H, files, d)} :: d in records ==> Backed(H, files, d)
  }

  lemma {:induction false} ByRoleIsMember(subjects: seq<Document>, role: string)
    requires ByRole(subjects, role).Some?
    ensures ByRole(subjects, role).value in subjects && Get(ByRole(subjects, role).value, "role") == Str(role)
  {
    if ByRole(subjects[1..], role).Some? { ByRoleIsMember(subjects[1..], role); }
  }

  /** The selected subject's bytes are the re-derived ones, unless the two collide. */
  ghost predicate Reproduced(H: Hash, files: Files, provenance: Document, role: string, expected: string)
  {
    var file := SubjectFile(files, provenance, role);
    file.Some? && (NoCollision(H, file.value, expected) ==> file.value == expected)
  }

  lemma DigestReproduces(H: Hash, files: Files, provenance: Document, role: string, expected: string)
    requires ByRole(Subjects(provenance), role).Some?
    requires AllBacked(H, files, Subjects(provenance))
    requires Get(ByRole(Subjects(provenance), role).value, "sha256") == Str(H(expected))
    ensures Reproduced(H, files, provenance, role, expected)
  {
    ByRoleIsMember(Subjects(provenance), role);
    assert Backed(H, files, ByRole(Subjects(provenance), role).value);
  }

  lemma {:induction false} ArchivesChecked(P: Ports, bindings: map<string, Binding>, subjects: seq<Document>,
                                           names: seq<string>, name: string)
    requires CheckArchives(P, bindings, subjects, names).Ok? && name in names
    ensures CheckArchive(P, bindings, subjects, name).Ok?
  {
    if name != names[0] { ArchivesChecked(P, bindings, subjects, names[1..], name); }
  }

  ghost predicate ArchiveReproduced(P: Ports, files: Files, bindings: map<string, Binding>, provenance: Document,
                                    name: string)
  {
    var archive := SourceArchive(P, bindings, name);
    archive.Ok? && Reproduced(P.H, files, provenance, ArchiveRole(name), archive.value)
  }

  ghost predicate ArchivesReproduced(P: Ports, files: Files, bindings: map<string, Binding>, provenance: Document)
  {
    forall name :: name in COMPONENT_ORDER ==> ArchiveReproduced(P, files, bindings, provenance, name)
  }

  /** A recorded inventory line: path, digest and size of one member. */
  ghost predicate Lists(H: Hash, raw: Json, path: string, data: string)
  {
    && raw.Obj? && Get(raw.members, "path") == Str(path)
    && Get(raw.members, "sha256") == Str(H(data)) && Get(raw.members, "size_bytes") == Int(|data|)
  }

  lemma {:induction false} RecipeFilesChecked(H: Hash, embedded: map<string, string>, raws: seq<Json>)
    requires CheckRecipeFiles(H, embedded, raws).Ok?
    ensures var paths := CheckRecipeFiles(H, embedded, raws).value;
      |paths| == |raws| && forall i :: 0 <= i < |raws| ==>
        paths[i] in embedded && Lists(H, raws[i], paths[i], embedded[paths[i]])
  {
    if raws != [] { RecipeFilesChecked(H, embedded, raws[1..]); }
  }

  /** The bundle's members and the inventory match exactly: every inventory line describes a
      member, and every member has a line. */
  ghost predicate InventoryMatches(H: Hash, embedded: map<string, string>, raws: seq<Json>)
  {
    && (forall raw :: raw in raws ==> exists p :: p in embedded && Lists(H, raw, p, embedded[p]))
    && (forall p :: p in embedded ==> exists raw :: raw in raws && Lists(H, raw, p, embedded[p]))
  }

  lemma InventoryChecked(H: Hash, embedded: map<string, string>, raws: seq<Json>)
    requires CheckRecipeFiles(H, embedded, raws).Ok?
    requires forall k :: k in embedded ==> k in CheckRecipeFiles(H, embedded, raws).value
    ensures InventoryMatches(H, embedded, raws)
  {
    var paths := CheckRecipeFiles(H, embedded, raws).value;
    RecipeFilesChecked(H, embedded, raws);
    forall raw | raw in raws ensures exists p :: p in embedded && Lists(H, raw, p, embedded[p]) {
      var i :| 0 <= i < |raws| && raws[i] == raw;
      assert Lists(H, raws[i], paths[i], embedded[paths[i]]);
    }
    forall p | p in embedded ensures exists raw :: raw in raws && Lists(H, raw, p, embedded[p]) {
      var i :| 0 <= i < |paths| && paths[i] == p;
      assert raws[i] in raws && Lists(H, raws[i], p, embedded[p]);
    }
  }

  /** The recipe subject is an archive whose members are exactly the recorded files. */
  ghost predicate RecipeMatches(P: Ports, files: Files, provenance: Document)
  {
    var recipe, bundle := Get(provenance, "build_recipe"), SubjectFile(files, provenance, RECIPE_ROLE);
    && bundle.Some? && P.decode(bundle.value).Ok? && ReadFrom(P.decode(bundle.value).value, map[]).Ok?
    && recipe.Obj? && Get(recipe.members, "files").Arr?
    && InventoryMatches(P.H, ReadFrom(P.decode(bundle.value).value, map[]).value, Get(recipe.members, "files").items)
  }

  lemma RecipeChecked(P: Ports, files: Files, provenance: Document)
    requires CheckRecipe(P, files, Get(provenance, "build_recipe"), Subjects(provenance)).Ok?
    ensures RecipeMatches(P, files, provenance)
  {
    var recipe := Get(provenance, "build_recipe");
    var record := ByRole(Subjects(provenance), RECIPE_ROLE).value;
    var embedded := Embedded(P, files, record).value;
    InventoryChecked(P.H, embedded, Get(recipe.members, "files").items);
  }

  /** The checksum file lists, sorted by path, the digests of the subjects and of the
      provenance document itself. */
  ghost predicate ChecksumsMatch(P: Ports, files: Files, out: string, provenance: Document)
  {
    && ChecksumsPath(out) in files && ProvenancePath(out) in files && ReadRecords(Subjects(provenance)).Ok?
    && var rows := ReadRecords(Subjects(provenance)).value + [(ProvenancePath(out), P.H(files[ProvenancePath(out)]))];
       && Parse(files[ChecksumsPath(out)]).Ok?
       && Parse(files[ChecksumsPath(out)]) == Parse(RowsText(Sort(rows)))
       && (RowsOk(rows) && DistinctKeys(rows) ==> Parse(files[ChecksumsPath(out)]) == Ok(Sort(rows)))
  }

  lemma ChecksumsChecked(P: Ports, files: Files, out: string, provenance: Document)
    requires CheckChecksums(P, files, out, Subjects(provenance)).Ok?
    ensures ChecksumsMatch(P, files, out, provenance)
  {
    ChecksumRoundTrip(Subjects(provenance), (ProvenancePath(out), P.H(files[ProvenancePath(out)])));
  }

  lemma ContentsChecked(P: Ports, files: Files, out: string, u: Upstream, provenance: Document)
    requires CheckContents(P, files, out, u, provenance).Ok?
    ensures AllBacked(P.H, files, Subjects(provenance))
    ensures CheckArchives(P, u.bindings, Subjects(provenance), COMPONENT_ORDER).Ok?
    ensures CheckEvidence(P, files, u.date, Subjects(provenance)).Ok?
    ensures CheckRecipe(P, files, Get(provenance, "build_recipe"), Subjects(provenance)).Ok?
    ensures CheckChecksums(P, files, out, Subjects(provenance)).Ok?
  {
    SubjectsAreBacked(P.H, files, out, Get(provenance, "subjects").items);
  }

  /** Accepted contents: the four source archives and the evidence bundle have the re-derived
      bytes, the recipe bundle holds exactly its recorded files, every subject has its recorded
      digest and size, and the checksum file agrees. */
  lemma AcceptedContentsAreReproducible(P: Ports, files: Files, out: string, u: Upstream, provenance: Document)
    requires CheckContents(P, files, out, u, provenance).Ok?
    ensures ArchivesReproduced(P, files, u.bindings, provenance)
    ensures EvidenceBytes(P, files, u.date).Ok?
      && Reproduced(P.H, files, provenance, EVIDENCE_ROLE, EvidenceBytes(P, files, u.date).value)
    ensures AllBacked(P.H, files, Subjects(provenance))
    ensures RecipeMatches(P, files, provenance) && ChecksumsMatch(P, files, out, provenance)
  {
    var subjects := Subjects(provenance);
    ContentsChecked(P, files, out, u, provenance);
    forall name | name in COMPONENT_ORDER ensures ArchiveReproduced(P, files, u.bindings, provenance, name) {
      ArchivesChecked(P, u.bindings, subjects, COMPONENT_ORDER, name);
      DigestReproduces(P.H, files, provenance, ArchiveRole(name), SourceArchive(P, u.bindings, name).value);
    }
    DigestReproduces(P.H, files, provenance, EVIDENCE_ROLE, EvidenceBytes(P, files, u.date).value);
    RecipeChecked(P, files, provenance);
    ChecksumsChecked(P, files, out, provenance);
  }

  /** The same for the verifier as a whole: its result is the self-digested document at the
      provenance path, bound to the manifest and the security bundle it was given. */
  lemma AcceptedProvenanceIsReproducible(P: Ports, files: Files, manifestPath: string, securityPath: string,
                                         out: string)
    returns (u: Upstream, provenance: Document)
    requires Verify(P, files, manifestPath, securityPath, out).Ok?
    ensures ReadUpstream(P, files, manifestPath, securityPath) == Ok(u)
    ensures Verify(P, files, manifestPath, securityPath, out) == Ok(provenance)
    ensures ReadDocument(P, files, ProvenancePath(out)) == Ok(provenance)
    ensures VerifySelfDigest(P.H, provenance, "provenance_digest").Ok? && Claims(provenance, u)
    ensures ArchivesReproduced(P, files, u.bindings, provenance)
    ensures EvidenceBytes(P, files, u.date).Ok?
      && Reproduced(P.H, files, provenance, EVIDENCE_ROLE, EvidenceBytes(P, files, u.date).value)
    ensures RecipeMatches(P, files, provenance) && ChecksumsMatch(P, files, out, provenance)
  {
    u := ReadUpstream(P, files, manifestPath, securityPath).value;
    provenance := ReadDocument(P, files, ProvenancePath(out)).value;
    AcceptedContentsAreReproducible(P, files, out, u, provenance);
  }
}
