/** A run, down to the bytes, that the generator completes and the verifier rejects: ports that lose
    nothing, a checkout of two files, and an output directory below the security evidence. */
module ProvenanceWitness {
  import opened Text
  import opened CanonicalJson
  import opened Outcome
  import opened Evidence
  import opened Paths
  import opened FilesBundle
  import opened BuildProvenance
  import opened ProvenanceAgreement
  import opened ProvenanceLines
  import opened ProvenanceRoundTrip
  import opened ProvenanceReach

  // ---- Encodings that lose nothing ----

  function WriteJson(d: Document): string
  {
    Print(Obj(d), false)
  }

  ghost function ReadJson(text: string): Result<Document>
  {
    if exists d: Document :: WellFormed(Obj(d)) && WriteJson(d) == text
    then var d: Document :| WellFormed(Obj(d)) && WriteJson(d) == text; Ok(d)
    else Err("no JSON object")
  }

  lemma JsonReadsBack(d: Document)
    requires WellFormed(Obj(d))
    ensures ReadJson(WriteJson(d)) == Ok(d)
  {
    forall e: Document | WellFormed(Obj(e)) && WriteJson(e) == WriteJson(d) ensures e == d {
      CanonicalJsonUnambiguous(Obj(e), Obj(d), false);
    }
  }

  function MemberJson(m: Member): Json
  {
    Arr([Str(m.name), Str(m.data), Bool(m.regular), Int(m.mode), Int(m.uid), Int(m.gid), Int(m.mtime)])
  }

  function ArchiveJson(a: Archive): Json
  {
    Arr(seq(|a|, i requires 0 <= i < |a| => MemberJson(a[i])))
  }

  function Encode(a: Archive): string
  {
    Print(ArchiveJson(a), false)
  }

  ghost function Decode(text: string): Result<Archive>
  {
    if exists a :: Encode(a) == text then var a :| Encode(a) == text; Ok(a) else Err("no archive")
  }

  lemma MemberJsonInjective(m: Member, n: Member)
    requires MemberJson(m) == MemberJson(n)
    ensures m == n
  {
    var x, y := MemberJson(m).items, MemberJson(n).items;
    assert x[0] == y[0] && x[1] == y[1] && x[2] == y[2] && x[3] == y[3] && x[4] == y[4] && x[5] == y[5] && x[6] == y[6];
  }

  lemma ArchiveJsonWellFormed(a: Archive)
    ensures WellFormed(ArchiveJson(a))
  {
    forall x | x in ArchiveJson(a).items ensures WellFormed(x) {
      var i :| 0 <= i < |a| && x == MemberJson(a[i]);
    }
  }

  lemma EncodeInjective(a: Archive, b: Archive)
    requires Encode(a) == Encode(b)
    ensures a == b
  {
    ArchiveJsonWellFormed(a);
    ArchiveJsonWellFormed(b);
    CanonicalJsonUnambiguous(ArchiveJson(a), ArchiveJson(b), false);
    var x, y := ArchiveJson(a).items, ArchiveJson(b).items;
    assert |a| == |x| == |y| == |b|;
    forall i | 0 <= i < |a| ensures a[i] == b[i] {
      assert x[i] == MemberJson(a[i]) && y[i] == MemberJson(b[i]);
      MemberJsonInjective(a[i], b[i]);
    }
  }

  lemma ArchiveReadsBack(a: Archive)
    ensures Decode(Encode(a)) == Ok(a)
  {
    forall b | Encode(b) == Encode(a) ensures b == a {
      EncodeInjective(b, a);
    }
  }

  // ---- A hash with two values ----

  function Zeros(): string
  {
    seq(64, _ => '0')
  }

  function Ones(): string
  {
    seq(64, _ => '1')
  }

  predicate HasMember(a: Archive, name: string)
  {
    exists m :: m in a && m.name == name
  }

  /** Ones for the encoded archives with that member, zeros for every other text. */
  ghost function MemberHash(member: string, text: string): string
  {
    if exists a :: Encode(a) == text && HasMember(a, member) then Ones() else Zeros()
  }

  lemma ArchiveHash(member: string, a: Archive)
    ensures MemberHash(member, Encode(a)) == if HasMember(a, member) then Ones() else Zeros()
  {
    forall b | Encode(b) == Encode(a) ensures b == a {
      EncodeInjective(b, a);
    }
  }

  lemma DocumentHash(member: string, d: Document)
    ensures MemberHash(member, WriteJson(d)) == Zeros()
  {
    forall a ensures Encode(a) != WriteJson(d) {
      assert Encode(a)[0] == '[' && WriteJson(d)[0] == '{';
    }
  }

  ghost function SmallPorts(member: string): Ports
  {
    Ports(t => MemberHash(member, t), t => ReadJson(t), d => WriteJson(d), a => Encode(a), t => Decode(t),
          _ => Ok(0), _ => Ok("origin"), (_, _, _) => Ok(""))
  }

  lemma SmallHashShaped(member: string)
    ensures Sha256Shaped(SmallPorts(member).H)
  {
    assert Hex64(Zeros()) && Hex64(Ones());
  }

  // ---- A checkout to start from ----

  function SmallComponent(): Json
  {
    Obj(map["repository" := Str("origin"), "commit" := Str("c"), "lockfile" := Obj(map["sha256" := Str("l")])])
  }

  function SmallManifest(): Document
  {
    map["kind" := Str(MANIFEST_KIND), "release" := Obj(SmallRelease()),
        "components" := Obj(SmallComponents()),
        "manifest_digest" := Str(Zeros())]
  }

  function SmallSecurity(): Document
  {
    map["kind" := Str(SECURITY_KIND), "release_manifest_digest" := Str(Zeros()), "verdict" := Str("pass"),
        "policy_digest" := Str("p"), "bundle_digest" := Str(Zeros())]
  }

  function SmallCheckout(): Files
  {
    map[MANIFEST := WriteJson(SmallManifest()), SECURITY_BUNDLE := WriteJson(SmallSecurity())]
  }

  function SmallUpstream(): Upstream
  {
    Upstream(Zeros(), Zeros(), Str("p"), "d", "v", map name | name in COMPONENT_ORDER :: SmallBinding())
  }

  function SmallComponents(): Document
  {
    map name | name in COMPONENT_ORDER :: SmallComponent()
  }

  function SmallBinding(): Binding
  {
    Binding("c", "l", "origin")
  }

  lemma SmallComponentBinding(name: string)
    requires name in COMPONENT_ORDER
    ensures BindingOf(SmallComponents(), name) == Ok(SmallBinding())
  {
    assert |"repository"| == 10 && |"commit"| == 6 && |"lockfile"| == 8;
    var fields := SmallComponent().members;
    assert Get(fields, "repository") == Str("origin") && Get(fields, "commit") == Str("c");
    assert Get(fields, "lockfile") == Obj(map["sha256" := Str("l")]);
  }

  lemma {:induction false} SmallBindings(names: seq<string>)
    requires forall name :: name in names ==> name in COMPONENT_ORDER
    ensures Bindings(SmallComponents(), names) == Ok(map name | name in names :: SmallBinding())
  {
    var all := map name | name in names :: SmallBinding();
    if names == [] {
      assert all == map[];
    } else {
      assert names[0] in names;
      SmallComponentBinding(names[0]);
      SmallBindings(names[1..]);
      assert all == (map name | name in names[1..] :: SmallBinding())[names[0] := SmallBinding()];
    }
  }

  lemma {:induction false} SmallIdentities(member: string, names: seq<string>)
    requires forall name :: name in names ==> name in COMPONENT_ORDER
    ensures CheckIdentities(SmallPorts(member), SmallUpstream().bindings, names).Ok?
  {
    if names != [] {
      assert names[0] in names;
      SmallIdentities(member, names[1..]);
    }
  }

  lemma SmallManifestFields()
    ensures var m := SmallManifest();
      && Get(m, "kind") == Str(MANIFEST_KIND) && Get(m, "manifest_digest") == Str(Zeros())
      && Get(m, "release") == Obj(SmallRelease())
      && Get(m, "components") == Obj(SmallComponents())
  {
    assert |"kind"| == 4 && |"release"| == 7 && |"components"| == 10 && |"manifest_digest"| == 15;
  }

  lemma SmallSecurityFields()
    ensures var s := SmallSecurity();
      && Get(s, "kind") == Str(SECURITY_KIND) && Get(s, "release_manifest_digest") == Str(Zeros())
      && Get(s, "verdict") == Str("pass") && Get(s, "policy_digest") == Str("p")
      && Get(s, "bundle_digest") == Str(Zeros())
  {
    assert |"kind"| == 4 && |"release_manifest_digest"| == 23 && |"verdict"| == 7 && |"policy_digest"| == 13;
    assert |"bundle_digest"| == 13 && "policy_digest"[0] == 'p' && "bundle_digest"[0] == 'b';
  }

  lemma UpstreamOf(P: Ports, files: Files, mp: string, sp: string, m: Document, s: Document, release: Document,
                   components: Document, u: Upstream)
    requires ReadDocument(P, files, mp) == Ok(m) && ReadDocument(P, files, sp) == Ok(s)
    requires ManifestDigest(P.H, m) == Ok(u.manifestDigest)
    requires SecurityDigest(P.H, s, u.manifestDigest) == Ok(u.securityDigest)
    requires Get(m, "release") == Obj(release) && Get(m, "components") == Obj(components)
    requires Get(release, "source_date") == Str(u.date) && Get(release, "version") == Str(u.version)
    requires P.epoch(u.date).Ok?
    requires Bindings(components, COMPONENT_ORDER) == Ok(u.bindings) && Get(s, "policy_digest") == u.policyDigest
    ensures ReadUpstream(P, files, mp, sp) == Ok(u)
  {
  }

  lemma PreflightOf(P: Ports, files: Files, r: Request, u: Upstream)
    requires r.clean && r.expected == None && u.policyDigest.Str? && !Exists(files, r.out)
    requires ReadUpstream(P, files, r.manifestPath, r.securityPath) == Ok(u)
    requires CheckIdentities(P, u.bindings, COMPONENT_ORDER).Ok?
    ensures Preflight(P, files, r) == Ok(u)
  {
  }

  lemma SmallPathsNormal()
    ensures NormalPath(MANIFEST) && NormalPath(SECURITY_BUNDLE)
  {
    PartsArePlain();
    FileNames();
    Nested("artifacts", "release", "release-manifest.json");
    SecurityDirectory();
    NormalChild(SECURITY_DIRECTORY, "security-evidence-bundle.json");
    ManifestPath();
    BundlePath();
  }

  lemma FileNames()
    ensures CleanPart("release-manifest.json") && CleanPart("security-evidence-bundle.json")
    ensures "release-manifest.json" != ".." && "security-evidence-bundle.json" != ".."
  {
    assert |"release-manifest.json"| == 21 && |"security-evidence-bundle.json"| == 29;
  }

  lemma ManifestPath()
    ensures MANIFEST == "artifacts" + "/" + "release" + "/" + "release-manifest.json"
  {
  }

  lemma BundleBelowRoot()
    ensures SECURITY_BUNDLE == SECURITY_ROOT + "security-evidence-bundle.json"
  {
  }

  lemma BundlePath()
    ensures SECURITY_BUNDLE == SECURITY_DIRECTORY + "/" + "security-evidence-bundle.json"
  {
    BundleBelowRoot();
    SecurityParts();
  }

  lemma BundleIsSecurity()
    ensures StartsWith(SECURITY_BUNDLE, SECURITY_ROOT)
  {
    BundleBelowRoot();
    StartsSelf(SECURITY_ROOT, "security-evidence-bundle.json");
  }

  lemma StartsSelf(head: string, tail: string)
    ensures StartsWith(head + tail, head)
  {
    assert (head + tail)[..|head|] == head;
  }

  lemma TwoNormalFiles(files: Files, a: string, b: string)
    requires files.Keys == {a, b} && NormalPath(a) && NormalPath(b)
    ensures NormalFiles(files)
  {
    forall p | p in files ensures NormalPath(p) {
      assert p in {a, b};
    }
  }

  lemma TwoFilesSupplied(P: Ports, files: Files, r: Request, u: Upstream, b: string)
    requires MANIFEST in files && b in files && NormalFiles(files) && StartsWith(b, SECURITY_ROOT) && r.recipe == []
    requires forall name :: name in COMPONENT_ORDER ==> SourceArchive(P, u.bindings, name).Ok?
    ensures Supplied(P, files, r, u)
  {
    assert b in SecurityFiles(files);
  }

  // ---- Reading the checkout ----

  lemma AllText(d: Document)
    requires forall k :: k in d ==> d[k].Str?
    ensures WellFormed(Obj(d))
  {
  }

  lemma SmallComponentsPrint()
    ensures WellFormed(Obj(SmallComponents()))
  {
    AllText(map["sha256" := Str("l")]);
    var fields := SmallComponent().members;
    forall k | k in fields ensures WellFormed(fields[k]) {
      assert fields[k].Str? || fields[k] == Obj(map["sha256" := Str("l")]);
    }
    assert forall k | k in SmallComponents() :: SmallComponents()[k] == SmallComponent();
  }

  lemma SmallManifestPrints()
    ensures WellFormed(Obj(SmallManifest()))
  {
    SmallComponentsPrint();
    AllText(SmallRelease());
    forall k | k in SmallManifest() ensures WellFormed(SmallManifest()[k]) {
      assert SmallManifest()[k].Str? || SmallManifest()[k] in [Obj(SmallRelease()), Obj(SmallComponents())];
    }
  }

  lemma TwoDocuments(a: string, b: string, x: string, y: string)
    requires a != b
    ensures var files: Files := map[a := x, b := y]; a in files && b in files && files[a] == x && files[b] == y
  {
  }

  lemma DocumentRead(member: string, files: Files, path: string, d: Document)
    requires path in files && files[path] == WriteJson(d) && WellFormed(Obj(d))
    ensures ReadDocument(SmallPorts(member), files, path) == Ok(d)
  {
    JsonReadsBack(d);
  }

  lemma PathsDiffer()
    ensures MANIFEST != SECURITY_BUNDLE
  {
    assert |MANIFEST| != |SECURITY_BUNDLE|;
  }

  lemma SmallFiles()
    ensures MANIFEST in SmallCheckout() && SmallCheckout()[MANIFEST] == WriteJson(SmallManifest())
    ensures SECURITY_BUNDLE in SmallCheckout() && SmallCheckout()[SECURITY_BUNDLE] == WriteJson(SmallSecurity())
  {
    PathsDiffer();
    TwoDocuments(MANIFEST, SECURITY_BUNDLE, WriteJson(SmallManifest()), WriteJson(SmallSecurity()));
  }

  lemma SmallReads(member: string)
    ensures ReadDocument(SmallPorts(member), SmallCheckout(), MANIFEST) == Ok(SmallManifest())
    ensures ReadDocument(SmallPorts(member), SmallCheckout(), SECURITY_BUNDLE) == Ok(SmallSecurity())
  {
    SmallManifestPrints();
    SmallSecurityPrints();
    SmallFiles();
    DocumentRead(member, SmallCheckout(), MANIFEST, SmallManifest());
    DocumentRead(member, SmallCheckout(), SECURITY_BUNDLE, SmallSecurity());
  }

  lemma SmallSecurityPrints()
    ensures WellFormed(Obj(SmallSecurity()))
  {
    AllText(SmallSecurity());
  }

  lemma ZeroDigest(member: string, d: Document, field: string)
    requires Get(d, field) == Str(Zeros())
    ensures VerifySelfDigest(SmallPorts(member).H, d, field) == Ok(Zeros())
  {
    DocumentHash(member, d - {field});
    assert Hex64(Zeros());
  }

  lemma ManifestDigestOf(H: Hash, m: Document, digest: string)
    requires Get(m, "kind") == Str(MANIFEST_KIND) && VerifySelfDigest(H, m, "manifest_digest") == Ok(digest)
    ensures ManifestDigest(H, m) == Ok(digest)
  {
  }

  lemma SecurityDigestOf(H: Hash, s: Document, manifestDigest: string, digest: string)
    requires Get(s, "kind") == Str(SECURITY_KIND) && Get(s, "release_manifest_digest") == Str(manifestDigest)
    requires VerifySelfDigest(H, s, "bundle_digest") == Ok(digest) && Get(s, "verdict") == Str("pass")
    ensures SecurityDigest(H, s, manifestDigest) == Ok(digest)
  {
  }

  lemma SmallDigests(member: string)
    ensures ManifestDigest(SmallPorts(member).H, SmallManifest()) == Ok(Zeros())
    ensures SecurityDigest(SmallPorts(member).H, SmallSecurity(), Zeros()) == Ok(Zeros())
  {
    SmallManifestFields();
    SmallSecurityFields();
    ZeroDigest(member, SmallManifest(), "manifest_digest");
    ZeroDigest(member, SmallSecurity(), "bundle_digest");
    ManifestDigestOf(SmallPorts(member).H, SmallManifest(), Zeros());
    SecurityDigestOf(SmallPorts(member).H, SmallSecurity(), Zeros(), Zeros());
  }

  function SmallRelease(): Document
  {
    map["source_date" := Str("d"), "version" := Str("v")]
  }

  lemma SmallReleaseFields()
    ensures Get(SmallRelease(), "source_date") == Str("d") && Get(SmallRelease(), "version") == Str("v")
  {
    assert |"source_date"| == 11 && |"version"| == 7;
  }

  lemma SmallUpstreamRead(member: string)
    ensures ReadUpstream(SmallPorts(member), SmallCheckout(), MANIFEST, SECURITY_BUNDLE) == Ok(SmallUpstream())
  {
    UpstreamOf(SmallPorts(member), SmallCheckout(), MANIFEST, SECURITY_BUNDLE, SmallManifest(), SmallSecurity(),
               SmallRelease(), SmallComponents(), SmallUpstream()) by {
      SmallReads(member);
      SmallDigests(member);
      SmallManifestFields();
      SmallSecurityFields();
      SmallReleaseFields();
      SmallBindings(COMPONENT_ORDER);
    }
  }

  function SmallRequest(out: string): Request
  {
    Request(MANIFEST, SECURITY_BUNDLE, out, None, true, [])
  }

  lemma SmallSources(member: string, name: string)
    requires name in COMPONENT_ORDER
    ensures SourceArchive(SmallPorts(member), SmallUpstream().bindings, name).Ok?
  {
  }

  lemma SmallFilesNormal()
    ensures NormalFiles(SmallCheckout())
  {
    SmallPathsNormal();
    TwoNormalFiles(SmallCheckout(), MANIFEST, SECURITY_BUNDLE);
  }

  lemma SmallSupplied(member: string, out: string)
    ensures Supplied(SmallPorts(member), SmallCheckout(), SmallRequest(out), SmallUpstream())
  {
    SmallFilesNormal();
    BundleIsSecurity();
    forall name | name in COMPONENT_ORDER
      ensures SourceArchive(SmallPorts(member), SmallUpstream().bindings, name).Ok?
    {
      SmallSources(member, name);
    }
    TwoFilesSupplied(SmallPorts(member), SmallCheckout(), SmallRequest(out), SmallUpstream(), SECURITY_BUNDLE);
  }

  lemma SmallPreflight(member: string, out: string)
    requires !Exists(SmallCheckout(), out)
    ensures Preflight(SmallPorts(member), SmallCheckout(), SmallRequest(out)) == Ok(SmallUpstream())
  {
    SmallUpstreamRead(member);
    SmallIdentities(member, COMPONENT_ORDER);
    PreflightOf(SmallPorts(member), SmallCheckout(), SmallRequest(out), SmallUpstream());
  }

  // ---- The run loses nothing ----

  lemma AnythingRestored(member: string, entries: Result<seq<Entry>>, date: string)
    ensures Restored(SmallPorts(member), entries, date)
  {
    if entries.Ok? && Bundle(entries.value, 0).Ok? { ArchiveReadsBack(Bundle(entries.value, 0).value); }
  }

  lemma ObjectsPrint(docs: seq<Document>)
    requires forall d :: d in docs ==> WellFormed(Obj(d))
    ensures WellFormed(Arr(Objects(docs)))
  {
    forall x | x in Objects(docs) ensures WellFormed(x) {
      var i :| 0 <= i < |docs| && x == Obj(docs[i]);
      assert docs[i] in docs;
    }
  }

  lemma RecordPrints(H: Hash, o: Output)
    ensures WellFormed(Obj(Record(H, o)))
  {
  }

  lemma SubjectsPrint(H: Hash, outputs: seq<Output>)
    ensures WellFormed(Arr(Objects(Records(H, outputs))))
  {
    forall d | d in Records(H, outputs) ensures WellFormed(Obj(d)) {
      var i :| 0 <= i < |outputs| && d == Record(H, outputs[i]);
      RecordPrints(H, outputs[i]);
    }
    ObjectsPrint(Records(H, outputs));
  }

  lemma FactPrints(H: Hash, e: Entry)
    ensures WellFormed(FileFact(H, e))
  {
  }

  lemma FactsPrint(H: Hash, entries: seq<Entry>)
    ensures WellFormed(Arr(FileFacts(H, entries)))
  {
    forall x | x in FileFacts(H, entries) ensures WellFormed(x) {
      var i :| 0 <= i < |entries| && x == FileFact(H, entries[i]);
      FactPrints(H, entries[i]);
    }
  }

  lemma BindingPrints(b: Binding)
    ensures WellFormed(BindingJson(b))
  {
  }

  lemma BindingsPrint(bindings: map<string, Binding>)
    ensures WellFormed(BindingsJson(bindings))
  {
    var d := BindingsJson(bindings).members;
    forall k | k in d ensures WellFormed(d[k]) {
      BindingPrints(bindings[k]);
    }
  }

  lemma RootsPrint(u: Upstream)
    requires WellFormed(u.policyDigest)
    ensures WellFormed(UpstreamRoots(u))
  {
    var m: Document := map["digest" := Str(u.manifestDigest), "path" := Str(MANIFEST)];
    var s: Document := map["digest" := Str(u.securityDigest), "path" := Str(SECURITY_BUNDLE),
                           "policy_digest" := u.policyDigest];
    AllText(m);
    assert WellFormed(Obj(s)) by { assert forall k | k in s :: s[k].Str? || s[k] == u.policyDigest; }
    var d := UpstreamRoots(u).members;
    assert forall k | k in d :: d[k] == Obj(m) || d[k] == Obj(s);
  }

  lemma AttestationPrints()
    ensures WellFormed(Attestation())
  {
    AllText(Attestation().members);
  }

  lemma RecipePrints(recipe: Document, facts: seq<Json>)
    requires WellFormed(Obj(recipe)) && WellFormed(Arr(facts))
    ensures WellFormed(Obj(map["bundle" := Obj(recipe), "files" := Arr(facts)]))
  {
  }

  lemma BodyPrints(u: Upstream, subjects: seq<Document>, recipe: Document, facts: seq<Json>)
    requires WellFormed(u.policyDigest) && WellFormed(Arr(Objects(subjects)))
    requires WellFormed(Obj(recipe)) && WellFormed(Arr(facts))
    ensures WellFormed(Obj(Body(u, subjects, recipe, facts)))
  {
    BindingsPrint(u.bindings);
    RootsPrint(u);
    AttestationPrints();
    RecipePrints(recipe, facts);
    var d := Body(u, subjects, recipe, facts);
    forall k | k in d ensures WellFormed(d[k]) {
      assert d[k].Str? || d[k] in [Attestation(), Obj(map["bundle" := Obj(recipe), "files" := Arr(facts)]),
                                   BindingsJson(u.bindings), Arr(Objects(subjects)), UpstreamRoots(u)];
    }
  }

  lemma ProvenancePrints(H: Hash, u: Upstream, outputs: seq<Output>, entries: seq<Entry>)
    requires outputs != [] && WellFormed(u.policyDigest)
    ensures WellFormed(Obj(Provenance(H, u, outputs, entries)))
  {
    var subjects, recipe, facts := Records(H, Sort(outputs)), Record(H, outputs[|outputs| - 1]), FileFacts(H, entries);
    SubjectsPrint(H, Sort(outputs));
    RecordPrints(H, outputs[|outputs| - 1]);
    FactsPrint(H, entries);
    BodyPrints(u, subjects, recipe, facts);
    SealedWellFormed(H, Body(u, subjects, recipe, facts), "provenance_digest");
  }

  lemma SmallLossless(member: string, out: string, run: Run)
    requires Finished(SmallPorts(member), SmallCheckout(), SmallRequest(out), run) && run.u == SmallUpstream()
    ensures Lossless(SmallPorts(member), SmallCheckout(), SmallRequest(out), run.u, run.final, run.provenance)
  {
    var P := SmallPorts(member);
    ProvenancePrints(P.H, run.u, run.outputs, run.entries);
    JsonReadsBack(run.provenance);
    EverythingRestored(member, SmallCheckout(), SmallRequest(out), run.u, run.final);
  }

  lemma EverythingRestored(member: string, files: Files, r: Request, u: Upstream, final: Files)
    ensures Restored(SmallPorts(member), EvidenceEntries(final), u.date)
    ensures forall entries {:trigger Restored(SmallPorts(member), entries, u.date)} ::
      Restored(SmallPorts(member), entries, u.date)
  {
    forall entries ensures Restored(SmallPorts(member), entries, u.date) {
      AnythingRestored(member, entries, u.date);
    }
  }

  // ---- The two evidence bundles have different digests ----

  lemma SmallEvidenceHash(member: string, files: Files)
    requires NormalFiles(files) && MANIFEST in files && member != MANIFEST
    ensures EvidenceBytes(SmallPorts(member), files, "d").Ok?
    ensures MemberHash(member, EvidenceBytes(SmallPorts(member), files, "d").value)
         == if member in SecurityFiles(files) then Ones() else Zeros()
  {
    var entries := EvidenceEntries(files).value;
    EvidenceEntriesNormal(files);
    EntryNames(files, member);
    ArchiveNames(entries, 0, member);
    ArchiveHash(member, Bundle(entries, 0).value);
  }

  lemma DifferentHashes()
    ensures Zeros() != Ones()
  {
    assert Zeros()[0] == '0' && Ones()[0] == '1';
  }

  lemma SmallNoCollision(out: string, run: Run)
    requires var P := SmallPorts(EvidencePath(out, "v")); Proper(P, SmallCheckout(), SmallRequest(out), run)
    requires InsideSecurity(out) && run.u == SmallUpstream()
    ensures NoEvidenceCollision(SmallPorts(EvidencePath(out, "v")), SmallRequest(out), SmallUpstream(), run.final)
  {
    var member, files := EvidencePath(out, "v"), SmallCheckout();
    var P, r := SmallPorts(member), SmallRequest(out);
    SmallFilesNormal();
    InsideName(P, files, r, run);
    SmallEvidenceHash(member, WriteAll(files, run.archives));
    SmallEvidenceHash(member, run.final);
    DifferentHashes();
  }

  lemma SmallPlaceable(out: string)
    requires NormalPath(out)
    ensures Placeable(out, SmallUpstream())
  {
    assert Plain("v") && Plain("c");
  }

  lemma SmallGenerates(member: string, out: string)
    requires NormalPath(out) && !Exists(SmallCheckout(), out)
    ensures Generate(SmallPorts(member), SmallCheckout(), SmallRequest(out)).Ok?
    ensures Preflight(SmallPorts(member), SmallCheckout(), SmallRequest(out)) == Ok(SmallUpstream())
    ensures Placeable(out, SmallUpstream())
  {
    SmallPreflight(member, out);
    SmallSupplied(member, out);
    SmallPlaceable(out);
    GenerateSucceeds(SmallPorts(member), SmallCheckout(), SmallRequest(out), SmallUpstream());
  }

  lemma SmallRun(out: string) returns (run: Run)
    requires NormalPath(out) && !Exists(SmallCheckout(), out) && InsideSecurity(out)
    ensures var member := EvidencePath(out, "v"); var P, r := SmallPorts(member), SmallRequest(out);
      && Generate(P, SmallCheckout(), r) == Ok((run.final, run.provenance))
      && Lossless(P, SmallCheckout(), r, SmallUpstream(), run.final, run.provenance)
      && NoEvidenceCollision(P, r, SmallUpstream(), run.final)
  {
    var member := EvidencePath(out, "v");
    SmallGenerates(member, out);
    run := RunOf(SmallPorts(member), SmallCheckout(), SmallRequest(out));
    SmallLossless(member, out, run);
    SmallNoCollision(out, run);
  }

  /** A concrete checkout of two files, under lossless encodings and a hash that tells the two bundles
      apart: a run below the security evidence that generates, and that the verifier rejects. */
  lemma SmallRunIsRejected() returns (P: Ports, r: Request, final: Files, provenance: Document)
    ensures Sha256Shaped(P.H) && InsideSecurity(r.out)
    ensures Generate(P, SmallCheckout(), r) == Ok((final, provenance))
    ensures Lossless(P, SmallCheckout(), r, SmallUpstream(), final, provenance)
    ensures NoEvidenceCollision(P, r, SmallUpstream(), final)
    ensures Verify(P, final, r.manifestPath, r.securityPath, r.out).Err?
  {
    var out := FreshInside(SmallCheckout());
    var member := EvidencePath(out, "v");
    P, r := SmallPorts(member), SmallRequest(out);
    var run := SmallRun(out);
    final, provenance := run.final, run.provenance;
    SmallGenerates(member, out);
    SmallHashShaped(member);
    SmallFilesNormal();
    GeneratedProvenanceVerifies(P, SmallCheckout(), r, final, provenance, SmallUpstream());
  }

  lemma NormalX()
    ensures NormalPath("x")
  {
    assert CleanPart("x") && "x" != "..";
    NormalLeaf("x");
  }

  lemma NothingAtX()
    ensures !Exists(SmallCheckout(), "x") && !InsideSecurity("x")
  {
    assert MANIFEST[0] == 'a' && SECURITY_BUNDLE[0] == 'a' && |MANIFEST| > 1 && |SECURITY_BUNDLE| > 1;
    assert ("x" + "/")[0] == 'x' && SECURITY_ROOT[0] == 'a';
  }

  lemma NamesOneLine(name: string)
    requires name in COMPONENT_ORDER
    ensures Checksums.OneLine(name)
  {
    assert Checksums.OneLine("governance");
    assert Checksums.OneLine("policy_model_router");
    assert Checksums.OneLine("multi_agent_credit_desk");
    assert Checksums.OneLine("a2a_otel_kit");
  }

  lemma SmallStem(name: string)
    requires Checksums.OneLine(name)
    ensures Checksums.OneLine(Stem(name, "c"))
  {
    OneLineJoins(name, "-");
    OneLineJoins(name + "-", "c");
  }

  lemma SmallNamesOneLine()
    ensures OneLineNames("x", SmallUpstream())
  {
    forall name | name in COMPONENT_ORDER ensures Checksums.OneLine(Stem(name, "c")) {
      NamesOneLine(name);
      SmallStem(name);
    }
  }

  /** The same checkout built outside the security evidence: the verifier returns the document. */
  lemma SmallRunIsAccepted() returns (P: Ports, r: Request, final: Files, provenance: Document)
    ensures Sha256Shaped(P.H) && r.out == "x" && Generate(P, SmallCheckout(), r) == Ok((final, provenance))
    ensures Verify(P, final, r.manifestPath, r.securityPath, r.out) == Ok(provenance)
  {
    P, r := SmallPorts(""), SmallRequest("x");
    NothingAtX();
    NormalX();
    SmallGenerates("", "x");
    var run := RunOf(P, SmallCheckout(), r);
    final, provenance := run.final, run.provenance;
    SmallLossless("", "x", run);
    SmallHashShaped("");
    SmallFilesNormal();
    SmallNamesOneLine();
    GeneratedProvenanceVerifies(P, SmallCheckout(), r, final, provenance, SmallUpstream());
  }
}
