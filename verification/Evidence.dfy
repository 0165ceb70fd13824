/** Self-digested evidence documents.  SHA-256 is a function parameter; statements about
    equal digests carry the assumption that the texts being compared do not collide.
    A text stands for its UTF-8 bytes. */
module Evidence {
  import opened Text
  import opened CanonicalJson
  import opened Outcome

  type Hash = string -> string

  /** The digest of every text is lowercase hexadecimal of length 64. */
  ghost predicate Sha256Shaped(H: Hash)
  {
    forall t :: Hex64(H(t))
  }

  predicate NoCollision(H: Hash, a: string, b: string)
  {
    H(a) == H(b) ==> a == b
  }

  /** dict.get: an absent key reads as None. */
  function Get(doc: Document, key: string): Json
  {
    if key in doc then doc[key] else Null
  }

  /** The members of the object under the key, if there is one. */
  function Under(doc: Document, key: string): Document
  {
    var j := Get(doc, key);
    if j.Obj? then j.members else map[]
  }

  predicate IsHex40(s: string)
  {
    |s| == 40 && forall i :: 0 <= i < 40 ==> IsHex(s[i])
  }

  /** The text a document's self-digest is computed over. */
  function Unsigned(doc: Document, field: string): string
  {
    Print(Obj(doc - {field}), false)
  }

  function SelfDigest(H: Hash, doc: Document, field: string): string
  {
    H(Unsigned(doc, field))
  }

  function Seal(H: Hash, doc: Document, field: string): Document
  {
    doc[field := Str(SelfDigest(H, doc, field))]
  }

  function VerifySelfDigest(H: Hash, doc: Document, field: string): Result<string>
  {
    var observed := Get(doc, field);
    var _ :- Require(observed.Str? && Hex64(observed.text), "digest must be lowercase SHA-256");
    var _ :- Require(SelfDigest(H, doc, field) == observed.text, "self-digest mismatch");
    Ok(observed.text)
  }

  /** A sealed document verifies, whatever stood in the digest field before. */
  lemma SealedDocumentVerifies(H: Hash, doc: Document, field: string)
    requires Sha256Shaped(H)
    ensures VerifySelfDigest(H, Seal(H, doc, field), field) == Ok(SelfDigest(H, doc, field))
    ensures Seal(H, doc, field) - {field} == doc - {field}
  {
    assert Seal(H, doc, field) - {field} == doc - {field};
  }

  lemma SealedWellFormed(H: Hash, doc: Document, field: string)
    requires WellFormed(Obj(doc))
    ensures WellFormed(Obj(Seal(H, doc, field)))
  {
    var sealed := Seal(H, doc, field);
    forall k | k in sealed ensures WellFormed(sealed[k]) {
      assert k == field || (k in doc && sealed[k] == doc[k]);
    }
  }

  lemma UnsignedDetermines(a: Document, b: Document, field: string)
    requires WellFormed(Obj(a)) && WellFormed(Obj(b))
    ensures Unsigned(a, field) == Unsigned(b, field) <==> a - {field} == b - {field}
  {
    CanonicalJsonUnambiguous(Obj(a - {field}), Obj(b - {field}), false);
  }

  lemma FieldRestores(a: Document, b: Document, field: string)
    requires a - {field} == b - {field} && field in a && field in b && a[field] == b[field]
    ensures a == b
  {
    assert a == (a - {field})[field := a[field]];
    assert b == (b - {field})[field := b[field]];
  }

  lemma VerifiedDigest(H: Hash, doc: Document, field: string)
    requires VerifySelfDigest(H, doc, field).Ok?
    ensures field in doc && doc[field] == Str(VerifySelfDigest(H, doc, field).value)
    ensures VerifySelfDigest(H, doc, field).value == H(Unsigned(doc, field))
  {
  }

  /** A self-digest commits to the whole document. */
  lemma SelfDigestCommits(H: Hash, a: Document, b: Document, field: string)
    requires WellFormed(Obj(a)) && WellFormed(Obj(b))
    requires NoCollision(H, Unsigned(a, field), Unsigned(b, field))
    requires VerifySelfDigest(H, a, field).Ok? && VerifySelfDigest(H, b, field).Ok?
    ensures VerifySelfDigest(H, a, field) == VerifySelfDigest(H, b, field) <==> a == b
  {
    VerifiedDigest(H, a, field);
    VerifiedDigest(H, b, field);
    if VerifySelfDigest(H, a, field) == VerifySelfDigest(H, b, field) {
      UnsignedDetermines(a, b, field);
      FieldRestores(a, b, field);
    }
  }
}
