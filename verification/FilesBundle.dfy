/** The deterministic evidence bundle.  An archive is its ordered list of members; the tar
    and gzip encodings around that list are not part of this model. */
module FilesBundle {
  import opened Text
  import opened Outcome
  import opened Paths

  type Entry = (string, string)

  datatype Member = Member(name: string, data: string, regular: bool, mode: nat, uid: nat, gid: nat, mtime: int)

  type Archive = seq<Member>

  // ---- The writer ----

  function NormalizeEntry(entry: Entry): Result<Entry>
  {
    var parts :- SafeRelativePath(entry.0);
    Ok((AsPosix(parts), entry.1))
  }

  function Normalize(entries: seq<Entry>): Result<seq<Entry>>
  {
    if entries == [] then Ok([])
    else
      var entry :- NormalizeEntry(entries[0]);
      var rest :- Normalize(entries[1..]);
      Ok([entry] + rest)
  }

  function MemberFor(entry: Entry, epoch: int): Member
  {
    Member(entry.0, entry.1, true, 420, 0, 0, epoch) // mode 0o644
  }

  function Members(entries: seq<Entry>, epoch: int): Archive
  {
    seq(|entries|, i requires 0 <= i < |entries| => MemberFor(entries[i], epoch))
  }

  function Bundle(entries: seq<Entry>, epoch: int): Result<Archive>
  {
    var normalized :- Normalize(entries);
    Ok(Members(Sort(normalized), epoch))
  }

  method NormalizeEntries(entries: seq<Entry>) returns (r: Result<seq<Entry>>)
    ensures r == Normalize(entries)
  {
    var normalized: seq<Entry> := [];
    assert entries[0..] == entries;
    PrependEnds(normalized, Normalize(entries));
    for i := 0 to |entries|
      invariant Prepend(normalized, Normalize(entries[i..])) == Normalize(entries)
    {
      assert entries[i..][1..] == entries[i + 1..];
      var entry := NormalizeEntry(entries[i]);
      if entry.Err? { return Err(entry.reason); }
      PrependMore(normalized, entry.value, Normalize(entries[i + 1..]));
      normalized := normalized + [entry.value];
    }
    PrependEnds(normalized, Ok([]));
    return Ok(normalized);
  }

  method WriteBundle(entries: seq<Entry>, epoch: int) returns (r: Result<Archive>)
    ensures r == Bundle(entries, epoch)
  {
    var normalized := NormalizeEntries(entries);
    if normalized.Err? { return Err(normalized.reason); }
    var sorted := Sort(normalized.value);
    var archive: Archive := [];
    for i := 0 to |sorted|
      invariant archive == Members(sorted[..i], epoch)
    {
      archive := archive + [MemberFor(sorted[i], epoch)];
    }
    assert sorted[..|sorted|] == sorted;
    return Ok(archive);
  }

  // ---- The reader ----

  function ReadMember(member: Member, seen: map<string, string>): Result<map<string, string>>
  {
    var _ :- Require(member.regular, "unexpected non-file bundle member");
    var parts :- SafeRelativePath(member.name);
    var _ :- Require(AsPosix(parts) !in seen, "duplicate bundle member");
    Ok(seen[AsPosix(parts) := member.data])
  }

  function ReadFrom(archive: Archive, seen: map<string, string>): Result<map<string, string>>
    decreases |archive|
  {
    if archive == [] then Ok(seen)
    else
      var next :- ReadMember(archive[0], seen);
      ReadFrom(archive[1..], next)
  }

  method ReadBundle(archive: Archive) returns (r: Result<map<string, string>>)
    ensures r == ReadFrom(archive, map[])
  {
    var extracted: map<string, string> := map[];
    assert archive[0..] == archive;
    for i := 0 to |archive|
      invariant ReadFrom(archive[i..], extracted) == ReadFrom(archive, map[])
    {
      assert archive[i..][1..] == archive[i + 1..];
      var next := ReadMember(archive[i], extracted);
      if next.Err? { return next; }
      extracted := next.value;
    }
    return Ok(extracted);
  }

  /** The normal form of a member's name. */
  function NameOf(member: Member): string
  {
    AsPosix(Parts(member.name))
  }

  predicate Acceptable(member: Member)
  {
    member.regular && SafeRelativePath(member.name).Ok?
  }

  /** Regular files with safe names, no two the same once normalised, and none seen before. */
  ghost predicate Readable(archive: Archive, seen: set<string>)
  {
    && (forall i :: 0 <= i < |archive| ==> Acceptable(archive[i]) && NameOf(archive[i]) !in seen)
    && forall i, j :: 0 <= i < j < |archive| ==> NameOf(archive[i]) != NameOf(archive[j])
  }

  ghost function Names(archive: Archive): set<string>
  {
    set m | m in archive :: NameOf(m)
  }

  /** What was seen before, and the bytes of each member under its name. */
  ghost predicate Extracts(archive: Archive, seen: map<string, string>, read: map<string, string>)
  {
    && read.Keys == seen.Keys + Names(archive) && (forall k :: k in seen ==> read[k] == seen[k])
    && forall m :: m in archive ==> NameOf(m) in read && read[NameOf(m)] == m.data
  }

  lemma ReadableFirst(archive: Archive, seen: set<string>)
    requires archive != []
    ensures Readable(archive, seen) <==>
      && Acceptable(archive[0]) && NameOf(archive[0]) !in seen
      && Readable(archive[1..], seen + {NameOf(archive[0])})
  {
    assert forall i :: 0 < i < |archive| ==> archive[i] == archive[1..][i - 1];
  }

  lemma ExtractsFirst(archive: Archive, seen: map<string, string>, read: map<string, string>)
    requires archive != [] && NameOf(archive[0]) !in seen
    requires Extracts(archive[1..], seen[NameOf(archive[0]) := archive[0].data], read)
    ensures Extracts(archive, seen, read)
  {
    var first := archive[0];
    assert forall m :: m in archive <==> m == first || m in archive[1..];
    assert Names(archive) == {NameOf(first)} + Names(archive[1..]);
    assert NameOf(first) in seen[NameOf(first) := first.data];
  }

  /** A bundle is read exactly when its members are regular files with safe names, no two the same
      once normalised; and then the result has exactly their bytes under these names. */
  lemma {:induction false} ReadsIff(archive: Archive, seen: map<string, string>)
    ensures ReadFrom(archive, seen).Ok? <==> Readable(archive, seen.Keys)
    ensures ReadFrom(archive, seen).Ok? ==> Extracts(archive, seen, ReadFrom(archive, seen).value)
    decreases |archive|
  {
    if archive != [] {
      ReadableFirst(archive, seen.Keys);
      if Acceptable(archive[0]) && NameOf(archive[0]) !in seen {
        var next := seen[NameOf(archive[0]) := archive[0].data];
        assert next.Keys == seen.Keys + {NameOf(archive[0])};
        ReadsIff(archive[1..], next);
        if ReadFrom(archive[1..], next).Ok? { ExtractsFirst(archive, seen, ReadFrom(archive[1..], next).value); }
      }
    }
  }

  // ---- Round trip ----

  ghost predicate Normal(entries: seq<Entry>)
  {
    forall e :: e in entries ==> NormalizeEntry(e) == Ok(e)
  }

  lemma {:induction false} NormalizedIsNormal(entries: seq<Entry>)
    requires Normalize(entries).Ok?
    ensures Normal(Normalize(entries).value)
  {
    if entries != [] {
      NormalFormIsStable(entries[0].0);
      NormalizedIsNormal(entries[1..]);
    }
  }

  // Reading from `seen` on: the same dictionary, extended by the entries.
  ghost predicate Extends(m: map<string, string>, seen: map<string, string>, entries: seq<Entry>)
  {
    && (forall k :: k in m <==> k in seen || exists e :: e in entries && e.0 == k)
    && (forall k :: k in seen ==> k in m && m[k] == seen[k])
    && (forall e :: e in entries ==> m[e.0] == e.1)
  }

  lemma {:induction false} ReadBack(entries: seq<Entry>, epoch: int, seen: map<string, string>)
    requires Normal(entries)
    ensures ReadFrom(Members(entries, epoch), seen).Ok? <==>
      DistinctKeys(entries) && forall e :: e in entries ==> e.0 !in seen
    ensures ReadFrom(Members(entries, epoch), seen).Ok? ==>
      Extends(ReadFrom(Members(entries, epoch), seen).value, seen, entries)
    decreases |entries|
  {
    if entries != [] {
      var entry := entries[0];
      assert entry in entries;
      assert Members(entries, epoch)[1..] == Members(entries[1..], epoch);
      assert ReadMember(Members(entries, epoch)[0], seen)
          == if entry.0 in seen then Err("duplicate bundle member") else Ok(seen[entry.0 := entry.1]);
      if entry.0 !in seen {
        ReadBack(entries[1..], epoch, seen[entry.0 := entry.1]);
        assert forall e :: e in entries <==> e == entry || e in entries[1..];
      }
    }
  }

  /** Reading a bundle back succeeds exactly when the normalised names are distinct, and then
      yields exactly the normalised name-to-bytes map. */
  lemma BundleRoundTrip(entries: seq<Entry>, epoch: int)
    requires Bundle(entries, epoch).Ok?
    ensures var names := Normalize(entries).value;
      && (ReadFrom(Bundle(entries, epoch).value, map[]).Ok? <==> DistinctKeys(names))
      && (DistinctKeys(names) ==>
            var m := ReadFrom(Bundle(entries, epoch).value, map[]).value;
            && (forall k :: k in m <==> exists e :: e in names && e.0 == k)
            && (forall e :: e in names ==> e.0 in m && m[e.0] == e.1))
  {
    var names := Normalize(entries).value;
    var sorted := Sort(names);
    NormalizedIsNormal(entries);
    SortPermutes(names);
    forall e ensures e in sorted <==> e in names {
      assert e in sorted <==> e in multiset(sorted);
      assert e in names <==> e in multiset(names);
    }
    if DistinctKeys(names) { PermutationKeepsDistinctKeys(names, sorted); }
    if DistinctKeys(sorted) { PermutationKeepsDistinctKeys(sorted, names); }
    ReadBack(sorted, epoch, map[]);
  }

  // ---- What is packed ----

  /** The member of an entry: the normalised name, the bytes, and fixed metadata but for the time. */
  function PackedAs(entry: Entry, epoch: int): Member
  {
    Member(AsPosix(Parts(entry.0)), entry.1, true, 420, 0, 0, epoch) // mode 0o644
  }

  /** One member for each entry and no other, ascending by name. */
  ghost predicate Packs(archive: Archive, entries: seq<Entry>, epoch: int)
  {
    && |archive| == |entries|
    && (forall e :: e in entries ==> PackedAs(e, epoch) in archive)
    && (forall m :: m in archive ==> exists e :: e in entries && m == PackedAs(e, epoch))
    && forall i, j :: 0 <= i < j < |archive| ==> !Less(archive[j].name, archive[i].name)
  }

  /** A bundle is written exactly when every name is a safe relative path. */
  lemma {:induction false} BundlesIff(entries: seq<Entry>, epoch: int)
    ensures Bundle(entries, epoch).Ok? <==> forall i :: 0 <= i < |entries| ==> SafeRelativePath(entries[i].0).Ok?
  {
    if entries != [] {
      BundlesIff(entries[1..], epoch);
      assert forall i :: 0 < i < |entries| ==> entries[i] == entries[1..][i - 1];
    }
  }

  lemma NormalizeFirst(entries: seq<Entry>)
    requires Normalize(entries).Ok? && entries != []
    ensures Normalize(entries[1..]).Ok?
    ensures Normalize(entries).value
         == [(AsPosix(Parts(entries[0].0)), entries[0].1)] + Normalize(entries[1..]).value
  {
  }

  lemma {:induction false} NormalizeAt(entries: seq<Entry>, i: nat)
    requires Normalize(entries).Ok? && i < |entries|
    ensures |Normalize(entries).value| == |entries|
    ensures Normalize(entries).value[i] == (AsPosix(Parts(entries[i].0)), entries[i].1)
  {
    NormalizeFirst(entries);
    if |entries| > 1 { NormalizeAt(entries[1..], if i == 0 then 0 else i - 1); }
  }

  lemma SortedMembers(normalized: seq<Entry>, epoch: int)
    ensures var archive := Members(Sort(normalized), epoch);
      && |archive| == |normalized|
      && (forall m :: m in archive <==> exists e :: e in normalized && m == MemberFor(e, epoch))
      && forall i, j :: 0 <= i < j < |archive| ==> !Less(archive[j].name, archive[i].name)
  {
    var sorted, archive := Sort(normalized), Members(Sort(normalized), epoch);
    SortPermutes(normalized);
    SortSorts(normalized);
    assert |multiset(sorted)| == |sorted| && |multiset(normalized)| == |normalized|;
    forall m ensures m in archive <==> exists e :: e in normalized && m == MemberFor(e, epoch) {
      if m in archive {
        var i :| 0 <= i < |archive| && archive[i] == m;
        assert sorted[i] in multiset(normalized);
      }
      if e :| e in normalized && m == MemberFor(e, epoch) {
        assert e in multiset(sorted);
        var i :| 0 <= i < |sorted| && sorted[i] == e;
        assert archive[i] == m;
      }
    }
  }

  /** The written archive packs exactly the entries it was given. */
  lemma BundlePacks(entries: seq<Entry>, epoch: int)
    requires Bundle(entries, epoch).Ok?
    ensures Packs(Bundle(entries, epoch).value, entries, epoch)
  {
    var normalized := Normalize(entries).value;
    SortedMembers(normalized, epoch);
    if entries != [] { NormalizeAt(entries, 0); }
    forall i | 0 <= i < |entries| ensures MemberFor(normalized[i], epoch) == PackedAs(entries[i], epoch) {
      NormalizeAt(entries, i);
    }
    forall e | e in entries ensures exists n :: n in normalized && MemberFor(n, epoch) == PackedAs(e, epoch) {
      var i :| 0 <= i < |entries| && entries[i] == e;
      assert normalized[i] in normalized;
    }
    forall n | n in normalized ensures exists e :: e in entries && MemberFor(n, epoch) == PackedAs(e, epoch) {
      var i :| 0 <= i < |normalized| && normalized[i] == n;
      assert entries[i] in entries;
    }
  }

  // ---- Determinism ----

  lemma {:induction false} NormalizeAppends(a: seq<Entry>, b: seq<Entry>)
    ensures Normalize(a + b).Ok? <==> Normalize(a).Ok? && Normalize(b).Ok?
    ensures Normalize(a + b).Ok? ==> Normalize(a + b).value == Normalize(a).value + Normalize(b).value
  {
    if a == [] {
      assert [] + b == b;
    } else {
      assert (a + b)[1..] == a[1..] + b;
      NormalizeAppends(a[1..], b);
    }
  }

  lemma {:induction false} NormalizePermutes(a: seq<Entry>, b: seq<Entry>)
    requires multiset(a) == multiset(b)
    ensures Normalize(a).Ok? <==> Normalize(b).Ok?
    ensures Normalize(a).Ok? ==> multiset(Normalize(a).value) == multiset(Normalize(b).value)
  {
    if a == [] {
      assert |multiset(b)| == |b|;
    } else {
      assert a[0] in multiset(b);
      var j :| 0 <= j < |b| && b[j] == a[0];
      TakeOut(a, b, j);
      NormalizePermutes(a[1..], b[..j] + b[j + 1..]);
      NormalizeAppends(b[..j], b[j + 1..]);
      NormalizeAppends(b[..j], [a[0]] + b[j + 1..]);
      NormalizeAppends([a[0]], b[j + 1..]);
      NormalizeAppends([a[0]], a[1..]);
      assert a == [a[0]] + a[1..];
    }
  }

  /** Entry order does not reach the bundle. */
  lemma BundleIgnoresOrder(a: seq<Entry>, b: seq<Entry>, epoch: int)
    requires multiset(a) == multiset(b)
    requires Normalize(a).Ok? ==> DistinctKeys(Normalize(a).value)
    ensures Bundle(a, epoch).Ok? <==> Bundle(b, epoch).Ok?
    ensures Bundle(a, epoch).Ok? ==> Bundle(a, epoch) == Bundle(b, epoch)
  {
    NormalizePermutes(a, b);
    if Normalize(a).Ok? { SortIgnoresOrder(Normalize(a).value, Normalize(b).value); }
  }
}
