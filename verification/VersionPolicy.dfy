/** The contract version policy: MAJOR.MINOR versions, their numeric order, the current
    version and the versions each reader must accept. */
module VersionPolicy {
  import opened Text
  import opened Outcome
  import opened Paths

  datatype Status = Current | Supported | Deprecated

  datatype Version = Version(schemaVersion: string, status: Status, model: string, schema: string,
                             examples: seq<string>, readable: seq<string>)

  datatype Policy = Policy(policyVersion: string, contract: string, current: string, versions: seq<Version>)

  type VersionKey = (nat, nat)

  // ---- MAJOR.MINOR ----

  /** 0 or a numeral without a leading zero. */
  predicate Canonical(s: string)
  {
    s != "" && AllDigits(s) && (s[0] == '0' ==> |s| == 1)
  }

  predicate WireVersion(s: string)
  {
    var parts := Split(s, '.');
    |parts| == 2 && Canonical(parts[0]) && Canonical(parts[1])
  }

  function Key(s: string): VersionKey
    requires WireVersion(s)
  {
    var parts := Split(s, '.');
    (ParseNat(parts[0]), ParseNat(parts[1]))
  }

  predicate KeyLess(a: VersionKey, b: VersionKey)
  {
    a.0 < b.0 || (a.0 == b.0 && a.1 < b.1)
  }

  lemma {:induction false} NatTextOfParse(s: string)
    requires Canonical(s)
    ensures NatText(ParseNat(s)) == s
    decreases |s|
  {
    var n := |s| - 1;
    var front := s[..n];
    assert s == front + [s[n]];
    assert DigitChar(DigitValue(s[n])) == s[n];
    if front == "" {
      assert ParseNat(s) == DigitValue(s[n]);
    } else {
      NatTextOfParse(front);
      ParsePositive(front);
      assert ParseNat(s) / 10 == ParseNat(front) && ParseNat(s) % 10 == DigitValue(s[n]);
    }
  }

  lemma {:induction false} ParsePositive(s: string)
    requires Canonical(s) && s[0] != '0'
    ensures ParseNat(s) > 0
    decreases |s|
  {
    if |s| == 1 {
      assert s[..0] == "";
      assert DigitValue(s[0]) > 0;
    } else {
      ParsePositive(s[..|s| - 1]);
    }
  }

  /** Distinct canonical version strings are distinct versions. */
  lemma KeyInjective(a: string, b: string)
    requires WireVersion(a) && WireVersion(b)
    ensures Key(a) == Key(b) <==> a == b
  {
    if Key(a) == Key(b) {
      var p, q := Split(a, '.'), Split(b, '.');
      NatTextOfParse(p[0]);
      NatTextOfParse(p[1]);
      NatTextOfParse(q[0]);
      NatTextOfParse(q[1]);
      assert p == [p[0], p[1]] && q == [q[0], q[1]];
      JoinSplit(a, '.');
      JoinSplit(b, '.');
    }
  }

  // ---- Validation ----

  predicate NoDuplicates<T(==)>(xs: seq<T>)
  {
    forall i, j :: 0 <= i < j < |xs| ==> xs[i] != xs[j]
  }

  function Names(versions: seq<Version>): seq<string>
  {
    seq(|versions|, i requires 0 <= i < |versions| => versions[i].schemaVersion)
  }

  function Models(versions: seq<Version>): seq<string>
  {
    seq(|versions|, i requires 0 <= i < |versions| => versions[i].model)
  }

  function Schemas(versions: seq<Version>): seq<string>
  {
    seq(|versions|, i requires 0 <= i < |versions| => versions[i].schema)
  }

  function AllExamples(versions: seq<Version>): seq<string>
  {
    if versions == [] then [] else versions[0].examples + AllExamples(versions[1..])
  }

  /** The keys are in their sorted order. */
  predicate KeysSorted(versions: seq<Version>)
    requires forall v :: v in versions ==> WireVersion(v.schemaVersion)
  {
    forall i, j :: 0 <= i < j < |versions| ==> !KeyLess(Key(versions[j].schemaVersion), Key(versions[i].schemaVersion))
  }

  function CurrentOnes(versions: seq<Version>): seq<Version>
  {
    if versions == [] then []
    else (if versions[0].status == Current then [versions[0]] else []) + CurrentOnes(versions[1..])
  }

  function Declared(v: Version): set<string> { set r | r in v.readable }

  /** Every candidate of the same major up to v, v included. */
  predicate MustRead(v: Version, candidate: Version)
    requires WireVersion(v.schemaVersion) && WireVersion(candidate.schemaVersion)
  {
    var k, c := Key(v.schemaVersion), Key(candidate.schemaVersion);
    c.0 == k.0 && !KeyLess(k, c)
  }

  function CheckReads(versions: seq<Version>, v: Version): Result<()>
    requires WireVersion(v.schemaVersion) && forall x :: x in versions ==> WireVersion(x.schemaVersion)
  {
    var supported := set x | x in versions :: x.schemaVersion;
    var required := set x | x in versions && MustRead(v, x) :: x.schemaVersion;
    var _ :- Require(Declared(v) <= supported, "references unknown read versions");
    Require(required <= Declared(v), "must read prior same-major versions")
  }

  predicate WellShaped(p: Policy)
  {
    p.versions != [] && forall v :: v in p.versions ==> WireVersion(v.schemaVersion)
  }

  method ValidatePolicy(p: Policy) returns (r: Result<()>)
    requires WellShaped(p)
    ensures r.Ok? <==> Accepted(p)
  {
    if p.policyVersion != "1.0" { return Err("unsupported policy version"); }
    if p.contract != "governance-finding" { return Err("unexpected contract name"); }
    if !NoDuplicates(Names(p.versions)) { return Err("schema versions must be unique"); }
    if !NoDuplicates(Models(p.versions)) { return Err("dedicated model"); }
    if !NoDuplicates(Schemas(p.versions)) { return Err("dedicated snapshot"); }
    if !NoDuplicates(AllExamples(p.versions)) { return Err("dedicated examples"); }
    if !KeysSorted(p.versions) { return Err("schema versions must be ordered numerically"); }
    var newest := p.versions[|p.versions| - 1];
    if p.current != newest.schemaVersion { return Err("current schema version must be the newest version"); }
    var current := CurrentOnes(p.versions);
    if |current| != 1 || current[0].schemaVersion != p.current { return Err("exactly one current version"); }
    for i := 0 to |p.versions|
      invariant forall v :: v in p.versions[..i] ==> CheckReads(p.versions, v).Ok?
    {
      var checked := CheckReads(p.versions, p.versions[i]);
      if checked.Err? {
        assert p.versions[i] in p.versions;
        return Err(checked.reason);
      }
      assert p.versions[..i + 1] == p.versions[..i] + [p.versions[i]];
    }
    assert p.versions[..|p.versions|] == p.versions;
    return Ok(());
  }

  predicate Dedicated(p: Policy)
  {
    && p.policyVersion == "1.0" && p.contract == "governance-finding"
    && NoDuplicates(Models(p.versions)) && NoDuplicates(Schemas(p.versions)) && NoDuplicates(AllExamples(p.versions))
  }

  predicate Accepted(p: Policy)
    requires WellShaped(p)
  {
    && Dedicated(p)
    && NoDuplicates(Names(p.versions)) && KeysSorted(p.versions)
    && p.current == p.versions[|p.versions| - 1].schemaVersion
    && |CurrentOnes(p.versions)| == 1 && CurrentOnes(p.versions)[0].schemaVersion == p.current
    && (forall v :: v in p.versions ==> CheckReads(p.versions, v).Ok?)
  }

  // ---- What acceptance means ----

  ghost predicate StrictlyIncreasing(versions: seq<Version>)
    requires forall v :: v in versions ==> WireVersion(v.schemaVersion)
  {
    forall i, j :: 0 <= i < j < |versions| ==> KeyLess(Key(versions[i].schemaVersion), Key(versions[j].schemaVersion))
  }

  /** Only the last version is current, and it is the declared one. */
  ghost predicate NewestIsCurrent(p: Policy)
    requires WellShaped(p)
  {
    && p.current == p.versions[|p.versions| - 1].schemaVersion
    && forall i :: 0 <= i < |p.versions| ==> (p.versions[i].status == Current <==> i == |p.versions| - 1)
  }

  /** Each version declares only known versions, and reads itself and every earlier one of its major. */
  ghost predicate ReadsBackward(p: Policy)
    requires WellShaped(p)
  {
    forall i :: 0 <= i < |p.versions| ==>
      && (forall r :: r in p.versions[i].readable ==> r in Names(p.versions))
      && (forall j :: 0 <= j <= i && Key(p.versions[j].schemaVersion).0 == Key(p.versions[i].schemaVersion).0
            ==> p.versions[j].schemaVersion in p.versions[i].readable)
  }

  /** Distinct names in sorted order are exactly strictly increasing numeric keys. */
  lemma SortedDistinctIsIncreasing(versions: seq<Version>)
    requires forall v :: v in versions ==> WireVersion(v.schemaVersion)
    ensures NoDuplicates(Names(versions)) && KeysSorted(versions) <==> StrictlyIncreasing(versions)
  {
    var names := Names(versions);
    forall i, j | 0 <= i < j < |versions|
      ensures KeyLess(Key(versions[i].schemaVersion), Key(versions[j].schemaVersion))
         <==> names[i] != names[j] && !KeyLess(Key(versions[j].schemaVersion), Key(versions[i].schemaVersion))
    {
      KeyInjective(versions[i].schemaVersion, versions[j].schemaVersion);
    }
  }

  lemma {:induction false} CurrentOnesAre(versions: seq<Version>)
    ensures forall v :: v in CurrentOnes(versions) <==> v in versions && v.status == Current
  {
    if versions != [] { CurrentOnesAre(versions[1..]); }
  }

  lemma {:induction false} CurrentOnesAppend(a: seq<Version>, v: Version)
    ensures CurrentOnes(a + [v]) == CurrentOnes(a) + if v.status == Current then [v] else []
  {
    if a == [] {
      assert [v][1..] == [];
    } else {
      assert (a + [v])[1..] == a[1..] + [v];
      CurrentOnesAppend(a[1..], v);
    }
  }

  lemma HasMember(versions: seq<Version>)
    ensures versions == [] || exists v :: v in versions
  {
    if versions != [] { assert versions[0] in versions; }
  }

  lemma CurrentIsNewest(p: Policy)
    requires WellShaped(p) && NoDuplicates(Names(p.versions))
    requires p.current == p.versions[|p.versions| - 1].schemaVersion
    ensures |CurrentOnes(p.versions)| == 1 && CurrentOnes(p.versions)[0].schemaVersion == p.current <==>
      NewestIsCurrent(p)
  {
    var n := |p.versions| - 1;
    var front, newest := p.versions[..n], p.versions[n];
    var current := CurrentOnes(p.versions);
    assert p.versions == front + [newest];
    CurrentOnesAppend(front, newest);
    CurrentOnesAre(front);
    CurrentOnesAre(p.versions);
    if NewestIsCurrent(p) {
      forall v ensures v !in CurrentOnes(front) {
        if v in front {
          var i :| 0 <= i < n && front[i] == v;
          assert p.versions[i].status != Current;
        }
      }
      HasMember(CurrentOnes(front));
    }
    if |current| == 1 && current[0].schemaVersion == p.current {
      assert current[0] in current;
      var k :| 0 <= k <= n && p.versions[k] == current[0];
      assert Names(p.versions)[k] == Names(p.versions)[n];
      assert k == n;
      forall i | 0 <= i < n ensures p.versions[i].status != Current {
        assert front[i] in front && front[i] !in CurrentOnes(front);
      }
    }
  }

  lemma ReadsAre(p: Policy)
    requires WellShaped(p) && StrictlyIncreasing(p.versions)
    ensures (forall v :: v in p.versions ==> CheckReads(p.versions, v).Ok?) <==> ReadsBackward(p)
  {
    var versions := p.versions;
    forall i | 0 <= i < |versions|
      ensures CheckReads(versions, versions[i]).Ok? <==>
        && (forall r :: r in versions[i].readable ==> r in Names(versions))
        && (forall j :: 0 <= j <= i && Key(versions[j].schemaVersion).0 == Key(versions[i].schemaVersion).0
              ==> versions[j].schemaVersion in versions[i].readable)
    {
      VersionReads(p, i);
    }
  }

  lemma VersionReads(p: Policy, i: nat)
    requires WellShaped(p) && StrictlyIncreasing(p.versions) && i < |p.versions|
    ensures CheckReads(p.versions, p.versions[i]).Ok? <==>
      && (forall r :: r in p.versions[i].readable ==> r in Names(p.versions))
      && (forall j :: 0 <= j <= i && Key(p.versions[j].schemaVersion).0 == Key(p.versions[i].schemaVersion).0
            ==> p.versions[j].schemaVersion in p.versions[i].readable)
  {
    NamesAre(p.versions);
    RequiredRead(p, i);
    assert Declared(p.versions[i]) <= (set x | x in p.versions :: x.schemaVersion)
      <==> forall r :: r in p.versions[i].readable ==> r in Names(p.versions) by {
      assert forall r :: r in Declared(p.versions[i]) <==> r in p.versions[i].readable;
    }
  }

  lemma NamesAre(versions: seq<Version>)
    ensures forall s :: s in (set x | x in versions :: x.schemaVersion) <==> s in Names(versions)
  {
    var supported := set x | x in versions :: x.schemaVersion;
    forall s | s in supported ensures s in Names(versions) {
      var x :| x in versions && x.schemaVersion == s;
      var k :| 0 <= k < |versions| && versions[k] == x;
      assert Names(versions)[k] == s;
    }
    forall s | s in Names(versions) ensures s in supported {
      var k :| 0 <= k < |versions| && Names(versions)[k] == s;
      assert versions[k] in versions;
    }
  }

  lemma MustReadEarlier(p: Policy, i: nat, j: nat)
    requires WellShaped(p) && StrictlyIncreasing(p.versions) && i < |p.versions| && j < |p.versions|
    ensures MustRead(p.versions[i], p.versions[j]) <==>
      j <= i && Key(p.versions[j].schemaVersion).0 == Key(p.versions[i].schemaVersion).0
  {
    assert p.versions[i] in p.versions && p.versions[j] in p.versions;
    assert i < j ==> KeyLess(Key(p.versions[i].schemaVersion), Key(p.versions[j].schemaVersion));
    assert j < i ==> KeyLess(Key(p.versions[j].schemaVersion), Key(p.versions[i].schemaVersion));
  }

  lemma RequiredRead(p: Policy, i: nat)
    requires WellShaped(p) && StrictlyIncreasing(p.versions) && i < |p.versions|
    ensures (set x | x in p.versions && MustRead(p.versions[i], x) :: x.schemaVersion) <= Declared(p.versions[i]) <==>
      forall j :: 0 <= j <= i && Key(p.versions[j].schemaVersion).0 == Key(p.versions[i].schemaVersion).0
        ==> p.versions[j].schemaVersion in p.versions[i].readable
  {
    var versions, v := p.versions, p.versions[i];
    var required := set x | x in versions && MustRead(v, x) :: x.schemaVersion;
    forall j | 0 <= j < |versions|
      ensures MustRead(v, versions[j]) <==> j <= i && Key(versions[j].schemaVersion).0 == Key(v.schemaVersion).0
    {
      MustReadEarlier(p, i, j);
    }
    if required <= Declared(v) {
      forall j | 0 <= j <= i && Key(versions[j].schemaVersion).0 == Key(v.schemaVersion).0
        ensures versions[j].schemaVersion in v.readable
      {
        assert versions[j] in versions && versions[j].schemaVersion in required;
      }
    }
    if forall j :: 0 <= j <= i && Key(versions[j].schemaVersion).0 == Key(v.schemaVersion).0
         ==> versions[j].schemaVersion in v.readable {
      forall s | s in required ensures s in Declared(v) {
        var x :| x in versions && MustRead(v, x) && x.schemaVersion == s;
        var j :| 0 <= j < |versions| && versions[j] == x;
      }
    }
  }

  /** A policy is accepted exactly when its versions have strictly increasing numeric keys, its
      one current version is the newest, and each version reads itself and every earlier version
      of its major. */
  lemma AcceptedPolicy(p: Policy)
    requires WellShaped(p)
    ensures Accepted(p) <==> Dedicated(p) && StrictlyIncreasing(p.versions) && NewestIsCurrent(p) && ReadsBackward(p)
  {
    SortedDistinctIsIncreasing(p.versions);
    if StrictlyIncreasing(p.versions) {
      ReadsAre(p);
      if p.current == p.versions[|p.versions| - 1].schemaVersion { CurrentIsNewest(p); }
    }
  }

  /** The current version of an accepted policy is above every other. */
  lemma CurrentIsMaximum(p: Policy, i: nat)
    requires WellShaped(p) && Accepted(p) && i < |p.versions| && p.versions[i].schemaVersion != p.current
    ensures WireVersion(p.current) && KeyLess(Key(p.versions[i].schemaVersion), Key(p.current))
  {
    AcceptedPolicy(p);
    assert p.versions[|p.versions| - 1] in p.versions;
  }
}
