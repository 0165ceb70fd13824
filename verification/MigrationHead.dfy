/** The single Alembic head of a set of tracked migrations, and what it says about the
    revision graph. */
module MigrationHead {
  import opened Text
  import opened Outcome

  /** A tracked migration file with the two literals read from its syntax tree; a literal
      that is missing or neither a string nor None is an error. */
  datatype Migration = Migration(path: string, raw: string, revision: Result<Option<string>>,
                                 down: Result<Option<string>>)

  datatype Record = Record(head: string, count: nat, headFile: string, headSha: string)

  /** The revision graph: each revision with the one it follows. */
  type Graph = map<string, Option<string>>

  predicate Readable(m: Migration)
  {
    m.revision.Ok? && m.revision.value.Some? && m.down.Ok?
  }

  function Name(m: Migration): string
    requires Readable(m)
  {
    m.revision.value.value
  }

  ghost predicate Consistent(files: seq<Migration>)
  {
    && (forall m :: m in files ==> Readable(m))
    && (forall i, j :: 0 <= i < j < |files| ==> Name(files[i]) != Name(files[j]))
  }

  function GraphOf(files: seq<Migration>): Graph
    requires forall m :: m in files ==> Readable(m)
  {
    if files == [] then map[]
    else
      var last := files[|files| - 1];
      GraphOf(files[..|files| - 1])[Name(last) := last.down.value]
  }

  function Downs(g: Graph): set<string>
  {
    set r | r in g && g[r].Some? :: g[r].value
  }

  /** The revisions nothing follows. */
  function Heads(g: Graph): set<string>
  {
    g.Keys - Downs(g)
  }

  lemma {:induction false} GraphNames(files: seq<Migration>)
    requires Consistent(files)
    ensures |GraphOf(files)| == |files|
    ensures forall r :: r in GraphOf(files) ==> Named(files, r)
    ensures forall i :: 0 <= i < |files| ==> Name(files[i]) in GraphOf(files)
  {
    if files != [] {
      var n := |files| - 1;
      var before := files[..n];
      PrefixConsistent(files, n);
      GraphNames(before);
      assert GraphOf(files) == GraphOf(before)[Name(files[n]) := files[n].down.value];
      forall r | r in GraphOf(before) ensures Named(files, r) && r != Name(files[n]) {
        NamedBefore(files, n, r);
      }
      assert Named(files, Name(files[n]));
      forall i | 0 <= i < |files| ensures Name(files[i]) in GraphOf(files) {
        if i < n { assert Name(before[i]) in GraphOf(before); }
      }
    }
  }

  lemma NamedBefore(files: seq<Migration>, n: nat, r: string)
    requires Consistent(files) && n < |files| && Named(files[..n], r)
    ensures Named(files, r) && r != Name(files[n])
  {
    var i :| 0 <= i < n && Readable(files[..n][i]) && Name(files[..n][i]) == r;
    assert Name(files[i]) == r;
  }

  ghost predicate Named(files: seq<Migration>, r: string)
  {
    exists i :: 0 <= i < |files| && Readable(files[i]) && Name(files[i]) == r
  }

  lemma DownsStep(g: Graph, r: string, down: Option<string>)
    requires r !in g
    ensures Downs(g[r := down]) == Downs(g) + if down.Some? then {down.value} else {}
  {
    var h := g[r := down];
    forall d | d in Downs(g) ensures d in Downs(h) {
      var c :| c in g && g[c].Some? && g[c].value == d;
      assert h[c] == g[c];
    }
    assert down.Some? ==> h[r].Some? && h[r].value in Downs(h);
  }

  lemma ConsistentStep(before: seq<Migration>, m: Migration)
    requires Consistent(before) && Readable(m)
    ensures Consistent(before + [m]) <==> Name(m) !in GraphOf(before)
    ensures GraphOf(before + [m]) == GraphOf(before)[Name(m) := m.down.value]
  {
    var all := before + [m];
    GraphNames(before);
    assert all[..|all| - 1] == before;
    if Name(m) in GraphOf(before) {
      var i :| 0 <= i < |before| && Readable(before[i]) && Name(before[i]) == Name(m);
      assert Name(all[i]) == Name(all[|before|]);
    } else {
      forall i, j | 0 <= i < j < |all| ensures Name(all[i]) != Name(all[j]) {
        assert Name(before[i]) in GraphOf(before);
      }
    }
  }

  ghost predicate Sourced(revisions: map<string, Migration>, files: seq<Migration>)
  {
    forall r :: r in revisions ==> revisions[r] in files && revisions[r].revision == Ok(Some(r))
  }

  lemma PrefixConsistent(files: seq<Migration>, i: nat)
    requires i <= |files| && Consistent(files)
    ensures Consistent(files[..i])
  {
  }

  // What the scan has collected from the first i files.
  ghost predicate Scanned(files: seq<Migration>, i: nat, revisions: map<string, Migration>, downs: set<string>)
  {
    && i <= |files| && Consistent(files[..i])
    && revisions.Keys == GraphOf(files[..i]).Keys && |revisions| == i
    && downs == Downs(GraphOf(files[..i]))
  }

  lemma ScanStep(files: seq<Migration>, i: nat, revisions: map<string, Migration>, downs: set<string>)
    requires Scanned(files, i, revisions, downs) && i < |files| && Readable(files[i])
    ensures Name(files[i]) in revisions ==> !Consistent(files)
    ensures Name(files[i]) !in revisions ==>
      Scanned(files, i + 1, revisions[Name(files[i]) := files[i]],
              downs + if files[i].down.value.Some? then {files[i].down.value.value} else {})
  {
    assert files[..i + 1] == files[..i] + [files[i]];
    ConsistentStep(files[..i], files[i]);
    if Consistent(files) { PrefixConsistent(files, i + 1); }
    if Name(files[i]) !in revisions { DownsStep(GraphOf(files[..i]), Name(files[i]), files[i].down.value); }
  }

  lemma UnreadableBreaks(files: seq<Migration>, i: nat)
    requires i < |files| && !Readable(files[i])
    ensures !Consistent(files)
  {
    assert files[i] in files;
  }

  method ScanFiles(files: seq<Migration>) returns (r: Result<(map<string, Migration>, set<string>)>)
    ensures r.Ok? <==> Consistent(files)
    ensures r.Ok? ==> Scanned(files, |files|, r.value.0, r.value.1) && Sourced(r.value.0, files)
  {
    var revisions: map<string, Migration> := map[];
    var downs: set<string> := {};
    for i := 0 to |files|
      invariant Scanned(files, i, revisions, downs)
      invariant Sourced(revisions, files)
    {
      var m := files[i];
      if m.revision.Err? || m.down.Err? || m.revision.value.None? {
        UnreadableBreaks(files, i);
        return Err("migration literal missing, malformed or None");
      }
      var name := m.revision.value.value;
      ScanStep(files, i, revisions, downs);
      if name in revisions { return Err("duplicate Alembic revision"); }
      revisions := revisions[name := m];
      if m.down.value.Some? { downs := downs + {m.down.value.value}; }
    }
    assert files[..|files|] == files;
    return Ok((revisions, downs));
  }

  /** The record names the head and the path and digest of the file that declares it. */
  ghost predicate Records(H: string -> string, files: seq<Migration>, record: Record)
  {
    exists i :: 0 <= i < |files| && files[i].revision == Ok(Some(record.head)) && files[i].path == record.headFile
                && H(files[i].raw) == record.headSha
  }

  /** Readable, duplicate-free and non-empty, with one head. */
  ghost predicate OneHead(files: seq<Migration>)
  {
    files != [] && Consistent(files) && |Heads(GraphOf(files))| == 1
  }

  ghost predicate Describes(H: string -> string, files: seq<Migration>, record: Record)
    requires Consistent(files)
  {
    Heads(GraphOf(files)) == {record.head} && record.count == |files| && Records(H, files, record)
  }

  /** One record describes an acceptable file list. */
  lemma DescribedOnce(H: string -> string, files: seq<Migration>, a: Record, b: Record)
    requires Consistent(files) && Describes(H, files, a) && Describes(H, files, b)
    ensures a == b
  {
    assert a.head in {b.head};
    var i :| 0 <= i < |files| && files[i].revision == Ok(Some(a.head)) && files[i].path == a.headFile
      && H(files[i].raw) == a.headSha;
    var j :| 0 <= j < |files| && files[j].revision == Ok(Some(b.head)) && files[j].path == b.headFile
      && H(files[j].raw) == b.headSha;
    assert files[i] in files && files[j] in files;
    assert i == j;
  }

  lemma IsDescribed(H: string -> string, files: seq<Migration>) returns (record: Record)
    requires OneHead(files)
    ensures Describes(H, files, record)
  {
    var heads := Heads(GraphOf(files));
    var head :| head in heads;
    OnlyMember(heads, head);
    GraphNames(files);
    assert Named(files, head);
    var i :| 0 <= i < |files| && Readable(files[i]) && Name(files[i]) == head;
    record := Record(head, |files|, files[i].path, H(files[i].raw));
  }

  /** The record of a file list: the one that describes it, when there is one head. */
  ghost function RecordOf(H: string -> string, files: seq<Migration>): Option<Record>
  {
    if OneHead(files) then
      assert exists r :: Describes(H, files, r) by { var record := IsDescribed(H, files); }
      var r :| Describes(H, files, r);
      Some(r)
    else None
  }

  /** Accepts exactly the file lists with one head, and reports that head, the file it comes from
      and the number of migrations. */
  method MigrationRecord(H: string -> string, files: seq<Migration>) returns (r: Result<Record>)
    ensures r.Ok? <==> OneHead(files)
    ensures r.Ok? ==> Describes(H, files, r.value) && RecordOf(H, files) == Some(r.value)
  {
    if files == [] { return Err("no Alembic migrations found"); }
    var scanned := ScanFiles(files);
    if scanned.Err? { return Err(scanned.reason); }
    assert files[..|files|] == files;
    r := HeadRecord(H, files, scanned.value.0, scanned.value.1);
    if r.Ok? { DescribedOnce(H, files, r.value, RecordOf(H, files).value); }
  }

  method HeadRecord(H: string -> string, files: seq<Migration>, revisions: map<string, Migration>, downs: set<string>)
    returns (r: Result<Record>)
    requires Sourced(revisions, files)
    ensures r.Ok? <==> |revisions.Keys - downs| == 1
    ensures r.Ok? ==> revisions.Keys - downs == {r.value.head} && r.value.count == |revisions|
    ensures r.Ok? ==> Records(H, files, r.value)
  {
    var heads := revisions.Keys - downs;
    if |heads| != 1 { return Err("expected exactly one Alembic head"); }
    var head := SortedKeys(heads)[0];
    assert head in SortedKeys(heads);
    OnlyMember(heads, head);
    return Ok(Record(head, |revisions|, revisions[head].path, H(revisions[head].raw)));
  }

  lemma OnlyMember(s: set<string>, x: string)
    requires |s| == 1 && x in s
    ensures s == {x}
  {
    assert |s - {x}| == 0;
  }

  // ---- Following the down-links ----

  /** The history from r down, as long as it stays among the revisions not visited yet. */
  function Walk(g: Graph, r: string, left: set<string>): (w: seq<string>)
    requires r in left && left <= g.Keys
    decreases |left|
  {
    if g[r].Some? && g[r].value in left - {r} then [r] + Walk(g, g[r].value, left - {r}) else [r]
  }

  ghost predicate Linked(g: Graph, w: seq<string>)
  {
    forall i :: 0 <= i < |w| - 1 ==> w[i] in g && g[w[i]] == Some(w[i + 1])
  }

  ghost predicate NoRepeats(w: seq<string>)
  {
    forall i, j :: 0 <= i < j < |w| ==> w[i] != w[j]
  }

  /** r follows nothing in the graph: its down-revision is None or is not tracked. */
  predicate Bottom(g: Graph, r: string)
    requires r in g
  {
    g[r].None? || g[r].value !in g
  }

  lemma {:induction false} WalkShape(g: Graph, r: string, left: set<string>)
    requires r in left && left <= g.Keys
    ensures var w := Walk(g, r, left); w[0] == r && (forall x :: x in w ==> x in left) && NoRepeats(w)
    decreases |left|
  {
    if g[r].Some? && g[r].value in left - {r} {
      WalkShape(g, g[r].value, left - {r});
      var w := Walk(g, g[r].value, left - {r});
      assert forall x :: x in w ==> x != r;
    }
  }

  lemma {:induction false} WalkFollows(g: Graph, r: string, left: set<string>)
    requires r in left && left <= g.Keys
    ensures var w := Walk(g, r, left); Linked(g, w) && w[|w| - 1] in left
    ensures var w := Walk(g, r, left); Closes(g, w, left)
    decreases |left|
  {
    if g[r].Some? && g[r].value in left - {r} {
      WalkFollows(g, g[r].value, left - {r});
      WalkShape(g, g[r].value, left - {r});
    }
  }

  // The walk stops where the down-link leaves the set or comes back to the walk.
  ghost predicate Closes(g: Graph, w: seq<string>, left: set<string>)
    requires w != []
  {
    w[|w| - 1] in g && (Bottom(g, w[|w| - 1]) || g[w[|w| - 1]].value in w || g[w[|w| - 1]].value !in left)
  }

  lemma NextIsFollowed(g: Graph, w: seq<string>, i: nat)
    requires i < |w| && Linked(g, w)
    ensures i < |w| - 1 ==> w[i] in g && g[w[i]] == Some(w[i + 1]) && w[i + 1] in w
  {
  }

  /** A non-empty set of revisions whose down-links all stay inside it: following them goes round. */
  ghost predicate Cycle(g: Graph, c: set<string>)
  {
    c != {} && c <= g.Keys && forall r {:trigger Stays(g, r, c)} :: r in c ==> Stays(g, r, c)
  }

  ghost predicate Stays(g: Graph, r: string, c: set<string>)
  {
    r in g && g[r].Some? && g[r].value in c
  }

  ghost predicate Acyclic(g: Graph)
  {
    forall c :: !Cycle(g, c)
  }

  /** The walk from h lists every revision exactly once and ends at the bottom of the history. */
  ghost predicate CompleteHistory(g: Graph, h: string)
    requires h in g
  {
    var w := Walk(g, h, g.Keys);
    NoRepeats(w) && (forall r :: r in g <==> r in w) && Linked(g, w) && w[|w| - 1] in g && Bottom(g, w[|w| - 1])
  }

  // ---- Counting ----

  ghost predicate Follows(g: Graph, c: string, r: string)
  {
    c in g && g[c] == Some(r)
  }

  ghost predicate Followed(g: Graph, s: set<string>, r: string)
  {
    exists c :: c in s && Follows(g, c, r)
  }

  // If every member of s has a follower in s, then every member of s follows one in s.
  lemma {:induction false} FollowersFill(g: Graph, s: set<string>, t: set<string>, todo: set<string>)
    requires s <= g.Keys && t <= s && todo <= s && |t| == |s - todo|
    requires forall r {:trigger Followed(g, s, r)} :: r in todo ==> Followed(g, s, r)
    requires forall c {:trigger Stays(g, c, s - todo)} :: c in t ==> Stays(g, c, s - todo)
    ensures forall c {:trigger Stays(g, c, s)} :: c in s ==> Stays(g, c, s)
    decreases |todo|
  {
    if todo == {} {
      assert s - todo == s;
      SameSize(t, s);
    } else {
      var r :| r in todo;
      assert Followed(g, s, r);
      var c :| c in s && Follows(g, c, r);
      assert s - (todo - {r}) == (s - todo) + {r};
      assert forall x :: x in t ==> Stays(g, x, s - todo);
      FollowersFill(g, s, t + {c}, todo - {r});
    }
  }

  lemma SameSize(t: set<string>, s: set<string>)
    requires t <= s && |t| == |s|
    ensures t == s
  {
    assert |s - t| == 0;
  }

  lemma NoSetOfFollowed(g: Graph, s: set<string>)
    requires Acyclic(g) && s <= g.Keys
    requires forall r {:trigger Followed(g, s, r)} :: r in s ==> Followed(g, s, r)
    ensures s == {}
  {
    assert s - s == {};
    FollowersFill(g, s, {}, s);
    assert s != {} ==> Cycle(g, s);
  }

  // Outside the walk from the only head, every revision has a follower outside it too.
  lemma FollowerOutside(g: Graph, h: string, r: string)
    requires Heads(g) == {h} && r in g && r !in Walk(g, h, g.Keys)
    ensures exists c :: c in g && c !in Walk(g, h, g.Keys) && Follows(g, c, r)
  {
    var w := Walk(g, h, g.Keys);
    assert h in Heads(g);
    WalkShape(g, h, g.Keys);
    assert w[0] in w;
    assert r !in Heads(g);
    var c :| c in g && g[c].Some? && g[c].value == r;
    WalkFollows(g, h, g.Keys);
    forall i | 0 <= i < |w| ensures w[i] != c {
      NextIsFollowed(g, w, i);
    }
    assert Follows(g, c, r);
  }

  /** One head, and no cycle: exactly then the history from the head is linear and complete. */
  lemma SingleHeadHistory(g: Graph, h: string)
    requires Heads(g) == {h}
    ensures h in g && (CompleteHistory(g, h) <==> Acyclic(g))
  {
    assert h in Heads(g);
    if Acyclic(g) { AcyclicIsComplete(g, h); }
    if CompleteHistory(g, h) { CompleteIsAcyclic(g, h); }
  }

  lemma AcyclicCovers(g: Graph, h: string)
    requires Heads(g) == {h} && h in g && Acyclic(g)
    ensures forall r :: r in g ==> r in Walk(g, h, g.Keys)
  {
    var w := Walk(g, h, g.Keys);
    var outside := set r | r in g && r !in w;
    forall r | r in outside ensures Followed(g, outside, r) {
      FollowerOutside(g, h, r);
      var c :| c in g && c !in w && Follows(g, c, r);
      assert c in outside;
    }
    NoSetOfFollowed(g, outside);
    forall r | r in g ensures r in w {
      assert r !in w ==> r in outside;
    }
  }

  lemma AcyclicIsComplete(g: Graph, h: string)
    requires Heads(g) == {h} && h in g && Acyclic(g)
    ensures CompleteHistory(g, h)
  {
    var w := Walk(g, h, g.Keys);
    WalkShape(g, h, g.Keys);
    WalkFollows(g, h, g.Keys);
    AcyclicCovers(g, h);
    var last := w[|w| - 1];
    if !Bottom(g, last) {
      forall r | r in g ensures Stays(g, r, g.Keys) {
        var i :| 0 <= i < |w| && w[i] == r;
        NextIsFollowed(g, w, i);
      }
      assert Cycle(g, g.Keys);
    }
  }

  lemma CompleteIsAcyclic(g: Graph, h: string)
    requires h in g && CompleteHistory(g, h)
    ensures Acyclic(g)
  {
    var w := Walk(g, h, g.Keys);
    forall c ensures !Cycle(g, c) {
      if Cycle(g, c) {
        var x :| x in c;
        var i :| 0 <= i < |w| && w[i] == x;
        CycleNeverEnds(g, w, c, i);
      }
    }
  }

  // A linear history that enters a cycle does not end at the bottom.
  lemma {:induction false} CycleNeverEnds(g: Graph, w: seq<string>, c: set<string>, i: nat)
    requires i < |w| && w[i] in c && Cycle(g, c) && Linked(g, w)
    ensures w[|w| - 1] in g && !Bottom(g, w[|w| - 1])
    decreases |w| - i
  {
    assert Stays(g, w[i], c);
    if i + 1 < |w| { CycleNeverEnds(g, w, c, i + 1); }
  }

  lemma {:induction false} DistinctCount(w: seq<string>, s: set<string>)
    requires NoRepeats(w) && forall r :: r in s <==> r in w
    ensures |w| == |s|
  {
    if w == [] {
      assert s == {};
    } else {
      assert w[0] in w;
      forall r ensures r in s - {w[0]} <==> r in w[1..] {
        assert r in w <==> r == w[0] || r in w[1..];
      }
      DistinctCount(w[1..], s - {w[0]});
    }
  }

  /** For accepted, acyclic migrations: walking down from the reported head visits all
      migration_count revisions exactly once, and exactly one revision is the bottom; when
      every down-revision is tracked it is the one root. */
  lemma AcceptedHistoryIsLinear(files: seq<Migration>, head: string)
    requires Consistent(files) && Heads(GraphOf(files)) == {head} && Acyclic(GraphOf(files))
    ensures var g := GraphOf(files);
      && head in g && |Walk(g, head, g.Keys)| == |files| && CompleteHistory(g, head)
      && (exists r :: r in g && Bottom(g, r))
      && (forall r, s :: r in g && s in g && Bottom(g, r) && Bottom(g, s) ==> r == s)
  {
    var g := GraphOf(files);
    GraphNames(files);
    SingleHeadHistory(g, head);
    var w := Walk(g, head, g.Keys);
    DistinctCount(w, g.Keys);
    forall r | r in g && Bottom(g, r) ensures r == w[|w| - 1] {
      var i :| 0 <= i < |w| && w[i] == r;
      NextIsFollowed(g, w, i);
    }
  }

  /** A detached cycle hides from the head count: three files are accepted although the head's
      own history has one revision. */
  lemma DetachedCycleIsAccepted()
    ensures var a := Migration("a.py", "", Ok(Some("a")), Ok(None));
      var b := Migration("b.py", "", Ok(Some("b")), Ok(Some("c")));
      var c := Migration("c.py", "", Ok(Some("c")), Ok(Some("b")));
      var g := DetachedCycle();
      && OneHead([a, b, c]) && GraphOf([a, b, c]) == g
      && Heads(g) == {"a"} && |g| == 3 && Walk(g, "a", g.Keys) == ["a"] && !Acyclic(g)
  {
    var a := Migration("a.py", "", Ok(Some("a")), Ok(None));
    var b := Migration("b.py", "", Ok(Some("b")), Ok(Some("c")));
    var c := Migration("c.py", "", Ok(Some("c")), Ok(Some("b")));
    assert "a"[0] != "b"[0] && "b"[0] != "c"[0] && "a"[0] != "c"[0];
    assert GraphOf([]) == map[];
    assert [a] == [] + [a] && [a, b] == [a] + [b] && [a, b, c] == [a, b] + [c];
    ConsistentStep([], a);
    ConsistentStep([a], b);
    ConsistentStep([a, b], c);
    CycleHidesFromHeads();
  }

  function DetachedCycle(): Graph
  {
    map["a" := None, "b" := Some("c"), "c" := Some("b")]
  }

  lemma CycleHidesFromHeads()
    ensures var g := DetachedCycle(); Heads(g) == {"a"} && |g| == 3 && Walk(g, "a", g.Keys) == ["a"] && !Acyclic(g)
  {
    var g := DetachedCycle();
    assert "a"[0] != "b"[0] && "b"[0] != "c"[0] && "a"[0] != "c"[0];
    assert g["b"].value in Downs(g) && g["c"].value in Downs(g);
    assert g.Keys == {"a", "b", "c"};
    var cycle := {"b", "c"};
    assert "b" in cycle && Stays(g, "b", cycle) && Stays(g, "c", cycle);
    assert Cycle(g, cycle);
  }
}
