/** Git history as the release tooling reads it: changed names, squash equivalence and ancestry.
    Commits are immutable records in a growing object store. */
module GitStore {
  import opened Text
  import opened CanonicalJson
  import opened Outcome
  import opened Evidence
  import opened GitNames
  import opened GitTrees

  datatype Commit = Commit(parents: seq<string>, tree: Tree, date: string)

  /** origin is the normalised owner/repository of remote.origin.url, if it has one. */
  datatype Repo = Repo(origin: Option<string>, clean: bool, commits: map<string, Commit>, refs: map<string, string>)

  // ---- Squash equivalence ----

  /** The names that git diff --name-only --no-renames lists, as read back and sorted. */
  function ChangedNames(before: Tree, tree: Tree): seq<string>
  {
    SortNames(ListedNames(SortedKeys(Differing(before, tree))))
  }

  function CommitChangedPaths(repo: Repo, commit: string): Result<seq<string>>
  {
    var _ :- Require(commit in repo.commits, "unable to inspect evidence commit");
    var parents := repo.commits[commit].parents;
    var _ :- Require(|parents| == 1, "squash equivalence requires a single-parent evidence commit");
    var _ :- Require(parents[0] in repo.commits, "parent commit unavailable");
    var names := ChangedNames(repo.commits[parents[0]].tree, repo.commits[commit].tree);
    var _ :- Require(names != [], "evidence commit has no changed paths");
    Ok(names)
  }

  function DigestOrNull(H: Hash, bytes: Option<string>): Json
  {
    if bytes.Some? then Str(H(bytes.value)) else Null
  }

  function AttestedItem(H: Hash, name: string, id: string, tree: Tree): Json
  {
    Obj(map["path" := Str(name), "sha256" := DigestOrNull(H, Show(id, tree, name))])
  }

  function Attested(H: Hash, names: seq<string>, id: string, tree: Tree): seq<Json>
  {
    seq(|names|, i requires 0 <= i < |names| => AttestedItem(H, names[i], id, tree))
  }

  function AttestedText(items: seq<Json>): string
  {
    Print(Arr(items), false)
  }

  function SquashRecord(H: Hash, items: seq<Json>): Document
  {
    map["relation" := Str("squash_equivalent"), "attested_path_count" := Int(|items|),
        "attested_paths_digest" := Str(H(AttestedText(items)))]
  }

  /** git show prints the same for each of the names in the two commits. */
  ghost predicate Preserves(names: seq<string>, id: string, tree: Tree, selected: string, chosen: Tree)
  {
    forall n :: n in names ==> Show(id, tree, n) == Show(selected, chosen, n)
  }

  /** None when what is shown for some listed name is not preserved. */
  ghost function SquashOf(H: Hash, repo: Repo, evidence: string, selected: string): Result<Option<Document>>
  {
    var names :- CommitChangedPaths(repo, evidence);
    var _ :- Require(selected in repo.commits, "commit is not available locally");
    var tree := repo.commits[evidence].tree;
    if Preserves(names, evidence, tree, selected, repo.commits[selected].tree)
    then Ok(Some(SquashRecord(H, Attested(H, names, evidence, tree)))) else Ok(None)
  }

  lemma PreservesStep(names: seq<string>, i: nat, id: string, tree: Tree, selected: string, chosen: Tree)
    requires i < |names|
    ensures Preserves(names[..i + 1], id, tree, selected, chosen) <==>
      Preserves(names[..i], id, tree, selected, chosen) && Show(id, tree, names[i]) == Show(selected, chosen, names[i])
    ensures Preserves(names, id, tree, selected, chosen) ==> Preserves(names[..i + 1], id, tree, selected, chosen)
  {
    assert names[..i + 1] == names[..i] + [names[i]];
  }

  lemma AttestedStep(H: Hash, names: seq<string>, i: nat, id: string, tree: Tree)
    requires i < |names|
    ensures Attested(H, names[..i + 1], id, tree)
         == Attested(H, names[..i], id, tree) + [AttestedItem(H, names[i], id, tree)]
  {
  }

  /** Compares and attests name by name; a selected commit that is not in the store fails at the
      first. */
  method AttestNames(H: Hash, names: seq<string>, id: string, tree: Tree, selected: string, commit: Option<Commit>)
    returns (r: Result<Option<seq<Json>>>)
    requires names != []
    ensures r.Ok? <==> commit.Some?
    ensures r.Err? ==> r.reason == "commit is not available locally"
    ensures r.Ok? ==>
      r.value == if Preserves(names, id, tree, selected, commit.value.tree)
                 then Some(Attested(H, names, id, tree)) else None
  {
    var attested: seq<Json> := [];
    for i := 0 to |names|
      invariant attested == Attested(H, names[..i], id, tree)
      invariant i > 0 ==> commit.Some? && Preserves(names[..i], id, tree, selected, commit.value.tree)
    {
      if commit.None? { return Err("commit is not available locally"); }
      PreservesStep(names, i, id, tree, selected, commit.value.tree);
      if Show(id, tree, names[i]) != Show(selected, commit.value.tree, names[i]) { return Ok(None); }
      AttestedStep(H, names, i, id, tree);
      attested := attested + [AttestedItem(H, names[i], id, tree)];
    }
    assert names[..|names|] == names;
    return Ok(Some(attested));
  }

  method SquashEquivalenceRecord(H: Hash, repo: Repo, evidence: string, selected: string)
    returns (r: Result<Option<Document>>)
    ensures r == SquashOf(H, repo, evidence, selected)
  {
    var changed := CommitChangedPaths(repo, evidence);
    if changed.Err? { return Err(changed.reason); }
    var commit := if selected in repo.commits then Some(repo.commits[selected]) else None;
    var attested := AttestNames(H, changed.value, evidence, repo.commits[evidence].tree, selected, commit);
    if attested.Err? { return Err(attested.reason); }
    if attested.value.None? { return Ok(None); }
    return Ok(Some(SquashRecord(H, attested.value.value)));
  }

  lemma AttestedWellFormed(H: Hash, names: seq<string>, id: string, tree: Tree)
    ensures WellFormed(Arr(Attested(H, names, id, tree)))
  {
    var items := Attested(H, names, id, tree);
    forall x | x in items ensures WellFormed(x) {
      var i :| 0 <= i < |items| && items[i] == x;
      assert x == AttestedItem(H, names[i], id, tree);
    }
  }

  lemma AttestedItemSplits(H: Hash, p: string, c: string, a: Tree, q: string, d: string, b: Tree)
    requires AttestedItem(H, p, c, a) == AttestedItem(H, q, d, b)
    ensures p == q && DigestOrNull(H, Show(c, a, p)) == DigestOrNull(H, Show(d, b, p))
  {
    assert AttestedItem(H, p, c, a).members["path"] == AttestedItem(H, q, d, b).members["path"];
    assert AttestedItem(H, p, c, a).members["sha256"] == AttestedItem(H, q, d, b).members["sha256"];
  }

  predicate NoShownCollision(H: Hash, x: Option<string>, y: Option<string>)
  {
    x.Some? && y.Some? ==> NoCollision(H, x.value, y.value)
  }

  /** A squash record commits to what it attests: two equal records attest the same names, and
      the same bytes or absence under each, given no collisions among the digested texts. */
  lemma SquashRecordCommits(H: Hash, p: seq<string>, c: string, a: Tree, q: seq<string>, d: string, b: Tree)
    requires SquashRecord(H, Attested(H, p, c, a)) == SquashRecord(H, Attested(H, q, d, b))
    requires NoCollision(H, AttestedText(Attested(H, p, c, a)), AttestedText(Attested(H, q, d, b)))
    requires forall x :: x in p ==> NoShownCollision(H, Show(c, a, x), Show(d, b, x))
    ensures p == q && forall x :: x in p ==> Show(c, a, x) == Show(d, b, x)
  {
    var x, y := Arr(Attested(H, p, c, a)), Arr(Attested(H, q, d, b));
    assert SquashRecord(H, x.items)["attested_paths_digest"] == SquashRecord(H, y.items)["attested_paths_digest"];
    AttestedWellFormed(H, p, c, a);
    AttestedWellFormed(H, q, d, b);
    CanonicalJsonUnambiguous(x, y, false);
    assert |p| == |x.items| == |q|;
    forall i | 0 <= i < |p| ensures p[i] == q[i] && Show(c, a, p[i]) == Show(d, b, p[i]) {
      assert x.items[i] == AttestedItem(H, p[i], c, a) && y.items[i] == AttestedItem(H, q[i], d, b);
      AttestedItemSplits(H, p[i], c, a, q[i], d, b);
      assert p[i] in p;
    }
  }

  // ---- Ancestry ----

  /** A chain from a commit back through parents. */
  ghost predicate Chain(commits: map<string, Commit>, chain: seq<string>)
  {
    chain != [] && forall i {:trigger Step(commits, chain, i)} :: 0 <= i < |chain| - 1 ==> Step(commits, chain, i)
  }

  ghost predicate Step(commits: map<string, Commit>, chain: seq<string>, i: nat)
    requires i + 1 < |chain|
  {
    chain[i] in commits && chain[i + 1] in commits[chain[i]].parents
  }

  ghost predicate Leads(commits: map<string, Commit>, chain: seq<string>, descendant: string, ancestor: string)
  {
    Chain(commits, chain) && chain[0] == descendant && chain[|chain| - 1] == ancestor
  }

  ghost predicate Ancestor(commits: map<string, Commit>, ancestor: string, descendant: string)
  {
    exists chain :: Leads(commits, chain, descendant, ancestor)
  }

  ghost function IsAncestor(repo: Repo, ancestor: string, descendant: string): Result<bool>
  {
    var _ :- Require(ancestor in repo.commits && descendant in repo.commits, "unable to evaluate Git ancestry");
    Ok(Ancestor(repo.commits, ancestor, descendant))
  }

  /** No commit has a missing parent. */
  ghost predicate Closed(commits: map<string, Commit>)
  {
    forall c, p :: c in commits && p in commits[c].parents ==> p in commits
  }

  ghost predicate Grows(before: map<string, Commit>, after: map<string, Commit>)
  {
    forall c :: c in before ==> c in after && after[c] == before[c]
  }

  lemma {:induction false} ChainStays(before: map<string, Commit>, after: map<string, Commit>, chain: seq<string>,
                                      n: nat)
    requires Closed(before) && Grows(before, after)
    requires Chain(after, chain) && chain[0] in before && n < |chain|
    ensures forall i :: 0 <= i <= n ==> chain[i] in before
  {
    if n > 0 {
      ChainStays(before, after, chain, n - 1);
      assert Step(after, chain, n - 1);
      assert after[chain[n - 1]] == before[chain[n - 1]];
    }
  }

  /** New commits add no ancestors to old ones. */
  lemma AncestryIsStable(before: map<string, Commit>, after: map<string, Commit>, ancestor: string, descendant: string)
    requires Closed(before) && Grows(before, after) && descendant in before
    ensures Ancestor(before, ancestor, descendant) <==> Ancestor(after, ancestor, descendant)
  {
    if Ancestor(after, ancestor, descendant) {
      var chain :| Leads(after, chain, descendant, ancestor);
      ChainStays(before, after, chain, |chain| - 1);
      forall i | 0 <= i < |chain| - 1 ensures Step(before, chain, i) {
        assert Step(after, chain, i);
      }
      assert Leads(before, chain, descendant, ancestor);
    }
    if Ancestor(before, ancestor, descendant) {
      var chain :| Leads(before, chain, descendant, ancestor);
      forall i | 0 <= i < |chain| - 1 ensures Step(after, chain, i) {
        assert Step(before, chain, i);
      }
      assert Leads(after, chain, descendant, ancestor);
    }
  }

  /** exact, descendant, squash_equivalent, or an error. */
  ghost function CompatibilityRelation(H: Hash, repo: Repo, evidence: string, selected: string): Result<Document>
  {
    if evidence == selected then Ok(map["relation" := Str("exact")])
    else
      var ancestor :- IsAncestor(repo, evidence, selected);
      if ancestor then Ok(map["relation" := Str("descendant")])
      else
        var squash :- SquashOf(H, repo, evidence, selected);
        if squash.Some? then Ok(squash.value) else Err("selected commit does not preserve the evidence commit")
  }

  /** A relation established once is established in every later store, with the same record. */
  lemma CompatibilityIsStable(H: Hash, before: Repo, after: Repo, evidence: string, selected: string)
    requires Closed(before.commits) && Grows(before.commits, after.commits)
    requires CompatibilityRelation(H, before, evidence, selected).Ok?
    ensures CompatibilityRelation(H, after, evidence, selected) == CompatibilityRelation(H, before, evidence, selected)
  {
    if evidence != selected {
      AncestryIsStable(before.commits, after.commits, evidence, selected);
      if !Ancestor(before.commits, evidence, selected) { SquashIsStable(H, before, after, evidence, selected); }
    }
  }

  lemma SquashIsStable(H: Hash, before: Repo, after: Repo, evidence: string, selected: string)
    requires Grows(before.commits, after.commits) && SquashOf(H, before, evidence, selected).Ok?
    ensures SquashOf(H, after, evidence, selected) == SquashOf(H, before, evidence, selected)
  {
    var b, a := before.commits, after.commits;
    var parent := b[evidence].parents[0];
    assert a[evidence] == b[evidence] && a[parent] == b[parent] && a[selected] == b[selected];
    assert CommitChangedPaths(after, evidence) == CommitChangedPaths(before, evidence);
  }
}
