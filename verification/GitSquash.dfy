/** What squash equivalence says about the trees: when it is accepted, when that is right, and
    the changes it cannot see. */
module GitSquash {
  import opened Text
  import opened CanonicalJson
  import opened Outcome
  import opened Evidence
  import opened GitNames
  import opened GitTrees
  import opened GitStore

  /** What the record is for: chosen holds what tree holds wherever tree changed its parent. */
  ghost predicate KeepsChanges(before: Tree, tree: Tree, chosen: Tree)
  {
    forall p :: !AgreeOn(before, tree, p) ==> SameContent(tree, chosen, p)
  }

  // ---- The names compared ----

  /** Each changed path is printed as it is and survives stripping. */
  ghost predicate PlainlyChanged(before: Tree, tree: Tree)
  {
    forall p :: !AgreeOn(before, tree, p) ==> PlainlyListed(p)
  }

  lemma ChangedKeys(before: Tree, tree: Tree)
    ensures forall p :: p in SortedKeys(Differing(before, tree)) <==> !AgreeOn(before, tree, p)
  {
    forall p ensures p in SortedKeys(Differing(before, tree)) <==> !AgreeOn(before, tree, p) {
      DifferingExactly(before, tree, p);
    }
  }

  lemma PlainNames(before: Tree, tree: Tree)
    requires PlainlyChanged(before, tree)
    ensures forall n :: n in ChangedNames(before, tree) <==> !AgreeOn(before, tree, n)
  {
    var paths := SortedKeys(Differing(before, tree));
    ChangedKeys(before, tree);
    ListedPlainly(paths);
    SortNamesKeeps(ListedNames(paths));
  }

  /** Unquoted changed paths have no outer spaces. */
  ghost predicate TightlyChanged(before: Tree, tree: Tree)
  {
    forall p :: !AgreeOn(before, tree, p) && PlainName(p) ==> Tight(p)
  }

  lemma PrintedNames(before: Tree, tree: Tree)
    requires TightlyChanged(before, tree)
    ensures forall p :: !AgreeOn(before, tree, p) ==> Printed(p) in ChangedNames(before, tree)
    ensures forall n :: n in ChangedNames(before, tree) ==> exists p :: !AgreeOn(before, tree, p) && n == Printed(p)
  {
    var paths := SortedKeys(Differing(before, tree));
    var lines := PrintedLines(paths);
    ChangedKeys(before, tree);
    ListedAsPrinted(paths);
    SortNamesKeeps(lines);
    forall p | !AgreeOn(before, tree, p) ensures Printed(p) in lines {
      var i :| 0 <= i < |paths| && paths[i] == p;
      assert lines[i] == Printed(p);
    }
    forall n | n in lines ensures exists p :: !AgreeOn(before, tree, p) && n == Printed(p) {
      var i :| 0 <= i < |lines| && lines[i] == n;
      assert paths[i] in paths;
    }
  }

  // ---- When two commits show the same under one name ----

  /** git show has nothing to print: no entry and no directory, or a submodule. */
  predicate Hidden(tree: Tree, path: string)
  {
    !BlobAt(tree, path) && (path in tree || !IsDirectory(tree, path))
  }

  predicate SameBlob(a: Tree, b: Tree, path: string)
  {
    BlobAt(a, path) && BlobAt(b, path) && a[path].data == b[path].data
  }

  /** A blob whose text is the listing that the other commit prints for its directory. */
  predicate ReadsAsListing(a: Tree, d: string, b: Tree, path: string)
  {
    BlobAt(a, path) && path !in b && IsDirectory(b, path) && a[path].data == Listing(d, b, path)
  }

  predicate Alike(c: string, a: Tree, d: string, b: Tree, path: string)
  {
    || SameBlob(a, b, path)
    || (Hidden(a, path) && Hidden(b, path))
    || ReadsAsListing(a, d, b, path)
    || ReadsAsListing(b, c, a, path)
  }

  predicate TwoCommits(c: string, d: string)
  {
    c != d && ':' !in c && ':' !in d
  }

  lemma ShownAlike(c: string, a: Tree, d: string, b: Tree, path: string)
    requires TwoCommits(c, d)
    ensures Show(c, a, path) == Show(d, b, path) <==> Alike(c, a, d, b, path)
  {
    ListingsDiffer(c, a, d, b, path);
  }

  /** Squash equivalence, stated on the trees: under every changed path both commits hold the same
      blob, or both hold something git show cannot print. */
  lemma PreservesExactly(before: Tree, c: string, tree: Tree, d: string, chosen: Tree)
    requires PlainlyChanged(before, tree) && TwoCommits(c, d)
    ensures Preserves(ChangedNames(before, tree), c, tree, d, chosen)
       <==> forall p :: !AgreeOn(before, tree, p) ==> Alike(c, tree, d, chosen, p)
  {
    PlainNames(before, tree);
    forall p ensures Show(c, tree, p) == Show(d, chosen, p) <==> Alike(c, tree, d, chosen, p) {
      ShownAlike(c, tree, d, chosen, p);
    }
  }

  // ---- Wrong verdicts, exactly ----

  /** Alike under git show, but not the same. */
  predicate Overlooked(c: string, a: Tree, d: string, b: Tree, path: string)
  {
    Alike(c, a, d, b, path) && !SameContent(a, b, path)
  }

  lemma OverlookedIff(c: string, a: Tree, d: string, b: Tree, path: string)
    ensures Overlooked(c, a, d, b, path) <==>
      || (Hidden(a, path) && Hidden(b, path) && EntryAt(a, path) != EntryAt(b, path))
      || ReadsAsListing(a, d, b, path)
      || ReadsAsListing(b, c, a, path)
  {
  }

  /** A change is lost although the comparison accepts, exactly when some changed path is a
      submodule on one side and another one or nothing on the other, or a blob that reads as the
      other side's directory listing. */
  lemma FalselyAcceptedIff(before: Tree, c: string, tree: Tree, d: string, chosen: Tree)
    requires PlainlyChanged(before, tree) && TwoCommits(c, d)
    requires Preserves(ChangedNames(before, tree), c, tree, d, chosen)
    ensures !KeepsChanges(before, tree, chosen) <==>
      exists p :: !AgreeOn(before, tree, p) && Overlooked(c, tree, d, chosen, p)
  {
    PreservesExactly(before, c, tree, d, chosen);
  }

  /** A selection with all the changes is rejected exactly when some path that the evidence commit
      removed names a directory, in the evidence commit or in the selection. */
  lemma FalselyRejectedIff(before: Tree, c: string, tree: Tree, d: string, chosen: Tree)
    requires PlainlyChanged(before, tree) && TwoCommits(c, d)
    requires KeepsChanges(before, tree, chosen)
    ensures !Preserves(ChangedNames(before, tree), c, tree, d, chosen) <==>
      exists p :: !AgreeOn(before, tree, p) && p !in tree && (IsDirectory(tree, p) || IsDirectory(chosen, p))
  {
    PreservesExactly(before, c, tree, d, chosen);
    forall p | !AgreeOn(before, tree, p)
      ensures Alike(c, tree, d, chosen, p) <==> p in tree || !(IsDirectory(tree, p) || IsDirectory(chosen, p))
    {
      assert SameContent(tree, chosen, p);
      KeptIsAlike(c, tree, d, chosen, p);
    }
  }

  lemma KeptIsAlike(c: string, a: Tree, d: string, b: Tree, path: string)
    requires SameContent(a, b, path)
    ensures Alike(c, a, d, b, path) <==> path in a || !(IsDirectory(a, path) || IsDirectory(b, path))
  {
    assert path in a <==> path in b;
  }

  /** Nothing that git show reads differently: at no changed path a submodule, at no removed path a
      directory, in either commit, and no blob that reads as a listing. */
  ghost predicate Readable(before: Tree, c: string, tree: Tree, d: string, chosen: Tree)
  {
    forall p :: !AgreeOn(before, tree, p) ==>
      && (p in tree ==> tree[p].Blob?) && (p in chosen ==> chosen[p].Blob?)
      && (p !in tree ==> !IsDirectory(tree, p) && !IsDirectory(chosen, p))
      && !ReadsAsListing(tree, d, chosen, p)
  }

  ghost predicate Squashed(H: Hash, repo: Repo, evidence: string, selected: string)
  {
    SquashOf(H, repo, evidence, selected).Ok? && SquashOf(H, repo, evidence, selected).value.Some?
  }

  /** The commit the evidence commit was made on. */
  function ParentTree(repo: Repo, evidence: string): Tree
    requires CommitChangedPaths(repo, evidence).Ok?
  {
    repo.commits[repo.commits[evidence].parents[0]].tree
  }

  lemma SquashedMeansPreserved(H: Hash, repo: Repo, evidence: string, selected: string)
    requires CommitChangedPaths(repo, evidence).Ok? && selected in repo.commits
    ensures Squashed(H, repo, evidence, selected) <==>
      Preserves(ChangedNames(ParentTree(repo, evidence), repo.commits[evidence].tree), evidence,
                repo.commits[evidence].tree, selected, repo.commits[selected].tree)
  {
  }

  /** Where every changed path is plainly listed and readable, squash equivalence holds exactly when
      the selection keeps all changes. */
  lemma SquashedIff(H: Hash, repo: Repo, evidence: string, selected: string)
    requires CommitChangedPaths(repo, evidence).Ok? && selected in repo.commits && TwoCommits(evidence, selected)
    requires PlainlyChanged(ParentTree(repo, evidence), repo.commits[evidence].tree)
    requires Readable(ParentTree(repo, evidence), evidence, repo.commits[evidence].tree, selected,
                      repo.commits[selected].tree)
    ensures Squashed(H, repo, evidence, selected) <==>
      KeepsChanges(ParentTree(repo, evidence), repo.commits[evidence].tree, repo.commits[selected].tree)
  {
    var before, tree, chosen := ParentTree(repo, evidence), repo.commits[evidence].tree, repo.commits[selected].tree;
    SquashedMeansPreserved(H, repo, evidence, selected);
    if KeepsChanges(before, tree, chosen) {
      FalselyRejectedIff(before, evidence, tree, selected, chosen);
    } else if Squashed(H, repo, evidence, selected) {
      FalselyAcceptedIff(before, evidence, tree, selected, chosen);
      var p :| !AgreeOn(before, tree, p) && Overlooked(evidence, tree, selected, chosen, p);
      OverlookedIff(evidence, tree, selected, chosen, p);
    }
  }

  /** Then a selection that leaves every other path as in the parent is squash equivalent exactly
      when its tree is the evidence commit's, modes aside. */
  lemma SquashedMeansSameTree(H: Hash, repo: Repo, evidence: string, selected: string)
    requires CommitChangedPaths(repo, evidence).Ok? && selected in repo.commits && TwoCommits(evidence, selected)
    requires PlainlyChanged(ParentTree(repo, evidence), repo.commits[evidence].tree)
    requires Readable(ParentTree(repo, evidence), evidence, repo.commits[evidence].tree, selected,
                      repo.commits[selected].tree)
    requires forall p :: AgreeOn(ParentTree(repo, evidence), repo.commits[evidence].tree, p)
               ==> SameContent(ParentTree(repo, evidence), repo.commits[selected].tree, p)
    ensures Squashed(H, repo, evidence, selected) <==>
      forall p :: SameContent(repo.commits[evidence].tree, repo.commits[selected].tree, p)
  {
    var before, tree, chosen := ParentTree(repo, evidence), repo.commits[evidence].tree, repo.commits[selected].tree;
    SquashedIff(H, repo, evidence, selected);
    if Squashed(H, repo, evidence, selected) {
      forall p ensures SameContent(tree, chosen, p) {
        assert AgreeOn(before, tree, p) ==> SameContent(before, chosen, p);
      }
    }
  }

  // ---- For which evidence commits the comparison is right ----

  /** The tree holds a blob at the path, or at a directory above it, so that nothing can be there. */
  ghost predicate Settled(tree: Tree, path: string)
  {
    BlobAt(tree, path) || exists d :: BlobAt(tree, d) && Below(path, d)
  }

  /** For every selected tree the comparison says whether the changes are kept. */
  ghost predicate Decides(before: Tree, c: string, tree: Tree, d: string)
  {
    forall chosen {:trigger Proper(chosen)} :: Proper(chosen) ==>
      (Preserves(ChangedNames(before, tree), c, tree, d, chosen) <==> KeepsChanges(before, tree, chosen))
  }

  /** No changed blob begins like a listing of the selected commit. */
  ghost predicate NoListings(before: Tree, tree: Tree, d: string)
  {
    forall p :: !AgreeOn(before, tree, p) && BlobAt(tree, p) ==> !StartsWith(tree[p].data, "tree " + d + ":")
  }

  lemma NotBelowEntry(tree: Tree, path: string, d: string)
    requires Proper(tree) && d in tree && Below(path, d)
    ensures path !in tree && !IsDirectory(tree, path)
  {
    if q :| q in tree && Below(q, path) { BelowTransitive(q, path, d); }
    assert path in tree ==> IsDirectory(tree, d);
  }

  // A settled path that the tree lacks is below a blob the commit put there.
  lemma SettledAbove(before: Tree, tree: Tree, path: string) returns (d: string)
    requires Proper(before) && path in before && path !in tree && Settled(tree, path)
    ensures BlobAt(tree, d) && Below(path, d) && d !in before
  {
    d :| BlobAt(tree, d) && Below(path, d);
  }

  lemma SettledIsAlikeIffKept(before: Tree, c: string, tree: Tree, d: string, chosen: Tree, path: string)
    requires Proper(tree) && Proper(chosen) && Settled(tree, path) && BlobAt(tree, path)
    requires !StartsWith(tree[path].data, "tree " + d + ":")
    ensures Alike(c, tree, d, chosen, path) <==> SameContent(tree, chosen, path)
  {
    ListingStarts(d, chosen, path);
  }

  lemma SettledDecides(before: Tree, c: string, tree: Tree, d: string, chosen: Tree)
    requires Proper(before) && Proper(tree) && Proper(chosen) && PlainlyChanged(before, tree) && TwoCommits(c, d)
    requires NoListings(before, tree, d)
    requires forall p :: !AgreeOn(before, tree, p) ==> Settled(tree, p)
    ensures Preserves(ChangedNames(before, tree), c, tree, d, chosen) <==> KeepsChanges(before, tree, chosen)
  {
    PreservesExactly(before, c, tree, d, chosen);
    forall p | !AgreeOn(before, tree, p) && BlobAt(tree, p)
      ensures Alike(c, tree, d, chosen, p) <==> SameContent(tree, chosen, p)
    {
      SettledIsAlikeIffKept(before, c, tree, d, chosen, p);
    }
    forall p | !AgreeOn(before, tree, p) && !BlobAt(tree, p)
      ensures exists a :: !AgreeOn(before, tree, a) && BlobAt(tree, a)
                && (SameContent(tree, chosen, a) ==> Alike(c, tree, d, chosen, p) && SameContent(tree, chosen, p))
    {
      UnderKept(before, c, tree, d, chosen, p);
    }
  }

  // Below a blob that the selection keeps there is nothing, in either tree.
  lemma UnderKept(before: Tree, c: string, tree: Tree, d: string, chosen: Tree, path: string)
    requires Proper(before) && Proper(tree) && Proper(chosen)
    requires !AgreeOn(before, tree, path) && !BlobAt(tree, path) && Settled(tree, path)
    ensures exists a :: !AgreeOn(before, tree, a) && BlobAt(tree, a)
              && (SameContent(tree, chosen, a) ==> Alike(c, tree, d, chosen, path) && SameContent(tree, chosen, path))
  {
    var a :| BlobAt(tree, a) && Below(path, a);
    NotBelowEntry(tree, path, a);
    var above := SettledAbove(before, tree, path);
    assert !AgreeOn(before, tree, above);
    NotBelowEntry(tree, path, above);
    if SameContent(tree, chosen, above) { NotBelowEntry(chosen, path, above); }
  }

  // ---- The other commits leave some selection undecided ----

  lemma Undecided(before: Tree, c: string, tree: Tree, d: string, chosen: Tree)
    requires Proper(chosen)
    requires Preserves(ChangedNames(before, tree), c, tree, d, chosen) != KeepsChanges(before, tree, chosen)
    ensures !Decides(before, c, tree, d)
  {
  }

  /** A file replaced by a directory of its name: even the evidence commit's own tree is rejected. */
  lemma DirectoryRejectsItself(before: Tree, c: string, tree: Tree, d: string, path: string)
    requires Proper(tree) && TwoCommits(c, d)
    requires path in ChangedNames(before, tree) && path !in tree && IsDirectory(tree, path)
    ensures !Preserves(ChangedNames(before, tree), c, tree, d, tree) && KeepsChanges(before, tree, tree)
    ensures !Decides(before, c, tree, d)
  {
    ShownAlike(c, tree, d, tree, path);
    Undecided(before, c, tree, d, tree);
  }

  lemma AddProper(tree: Tree, path: string, e: TreeEntry)
    requires Proper(tree) && path !in tree && !IsDirectory(tree, path)
    requires forall a :: a in tree ==> !Below(path, a)
    ensures Proper(tree[path := e])
  {
    var more := tree[path := e];
    forall p | p in more ensures !IsDirectory(more, p) {
      if q :| q in more && Below(q, p) {
        if q == path {
          BelowSplits(path, p);
        } else {
          assert p in tree ==> IsDirectory(tree, p);
        }
      }
    }
  }

  lemma RemoveProper(tree: Tree, path: string)
    requires Proper(tree)
    ensures Proper(tree - {path})
  {
    forall p | p in tree - {path} ensures !IsDirectory(tree - {path}, p) {
      assert p in tree;
    }
  }

  function ChildOf(path: string): string { path + "/x" }

  lemma ChildIsBelow(path: string)
    ensures Below(ChildOf(path), path)
    ensures forall a :: Below(ChildOf(path), a) ==> a == path || Below(path, a)
  {
    var child := ChildOf(path);
    assert child[..|path| + 1] == path + "/";
    forall a | Below(child, a) ensures a == path || Below(path, a) {
      BelowSplits(child, a);
      if |a| == |path| {
        assert child[..|a|] == a && child[..|path|] == path;
      } else if |a| < |path| {
        assert child[..|a| + 1] == a + "/" && path[..|a| + 1] == child[..|a| + 1];
      }
    }
  }

  // A removed path with nothing in its place: the selection that has a directory there.
  lemma RemovalRejects(before: Tree, c: string, tree: Tree, d: string, path: string)
    requires Proper(before) && Proper(tree) && TwoCommits(c, d)
    requires path in ChangedNames(before, tree) && path in before && path !in tree && !IsDirectory(tree, path)
    requires forall a :: a in tree ==> !Below(path, a)
    ensures !Decides(before, c, tree, d)
  {
    var child := ChildOf(path);
    var chosen := tree[child := Blob(Regular, "")];
    ChildIsBelow(path);
    assert child !in tree;
    assert !IsDirectory(tree, child) by {
      if q :| q in tree && Below(q, child) { BelowTransitive(q, child, path); }
    }
    AddProper(tree, child, Blob(Regular, ""));
    assert child in chosen && IsDirectory(chosen, path) && path !in chosen;
    ShownAlike(c, tree, d, chosen, path);
    assert child !in before by { assert child in before ==> IsDirectory(before, path); }
    assert KeepsChanges(before, tree, chosen);
    Undecided(before, c, tree, d, chosen);
  }

  lemma RemovedShows(c: string, tree: Tree, d: string, path: string, n: string)
    requires Proper(tree) && TwoCommits(c, d) && path in tree && tree[path].Gitlink?
    requires n in tree || !IsDirectory(tree, n)
    ensures Show(c, tree, n) == Show(d, tree - {path}, n)
  {
    var chosen := tree - {path};
    assert IsDirectory(chosen, n) ==> IsDirectory(tree, n);
    assert n in tree && n != path ==> n in chosen && chosen[n] == tree[n];
  }

  /** A moved or added submodule: the selection without it is accepted. */
  lemma SubmoduleIsLost(before: Tree, c: string, tree: Tree, d: string, path: string)
    requires Proper(tree) && TwoCommits(c, d)
    requires path in tree && tree[path].Gitlink? && !AgreeOn(before, tree, path)
    requires forall n :: n in ChangedNames(before, tree) ==> n in tree || !IsDirectory(tree, n)
    ensures Preserves(ChangedNames(before, tree), c, tree, d, tree - {path})
    ensures !KeepsChanges(before, tree, tree - {path})
    ensures !Decides(before, c, tree, d)
  {
    var chosen := tree - {path};
    RemoveProper(tree, path);
    forall n | n in ChangedNames(before, tree) ensures Show(c, tree, n) == Show(d, chosen, n) {
      RemovedShows(c, tree, d, path, n);
    }
    assert !SameContent(tree, chosen, path);
    Undecided(before, c, tree, d, chosen);
  }

  lemma UnsettledIsUndecided(before: Tree, c: string, tree: Tree, d: string, path: string)
    requires Proper(before) && Proper(tree) && PlainlyChanged(before, tree) && TwoCommits(c, d)
    requires !AgreeOn(before, tree, path) && !Settled(tree, path)
    ensures !Decides(before, c, tree, d)
  {
    PlainNames(before, tree);
    if n :| n in ChangedNames(before, tree) && n !in tree && IsDirectory(tree, n) {
      DirectoryRejectsItself(before, c, tree, d, n);
    } else if path in tree {
      SubmoduleIsLost(before, c, tree, d, path);
    } else if a :| a in tree && Below(path, a) {
      assert path in before;
      assert a !in before by { assert a in before ==> IsDirectory(before, a); }
      SubmoduleIsLost(before, c, tree, d, a);
    } else {
      RemovalRejects(before, c, tree, d, path);
    }
  }

  // ---- Quoted names ----

  /** No tracked path contains a double quote. */
  ghost predicate NoQuoteMarks(tree: Tree)
  {
    forall p :: p in tree ==> '"' !in p
  }

  lemma QuotedHasMark(name: string, tree: Tree)
    requires name != "" && name[0] == '"' && NoQuoteMarks(tree)
    ensures name !in tree && !IsDirectory(tree, name) && forall a :: a in tree ==> !Below(name, a)
  {
    assert '"' in name;
    if q :| q in tree && Below(q, name) {
      BelowSplits(q, name);
    }
    forall a | a in tree ensures !Below(name, a) {
      if Below(name, a) { BelowSplits(name, a); }
    }
  }

  // The selection that adds a file under the quoted name itself is rejected with all changes kept.
  lemma QuotedIsUndecided(before: Tree, c: string, tree: Tree, d: string, path: string)
    requires Proper(tree) && TwoCommits(c, d) && NoQuoteMarks(before) && NoQuoteMarks(tree)
    requires Printed(path) in ChangedNames(before, tree) && !PlainName(path)
    ensures !Decides(before, c, tree, d)
  {
    var name := Printed(path);
    var chosen := tree[name := Blob(Regular, "")];
    QuotedShape(path);
    QuotedHasMark(name, tree);
    QuotedHasMark(name, before);
    AddProper(tree, name, Blob(Regular, ""));
    ShownAlike(c, tree, d, chosen, name);
    assert KeepsChanges(before, tree, chosen);
    Undecided(before, c, tree, d, chosen);
  }

  /** The comparison is right about every selected tree exactly when no changed path is quoted and
      the evidence commit holds a blob at each changed path or at a directory above it: so not for a
      moved submodule, and not for a removal unless a file took the place of its directory. */
  lemma SquashIsExactIff(before: Tree, c: string, tree: Tree, d: string)
    requires Proper(before) && Proper(tree) && TwoCommits(c, d) && NoListings(before, tree, d)
    requires TightlyChanged(before, tree) && NoQuoteMarks(before) && NoQuoteMarks(tree)
    ensures Decides(before, c, tree, d)
       <==> forall p :: !AgreeOn(before, tree, p) ==> PlainName(p) && Settled(tree, p)
  {
    if p :| !AgreeOn(before, tree, p) && !PlainName(p) {
      PrintedNames(before, tree);
      QuotedIsUndecided(before, c, tree, d, p);
    } else {
      assert PlainlyChanged(before, tree);
      if p :| !AgreeOn(before, tree, p) && !Settled(tree, p) {
        UnsettledIsUndecided(before, c, tree, d, p);
      } else {
        forall chosen | Proper(chosen)
          ensures Preserves(ChangedNames(before, tree), c, tree, d, chosen) <==> KeepsChanges(before, tree, chosen)
        {
          SettledDecides(before, c, tree, d, chosen);
        }
      }
    }
  }

  // A plainly named changed path is not a directory above the quoted one.
  lemma PlainNameUntouched(before: Tree, tree: Tree, path: string, p: string)
    requires Proper(before) && path in before + tree && forall a :: a in tree ==> !Below(path, a)
    requires !AgreeOn(before, tree, p) && (p in tree || !IsDirectory(tree, p))
    ensures !Below(path, p)
  {
    if Below(path, p) {
      assert p !in tree && p in before;
      assert path in before ==> IsDirectory(before, p);
    }
  }

  lemma UntouchedShows(c: string, tree: Tree, d: string, chosen: Tree, path: string, n: string)
    requires chosen - {path} == tree - {path} && n != path && !Below(path, n)
    requires n in tree || !IsDirectory(tree, n)
    ensures Show(c, tree, n) == Show(d, chosen, n)
  {
    assert n in chosen - {path} <==> n in tree - {path};
    if q :| q in chosen && Below(q, n) { assert q in tree - {path}; }
  }

  lemma NameUntouched(before: Tree, c: string, tree: Tree, d: string, chosen: Tree, path: string, p: string)
    requires Proper(before) && path in before + tree && forall a :: a in tree ==> !Below(path, a)
    requires NoQuoteMarks(tree) && NoQuoteMarks(chosen) && chosen - {path} == tree - {path} && !PlainName(path)
    requires !AgreeOn(before, tree, p) && (p in tree || !IsDirectory(tree, p))
    ensures Show(c, tree, Printed(p)) == Show(d, chosen, Printed(p))
  {
    if PlainName(p) {
      PlainNameUntouched(before, tree, path, p);
      UntouchedShows(c, tree, d, chosen, path, p);
    } else {
      QuotedShape(p);
      QuotedHasMark(Printed(p), tree);
      QuotedHasMark(Printed(p), chosen);
    }
  }

  /** The selection without the change: its blob removed, or the removed file put back. */
  function Undone(tree: Tree, path: string): Tree
  {
    if path in tree then tree - {path} else tree[path := Blob(Regular, "")]
  }

  lemma UndoneDiffers(before: Tree, tree: Tree, path: string)
    requires Proper(before) && Proper(tree) && !AgreeOn(before, tree, path) && NoQuoteMarks(before)
    requires NoQuoteMarks(tree)
    requires (forall a :: a in tree ==> !Below(path, a)) && (path in tree || !IsDirectory(tree, path))
    ensures var chosen := Undone(tree, path);
      && Proper(chosen) && NoQuoteMarks(chosen) && chosen - {path} == tree - {path} && !SameContent(tree, chosen, path)
      && path in before + tree
  {
    if path in tree { RemoveProper(tree, path); } else { AddProper(tree, path, Blob(Regular, "")); }
    assert Undone(tree, path) - {path} == tree - {path};
  }

  /** A change under a quoted name is lost: unless the evidence commit put a file above it, the
      selection without the change is accepted. */
  lemma QuotedChangeIsLost(before: Tree, c: string, tree: Tree, d: string, path: string)
    requires Proper(before) && Proper(tree) && TightlyChanged(before, tree)
    requires NoQuoteMarks(before) && NoQuoteMarks(tree)
    requires !AgreeOn(before, tree, path) && !PlainName(path) && forall a :: a in tree ==> !Below(path, a)
    requires forall p :: !AgreeOn(before, tree, p) ==> p in tree || !IsDirectory(tree, p)
    ensures Proper(Undone(tree, path)) && Preserves(ChangedNames(before, tree), c, tree, d, Undone(tree, path))
    ensures !SameContent(tree, Undone(tree, path), path) && !KeepsChanges(before, tree, Undone(tree, path))
  {
    UndoneDiffers(before, tree, path);
    PrintedNames(before, tree);
    forall n | n in ChangedNames(before, tree) ensures Show(c, tree, n) == Show(d, Undone(tree, path), n) {
      var p :| !AgreeOn(before, tree, p) && n == Printed(p);
      NameUntouched(before, c, tree, d, Undone(tree, path), path, p);
    }
  }

  // ---- One-change histories ----

  /** A store in which commit "e" changes one entry of its parent "p". */
  function OneChangeHistory(path: string, was: TreeEntry, now: TreeEntry): Repo
  {
    Repo(None, true, map["p" := Commit([], map[path := was], ""), "e" := Commit(["p"], map[path := now], "")], map[])
  }

  lemma HistoryTrees(path: string, was: TreeEntry, now: TreeEntry)
    ensures var commits := OneChangeHistory(path, was, now).commits;
      && "p" in commits && "e" in commits && commits["e"].parents == ["p"]
      && commits["p"].tree == map[path := was] && commits["e"].tree == map[path := now]
  {
    assert "p"[0] == 'p' && "e"[0] == 'e';
  }

  lemma OnlyKey(path: string)
    ensures SortedKeys({path}) == [path]
  {
    var keys := SortedKeys({path});
    assert |keys| == 1 && path in keys;
  }

  lemma ListedOne(path: string)
    requires PlainName(path) ==> Tight(path)
    ensures ListedNames([path]) == [Printed(path)]
  {
    ListedAsPrinted([path]);
    assert PrintedLines([path]) == [Printed(path)];
  }

  lemma OneChange(before: Tree, tree: Tree, path: string)
    requires before.Keys == tree.Keys == {path} && !AgreeOn(before, tree, path) && (PlainName(path) ==> Tight(path))
    ensures ChangedNames(before, tree) == [Printed(path)]
  {
    assert Differing(before, tree) == {path};
    OnlyKey(path);
    ListedOne(path);
    SortNamesOne(Printed(path));
  }

  lemma ParentSelected(H: Hash, repo: Repo, evidence: string, parent: string, names: seq<string>)
    requires evidence in repo.commits && parent in repo.commits && repo.commits[evidence].parents == [parent]
    requires ChangedNames(repo.commits[parent].tree, repo.commits[evidence].tree) == names != []
    requires Preserves(names, evidence, repo.commits[evidence].tree, parent, repo.commits[parent].tree)
    ensures CommitChangedPaths(repo, evidence) == Ok(names)
    ensures SquashOf(H, repo, evidence, parent)
         == Ok(Some(SquashRecord(H, Attested(H, names, evidence, repo.commits[evidence].tree))))
  {
  }

  // The parent itself is attested as equivalent to a commit that changes one entry unseen.
  lemma UnseenChange(H: Hash, path: string, was: TreeEntry, now: TreeEntry)
    requires was != now && (PlainName(path) ==> Tight(path))
    requires Show("e", map[path := now], Printed(path)) == Show("p", map[path := was], Printed(path))
    ensures var repo := OneChangeHistory(path, was, now);
      && CommitChangedPaths(repo, "e") == Ok([Printed(path)])
      && SquashOf(H, repo, "e", "p") == Ok(Some(SquashRecord(H, Attested(H, [Printed(path)], "e", map[path := now]))))
  {
    var before: Tree, tree: Tree := map[path := was], map[path := now];
    assert !AgreeOn(before, tree, path);
    OneChange(before, tree, path);
    HistoryTrees(path, was, now);
    ParentSelected(H, OneChangeHistory(path, was, now), "e", "p", [Printed(path)]);
  }

  lemma LongerIsNowhere(tree: Tree, path: string, name: string)
    requires tree.Keys == {path} && |name| > |path|
    ensures name !in tree && !IsDirectory(tree, name)
  {
  }

  /** Any one-entry change under a name that git prints quoted: the parent, with the old bytes, is
      attested as squash equivalent, and the record attests an absent file. */
  lemma QuotedChangeIsAttestedAsAbsent(H: Hash, path: string, was: TreeEntry, now: TreeEntry)
    requires !PlainName(path) && ContentOf(was) != ContentOf(now)
    ensures var repo := OneChangeHistory(path, was, now);
      && CommitChangedPaths(repo, "e") == Ok([Printed(path)])
      && SquashOf(H, repo, "e", "p") == Ok(Some(SquashRecord(H, Attested(H, [Printed(path)], "e", map[path := now]))))
    ensures DigestOrNull(H, Show("e", map[path := now], Printed(path))) == Null
    ensures !KeepsChanges(map[path := was], map[path := now], map[path := was])
  {
    var before: Tree, tree: Tree := map[path := was], map[path := now];
    QuotedShape(path);
    LongerIsNowhere(before, path, Printed(path));
    LongerIsNowhere(tree, path, Printed(path));
    UnseenChange(H, path, was, now);
    assert !AgreeOn(before, tree, path) && !SameContent(tree, before, path);
  }

  /** A moved submodule: the parent, still on the old commit, is attested as squash equivalent,
      and the record attests an absent file. */
  lemma MovedSubmoduleIsAttestedAsAbsent(H: Hash, path: string, was: string, now: string)
    requires PlainlyListed(path) && was != now
    ensures var repo := OneChangeHistory(path, Gitlink(was), Gitlink(now));
      && CommitChangedPaths(repo, "e") == Ok([path])
      && SquashOf(H, repo, "e", "p") == Ok(Some(SquashRecord(H, Attested(H, [path], "e", map[path := Gitlink(now)]))))
    ensures DigestOrNull(H, Show("e", map[path := Gitlink(now)], path)) == Null
    ensures !KeepsChanges(map[path := Gitlink(was)], map[path := Gitlink(now)], map[path := Gitlink(was)])
  {
    var before: Tree, tree: Tree := map[path := Gitlink(was)], map[path := Gitlink(now)];
    UnseenChange(H, path, Gitlink(was), Gitlink(now));
    assert !AgreeOn(before, tree, path) && !SameContent(tree, before, path);
  }

  /** A change of mode alone: the parent, with the old mode, is attested with the file's digest. */
  lemma ModeIsNotCompared(H: Hash, path: string, data: string, was: Mode, now: Mode)
    requires PlainlyListed(path) && was != now
    ensures var repo := OneChangeHistory(path, Blob(was, data), Blob(now, data));
      && CommitChangedPaths(repo, "e") == Ok([path])
      && SquashOf(H, repo, "e", "p")
         == Ok(Some(SquashRecord(H, Attested(H, [path], "e", map[path := Blob(now, data)]))))
    ensures DigestOrNull(H, Show("e", map[path := Blob(now, data)], path)) == Str(H(data))
    ensures !AgreeOn(map[path := Blob(was, data)], map[path := Blob(now, data)], path)
  {
    UnseenChange(H, path, Blob(was, data), Blob(now, data));
  }

  // ---- A file that becomes a directory ----

  /** Commit "e" replaces the file x by x/a; commit "s", made apart from it, has the same tree. */
  function DirectoryHistory(was: string, now: string): Repo
  {
    var before: Tree, after: Tree := map["x" := Blob(Regular, was)], map["x/a" := Blob(Regular, now)];
    Repo(None, true,
         map["p" := Commit([], before, ""), "e" := Commit(["p"], after, ""), "s" := Commit(["p"], after, "")],
         map[])
  }

  lemma DirectoryCommits(was: string, now: string)
    ensures var commits := DirectoryHistory(was, now).commits;
      && "p" in commits && "e" in commits && "s" in commits
      && commits["p"] == Commit([], map["x" := Blob(Regular, was)], "")
      && commits["e"] == Commit(["p"], map["x/a" := Blob(Regular, now)], "")
      && commits["s"] == commits["e"]
  {
    assert "p"[0] == 'p' && "e"[0] == 'e' && "s"[0] == 's';
  }

  lemma NotBehind(was: string, now: string)
    ensures !Ancestor(DirectoryHistory(was, now).commits, "e", "s")
  {
    var commits := DirectoryHistory(was, now).commits;
    DirectoryCommits(was, now);
    assert "p"[0] == 'p' && "e"[0] == 'e' && "s"[0] == 's';
    if chain :| Leads(commits, chain, "s", "e") {
      assert |chain| > 1;
      assert GitStore.Step(commits, chain, 0);
      assert chain[1] == "p";
      if |chain| > 2 { assert GitStore.Step(commits, chain, 1); }
    }
  }

  lemma DirectoryChange(was: string, now: string)
    ensures var before: Tree, after: Tree := map["x" := Blob(Regular, was)], map["x/a" := Blob(Regular, now)];
      && PlainlyChanged(before, after) && Proper(after) && !AgreeOn(before, after, "x")
      && "x" !in after && IsDirectory(after, "x")
  {
    var before: Tree, after: Tree := map["x" := Blob(Regular, was)], map["x/a" := Blob(Regular, now)];
    assert |"x"| == 1 && |"x/a"| == 3;
    assert PlainlyListed("x") && PlainlyListed("x/a");
    forall p | !AgreeOn(before, after, p) ensures PlainlyListed(p) {
      assert p in before || p in after;
    }
    assert Below("x/a", "x") by { assert "x/a"[..2] == "x" + "/"; }
  }

  /** The selection with the evidence commit's very tree is not squash equivalent to it, and the
      manifest cannot be built on it. */
  lemma SameTreeIsRejected(H: Hash, was: string, now: string)
    ensures var repo := DirectoryHistory(was, now);
      && "e" in repo.commits && "s" in repo.commits && repo.commits["s"].tree == repo.commits["e"].tree
      && SquashOf(H, repo, "e", "s") == Ok(None) && CompatibilityRelation(H, repo, "e", "s").Err?
  {
    var repo := DirectoryHistory(was, now);
    var before: Tree, after: Tree := map["x" := Blob(Regular, was)], map["x/a" := Blob(Regular, now)];
    DirectoryCommits(was, now);
    DirectoryChange(was, now);
    PlainNames(before, after);
    assert "e"[0] == 'e' && "s"[0] == 's';
    DirectoryRejectsItself(before, "e", after, "s", "x");
    NotBehind(was, now);
    Rejected(H, repo, "e", "s", "p");
  }

  lemma Rejected(H: Hash, repo: Repo, evidence: string, selected: string, parent: string)
    requires evidence in repo.commits && selected in repo.commits && parent in repo.commits && evidence != selected
    requires repo.commits[evidence].parents == [parent] && !Ancestor(repo.commits, evidence, selected)
    requires var names := ChangedNames(repo.commits[parent].tree, repo.commits[evidence].tree);
      names != [] && !Preserves(names, evidence, repo.commits[evidence].tree, selected, repo.commits[selected].tree)
    ensures SquashOf(H, repo, evidence, selected) == Ok(None)
    ensures CompatibilityRelation(H, repo, evidence, selected).Err?
  {
  }

  /** A quoted name: one letter outside ASCII. */
  lemma AccentedNamePrintsQuoted()
    ensures !PlainName([0xE9 as char]) && Printed([0xE9 as char]) == "\"\\303\\251\""
  {
    var c := 0xE9 as char;
    assert !PlainChar(c) && c in [c];
    assert Utf8(0xE9) == [0xC3, 0xA9];
    assert Octal(0xC3) == "\\303" && Octal(0xA9) == "\\251";
    assert [0xC3, 0xA9][1..] == [0xA9] && [0xA9][1..] == [];
    assert Octals([0xA9]) == Octal(0xA9) && Octals([0xC3, 0xA9]) == Octal(0xC3) + Octal(0xA9);
    assert QuotedChars([c]) == QuotedChar(c) + "" by { assert [c][1..] == ""; }
  }
}
