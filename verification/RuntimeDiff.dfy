/** Runtime equivalence: no runtime-relevant name in the output of git diff.  What that says
    about two trees, given how git prints names and which renames it reports. */
module RuntimeDiff {
  import opened Text
  import opened Outcome
  import opened GitNames
  import opened GitTrees
  import opened Matching

  const RUNTIME_EXACT_PATHS := {"apps/api/pyproject.toml", "pyproject.toml", "uv.lock"}

  const RUNTIME_PREFIXES := [
    "apps/api/src/", "apps/api/alembic/", "packages/governance-schemas/src/", "packages/policy-engine/src/"]

  predicate RuntimeRelevant(path: string)
  {
    path in RUNTIME_EXACT_PATHS || exists i :: 0 <= i < |RUNTIME_PREFIXES| && StartsWith(path, RUNTIME_PREFIXES[i])
  }

  /** Git's similarity threshold; what it always holds of is a pair of equal entries. */
  type Similarity = (TreeEntry, TreeEntry) -> bool

  ghost predicate FindsCopies(similar: Similarity)
  {
    forall e :: similar(e, e)
  }

  /** A report pairs deleted paths one to one with similar added ones; the diff then lists the
      target only. */
  ghost predicate Renames(similar: Similarity, base: Tree, head: Tree, renames: map<string, string>)
  {
    && (forall p :: p in renames ==> p in base && p !in head && renames[p] in head && renames[p] !in base)
    && (forall p :: p in renames ==> similar(base[p], head[renames[p]]))
    && (forall p, q :: p in renames && q in renames && p != q ==> renames[p] != renames[q])
  }

  /** The paths that git diff --name-only lists. */
  function ReportedPaths(base: Tree, head: Tree, renames: map<string, string>): set<string>
  {
    Differing(base, head) - renames.Keys
  }

  /** A listed path as it is read: printed by git, stripped. */
  function Shown(path: string): string
  {
    Strip(Printed(path))
  }

  function ShownLines(paths: seq<string>): seq<string>
  {
    seq(|paths|, i requires 0 <= i < |paths| => Shown(paths[i]))
  }

  /** Lines that are blank once stripped are dropped. */
  function NotBlank(lines: seq<string>): (names: seq<string>)
    ensures forall n :: n in names <==> n in lines && n != ""
  {
    if lines == [] then []
    else (if lines[0] == "" then [] else [lines[0]]) + NotBlank(lines[1..])
  }

  function NamesRead(listed: set<string>): seq<string>
  {
    SortNames(NotBlank(ShownLines(SortedKeys(listed))))
  }

  function ChangedPaths(base: Tree, head: Tree, renames: map<string, string>): seq<string>
  {
    NamesRead(ReportedPaths(base, head, renames))
  }

  function RuntimeChanges(names: seq<string>): (changes: seq<string>)
    ensures changes == [] <==> forall n :: n in names ==> !RuntimeRelevant(n)
  {
    if names == [] then []
    else
      var n := |names| - 1;
      assert names == names[..n] + [names[n]];
      RuntimeChanges(names[..n]) + if RuntimeRelevant(names[n]) then [names[n]] else []
  }

  lemma RuntimeChangesStep(names: seq<string>, i: nat)
    requires i < |names|
    ensures RuntimeChanges(names[..i + 1]) ==
      RuntimeChanges(names[..i]) + if RuntimeRelevant(names[i]) then [names[i]] else []
  {
    assert names[..i + 1][..i] == names[..i];
  }

  /** Whether a differing path, if listed, counts as a runtime change. */
  predicate Visible(path: string)
  {
    RuntimeRelevant(Shown(path))
  }

  /** Accepts exactly when no listed path shows as a runtime path; the count is that of the
      names read. */
  method RuntimeEquivalence(base: Tree, head: Tree, renames: map<string, string>) returns (r: Result<nat>)
    ensures r.Ok? <==> forall p :: p in ReportedPaths(base, head, renames) ==> !Visible(p)
    ensures r.Ok? ==> r.value == |ChangedPaths(base, head, renames)|
  {
    var names := ChangedPaths(base, head, renames);
    var runtimeChanges: seq<string> := [];
    for i := 0 to |names|
      invariant runtimeChanges == RuntimeChanges(names[..i])
    {
      RuntimeChangesStep(names, i);
      if RuntimeRelevant(names[i]) { runtimeChanges := runtimeChanges + [names[i]]; }
    }
    assert names[..|names|] == names;
    NothingShown();
    NamesTell(ReportedPaths(base, head, renames), n => RuntimeRelevant(n));
    if runtimeChanges != [] { return Err("benchmark checkout changed release runtime paths"); }
    return Ok(|names|);
  }

  lemma NothingShown()
    ensures !RuntimeRelevant("")
  {
  }

  lemma LineOf(paths: seq<string>, p: string)
    requires p in paths
    ensures Shown(p) in ShownLines(paths)
  {
    var i :| 0 <= i < |paths| && paths[i] == p;
    assert ShownLines(paths)[i] == Shown(p);
  }

  lemma PathOf(paths: seq<string>, line: string) returns (p: string)
    requires line in ShownLines(paths)
    ensures p in paths && Shown(p) == line
  {
    var i :| 0 <= i < |paths| && ShownLines(paths)[i] == line;
    p := paths[i];
  }

  // The names read tell of every path, blank ones aside.
  lemma NamesTell(listed: set<string>, flagged: string -> bool)
    requires !flagged("")
    ensures (forall n :: n in NamesRead(listed) ==> !flagged(n)) <==> (forall p :: p in listed ==> !flagged(Shown(p)))
  {
    var paths := SortedKeys(listed);
    SortNamesKeeps(NotBlank(ShownLines(paths)));
    if forall n :: n in NamesRead(listed) ==> !flagged(n) {
      forall p | p in listed ensures !flagged(Shown(p)) { LineOf(paths, p); }
    }
    if forall p :: p in listed ==> !flagged(Shown(p)) {
      forall n | n in NamesRead(listed) ensures !flagged(n) { var p := PathOf(paths, n); }
    }
  }

  // ---- Which runtime paths show ----

  lemma PrefixSurvives(path: string, prefix: string)
    requires StartsWith(path, prefix) && prefix != "" && prefix[0] != ' ' && prefix[|prefix| - 1] != ' '
    ensures StartsWith(Strip(path), prefix)
  {
    assert path[0] == prefix[0] && path[|prefix| - 1] == prefix[|prefix| - 1];
    assert StripStart(path) == path;
    StripEndKeeps(path, |prefix| - 1);
    assert path[..|prefix|] == prefix;
  }

  lemma PrefixesAreTight(i: nat)
    requires i < |RUNTIME_PREFIXES|
    ensures RUNTIME_PREFIXES[i] != "" && RUNTIME_PREFIXES[i][|RUNTIME_PREFIXES[i]| - 1] == '/'
    ensures RUNTIME_PREFIXES[i][0] == 'a' || RUNTIME_PREFIXES[i][0] == 'p'
  {
  }

  lemma ExactPathsAreTight(path: string)
    requires path in RUNTIME_EXACT_PATHS
    ensures path != "" && (path[0] == 'a' || path[0] == 'p' || path[0] == 'u')
    ensures path[|path| - 1] == 'l' || path[|path| - 1] == 'k'
  {
  }

  lemma QuoteIsNotRuntime(name: string)
    requires name != "" && name[0] == '"'
    ensures !RuntimeRelevant(name)
  {
    if name in RUNTIME_EXACT_PATHS { ExactPathsAreTight(name); }
    forall i | 0 <= i < |RUNTIME_PREFIXES| ensures !StartsWith(name, RUNTIME_PREFIXES[i]) {
      PrefixesAreTight(i);
    }
  }

  /** A runtime path shows as one exactly when git prints its name unquoted. */
  lemma VisibleIffPlain(path: string)
    requires RuntimeRelevant(path)
    ensures Visible(path) <==> PlainName(path)
  {
    if PlainName(path) {
      if path in RUNTIME_EXACT_PATHS {
        ExactPathsAreTight(path);
        assert Strip(path) == path;
      } else {
        var i :| 0 <= i < |RUNTIME_PREFIXES| && StartsWith(path, RUNTIME_PREFIXES[i]);
        PrefixesAreTight(i);
        PrefixSurvives(path, RUNTIME_PREFIXES[i]);
      }
    } else {
      QuotedShape(path);
      TightStays(Printed(path));
      QuoteIsNotRuntime(Printed(path));
    }
  }

  // ---- What acceptance means ----

  ghost predicate Accepted(similar: Similarity, base: Tree, head: Tree, renames: map<string, string>)
  {
    Renames(similar, base, head, renames) && forall p :: p in ReportedPaths(base, head, renames) ==> !Visible(p)
  }

  /** After acceptance the trees agree on a plainly named runtime path exactly when the path has
      not gone from head. */
  lemma AcceptedAgreesUnlessGone(similar: Similarity, base: Tree, head: Tree, renames: map<string, string>,
                                 path: string)
    requires Accepted(similar, base, head, renames) && RuntimeRelevant(path) && PlainName(path)
    ensures AgreeOn(base, head, path) <==> (path in base ==> path in head)
  {
    VisibleIffPlain(path);
    DifferingExactly(base, head, path);
    assert path !in ReportedPaths(base, head, renames);
  }

  /** Two equivalences accepted from one release commit: benchmark and HEAD agree on a plainly
      named runtime path exactly when it is not a release file that only one of them dropped. */
  lemma EquivalencesCompose(similar: Similarity, release: Tree, benchmark: Tree, head: Tree,
                            r: map<string, string>, s: map<string, string>, path: string)
    requires Accepted(similar, release, benchmark, r) && Accepted(similar, release, head, s)
    requires RuntimeRelevant(path) && PlainName(path)
    ensures AgreeOn(benchmark, head, path) <==> (path in release ==> (path in benchmark <==> path in head))
  {
    AcceptedAgreesUnlessGone(similar, release, benchmark, r, path);
    AcceptedAgreesUnlessGone(similar, release, head, s, path);
  }

  // ---- When acceptance hides a runtime change ----

  /** The differing paths that would show as runtime changes if listed. */
  function Showing(base: Tree, head: Tree): set<string>
  {
    set p | p in Differing(base, head) && Visible(p)
  }

  /** The added paths that do not show as runtime changes. */
  function QuietlyAdded(base: Tree, head: Tree): set<string>
  {
    set p | p in head && p !in base && !Visible(p)
  }

  ghost predicate RuntimeDiffers(base: Tree, head: Tree)
  {
    exists p :: RuntimeRelevant(p) && !AgreeOn(base, head, p)
  }

  /** Whether git would pair the deleted path with the added one. */
  function Fits(similar: Similarity, base: Tree, head: Tree): (string, string) -> bool
  {
    (p, t) => p in base && t in head && similar(base[p], head[t])
  }

  /** Every differing path that shows is gone, and any of them have between them at least as many
      similar quiet additions. */
  ghost predicate CanPairAll(similar: Similarity, base: Tree, head: Tree)
  {
    && (forall p :: p in Showing(base, head) ==> p in base && p !in head)
    && Enough(Showing(base, head), QuietlyAdded(base, head), Fits(similar, base, head))
  }

  lemma AcceptedPairsAll(similar: Similarity, base: Tree, head: Tree, renames: map<string, string>)
    requires Accepted(similar, base, head, renames)
    ensures CanPairAll(similar, base, head)
  {
    var showing, quiet := Showing(base, head), QuietlyAdded(base, head);
    forall p | p in showing ensures p in renames && renames[p] in quiet {
      assert p in renames;
      var t := renames[p];
      DifferingExactly(base, head, t);
      assert t in ReportedPaths(base, head, renames);
    }
    var pairs := map p | p in showing :: renames[p];
    MatchedIsEnough(pairs, showing, quiet, Fits(similar, base, head));
  }

  lemma PairedIsAccepted(similar: Similarity, base: Tree, head: Tree, pairs: map<string, string>)
    requires forall p :: p in Showing(base, head) ==> p in base && p !in head
    requires Matches(pairs, Showing(base, head), QuietlyAdded(base, head), Fits(similar, base, head))
    ensures Accepted(similar, base, head, pairs)
  {
    forall p | p in pairs ensures pairs[p] in QuietlyAdded(base, head) && similar(base[p], head[pairs[p]]) {
      assert Fits(similar, base, head)(p, pairs[p]);
    }
    forall p | p in ReportedPaths(base, head, pairs) ensures !Visible(p) {
      assert p in Differing(base, head) && p !in Showing(base, head);
    }
  }

  /** Some report of similar pairs lets a runtime difference through exactly when one exists, every
      difference that would show is a deletion, and each set of these deletions has at least as many
      similar quiet additions as members. */
  lemma SomeReportHidesIff(similar: Similarity, base: Tree, head: Tree)
    ensures (exists renames :: Accepted(similar, base, head, renames) && RuntimeDiffers(base, head))
       <==> RuntimeDiffers(base, head) && CanPairAll(similar, base, head)
  {
    if renames :| Accepted(similar, base, head, renames) { AcceptedPairsAll(similar, base, head, renames); }
    if CanPairAll(similar, base, head) {
      var pairs := EnoughMatches(Showing(base, head), QuietlyAdded(base, head), Fits(similar, base, head));
      PairedIsAccepted(similar, base, head, pairs);
    }
  }

  /** A runtime file that is gone, with nothing added that is similar to it, is always seen. */
  lemma UnmatchedDeletionIsSeen(similar: Similarity, base: Tree, head: Tree, renames: map<string, string>, path: string)
    requires RuntimeRelevant(path) && PlainName(path) && path in base && path !in head
    requires forall t :: t in head && t !in base ==> !similar(base[path], head[t])
    ensures !Accepted(similar, base, head, renames)
  {
    VisibleIffPlain(path);
    if Accepted(similar, base, head, renames) {
      AcceptedPairsAll(similar, base, head, renames);
      DifferingExactly(base, head, path);
      var t := SomePartner(Showing(base, head), QuietlyAdded(base, head), Fits(similar, base, head), path);
    }
  }

  // ---- Two inputs on which a runtime change is accepted ----

  lemma OldLockShows()
    ensures Shown("old.lock") == "old.lock"
  {
    var target := "old.lock";
    assert PlainName(target) && Tight(target);
    TightStays(target);
  }

  lemma LockIsRuntime()
    ensures RuntimeRelevant("uv.lock") && !RuntimeRelevant("old.lock")
  {
    var target := "old.lock";
    assert |target| == 8 && |"pyproject.toml"| == 14 && |"apps/api/pyproject.toml"| == 23 && |"uv.lock"| == 7;
    assert target[0] == 'o';
    forall i | 0 <= i < |RUNTIME_PREFIXES| ensures !StartsWith(target, RUNTIME_PREFIXES[i]) {
      PrefixesAreTight(i);
    }
  }

  /** Moving the lock file away is accepted when the diff pairs the deletion with the addition. */
  lemma RenamedRuntimeFileIsAccepted(similar: Similarity, lock: TreeEntry)
    requires FindsCopies(similar)
    ensures var base: Tree := map["uv.lock" := lock]; var head: Tree := map["old.lock" := lock];
      && Accepted(similar, base, head, map["uv.lock" := "old.lock"])
      && RuntimeRelevant("uv.lock") && !AgreeOn(base, head, "uv.lock")
  {
    var base: Tree, head: Tree := map["uv.lock" := lock], map["old.lock" := lock];
    assert "uv.lock"[0] != "old.lock"[0];
    LockIsRuntime();
    OldLockShows();
    assert ReportedPaths(base, head, map["uv.lock" := "old.lock"]) <= {"old.lock"};
  }

  /** A modified source file with a non-ASCII name is accepted without any rename. */
  lemma QuotedRuntimeFileIsAccepted(similar: Similarity, was: TreeEntry, now: TreeEntry)
    requires was != now
    ensures var path := "apps/api/src/" + [0xE9 as char] + ".py";
      var base: Tree, head: Tree := map[path := was], map[path := now];
      Accepted(similar, base, head, map[]) && RuntimeRelevant(path) && !AgreeOn(base, head, path)
  {
    var accent := 0xE9 as char;
    var path := "apps/api/src/" + [accent] + ".py";
    var base: Tree, head: Tree := map[path := was], map[path := now];
    assert StartsWith(path, RUNTIME_PREFIXES[0]);
    assert !PlainChar(accent) && accent in path;
    VisibleIffPlain(path);
    assert ReportedPaths(base, head, map[]) <= {path};
  }
}
