/** Trees as Git tracks them, and what `git show` prints for a path in one of them. */
module GitTrees {
  import opened Text
  import opened Outcome

  datatype Mode = Regular | Executable | Symlink

  /** A tracked path holds a blob, or names the commit of a submodule. */
  datatype TreeEntry = Blob(mode: Mode, data: string) | Gitlink(commit: string)

  /** The entries by full path; directories are the prefixes of the paths. */
  type Tree = map<string, TreeEntry>

  predicate Below(path: string, dir: string)
  {
    StartsWith(path, dir + "/")
  }

  predicate IsDirectory(tree: Tree, path: string)
  {
    exists q :: q in tree && Below(q, path)
  }

  /** No path is an entry and a directory at once. */
  ghost predicate Proper(tree: Tree)
  {
    forall p :: p in tree ==> !IsDirectory(tree, p)
  }

  lemma BelowSplits(path: string, dir: string)
    requires Below(path, dir)
    ensures |path| > |dir| && path == dir + path[|dir|..] && path[|dir|] == '/'
  {
    assert path[..|dir| + 1] == dir + "/";
    assert path[..|dir|] == (dir + "/")[..|dir|];
    assert path[|dir|] == (dir + "/")[|dir|];
  }

  lemma BelowTransitive(a: string, b: string, c: string)
    requires Below(a, b) && Below(b, c)
    ensures Below(a, c)
  {
    BelowSplits(a, b);
    BelowSplits(b, c);
    assert a[..|b|] == b;
    assert a[..|c| + 1] == b[..|c| + 1];
  }

  // ---- Comparing trees ----

  function EntryAt(tree: Tree, path: string): Option<TreeEntry>
  {
    if path in tree then Some(tree[path]) else None
  }

  predicate AgreeOn(a: Tree, b: Tree, path: string)
  {
    EntryAt(a, path) == EntryAt(b, path)
  }

  /** The paths that git diff finds changed: content, kind, mode or presence. */
  function Differing(a: Tree, b: Tree): set<string>
  {
    set p | p in a.Keys + b.Keys && !AgreeOn(a, b, p)
  }

  lemma DifferingExactly(a: Tree, b: Tree, p: string)
    ensures p in Differing(a, b) <==> !AgreeOn(a, b, p)
  {
  }

  /** An entry up to its mode. */
  function ContentOf(e: TreeEntry): TreeEntry
  {
    if e.Blob? then e.(mode := Regular) else e
  }

  function ContentAt(tree: Tree, path: string): Option<TreeEntry>
  {
    if path in tree then Some(ContentOf(tree[path])) else None
  }

  /** The same blob, the same submodule commit, or no entry, on both sides. */
  predicate SameContent(a: Tree, b: Tree, path: string)
  {
    ContentAt(a, path) == ContentAt(b, path)
  }

  predicate BlobAt(tree: Tree, path: string)
  {
    path in tree && tree[path].Blob?
  }

  // ---- git show <commit>:<path> ----

  /** The first component of a path; a directory keeps its slash. */
  function Label(rest: string): string
  {
    if rest == "" then ""
    else if rest[0] == '/' then "/"
    else [rest[0]] + Label(rest[1..])
  }

  function Labels(tree: Tree, dir: string): set<string>
  {
    set q | q in tree && Below(q, dir) :: Label(q[|dir| + 1..])
  }

  function Lines(names: seq<string>): string
  {
    if names == [] then "" else names[0] + "\n" + Lines(names[1..])
  }

  /** For a directory, its heading repeats the argument, commit and all. */
  function Listing(commit: string, tree: Tree, dir: string): string
  {
    "tree " + commit + ":" + dir + "\n\n" + Lines(SortedKeys(Labels(tree, dir)))
  }

  /** What the command prints, or None when it fails: nothing is there, or only a submodule's
      commit, which is no object of this repository. */
  function Show(commit: string, tree: Tree, path: string): Option<string>
  {
    if path in tree then
      match tree[path]
      case Blob(_, data) => Some(data)
      case Gitlink(_) => None
    else if IsDirectory(tree, path) then Some(Listing(commit, tree, path))
    else None
  }

  lemma HeadingSplits(head: string, a: string, x: string, b: string, y: string)
    requires ':' !in a && ':' !in b && head + a + ":" + x == head + b + ":" + y
    ensures a == b
  {
    var n, s := |head|, head + a + ":" + x;
    assert s[n + |a|] == ':' && s[n + |b|] == ':';
    assert s[n..n + |a|] == a && s[n..n + |b|] == b;
  }

  lemma Regroup(head: string, a: string, colon: string, x: string, y: string, z: string)
    ensures head + a + colon + x + y + z == head + a + colon + (x + y + z)
  {
  }

  /** Listings from two commits never agree, whatever the directories hold. */
  lemma ListingsDiffer(c: string, a: Tree, d: string, b: Tree, dir: string)
    requires c != d && ':' !in c && ':' !in d
    ensures Listing(c, a, dir) != Listing(d, b, dir)
  {
    var x, y := Lines(SortedKeys(Labels(a, dir))), Lines(SortedKeys(Labels(b, dir)));
    Regroup("tree ", c, ":", dir, "\n\n", x);
    Regroup("tree ", d, ":", dir, "\n\n", y);
    if Listing(c, a, dir) == Listing(d, b, dir) {
      HeadingSplits("tree ", c, dir + "\n\n" + x, d, dir + "\n\n" + y);
    }
  }

  lemma HeadStarts(a: string, rest: string)
    ensures StartsWith(a + rest, a)
  {
  }

  lemma ListingStarts(d: string, tree: Tree, dir: string)
    ensures StartsWith(Listing(d, tree, dir), "tree " + d + ":")
  {
    var lines := Lines(SortedKeys(Labels(tree, dir)));
    Regroup("tree ", d, ":", dir, "\n\n", lines);
    HeadStarts("tree " + d + ":", dir + "\n\n" + lines);
  }
}
