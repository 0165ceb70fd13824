/** Relative evidence paths: PurePosixPath parsing and the traversal guard. */
module Paths {
  import opened Text
  import opened Outcome

  /** str.split with a one-character separator. */
  function Split(s: string, c: char): (parts: seq<string>)
    ensures parts != []
  {
    if s == "" then [""]
    else
      var rest := Split(s[1..], c);
      if s[0] == c then [""] + rest else [[s[0]] + rest[0]] + rest[1..]
  }

  function Join(parts: seq<string>, c: char): string
  {
    if parts == [] then ""
    else if |parts| == 1 then parts[0]
    else parts[0] + [c] + Join(parts[1..], c)
  }

  function Meaningful(parts: seq<string>): seq<string>
  {
    if parts == [] then []
    else (if parts[0] == "" || parts[0] == "." then [] else [parts[0]]) + Meaningful(parts[1..])
  }

  /** PurePosixPath.parts of a relative path: empty and "." components vanish. */
  function Parts(path: string): seq<string>
  {
    Meaningful(Split(path, '/'))
  }

  predicate IsAbsolute(path: string)
  {
    StartsWith(path, "/")
  }

  function SafeRelativePath(path: string): Result<seq<string>>
  {
    var parts := Parts(path);
    var _ :- Require(!IsAbsolute(path) && parts != [], "unsafe relative path");
    var _ :- Require(".." !in parts, "unsafe relative path");
    Ok(parts)
  }

  function AsPosix(parts: seq<string>): string
  {
    Join(parts, '/')
  }

  predicate CleanPart(p: string)
  {
    p != "" && p != "." && '/' !in p
  }

  ghost predicate CleanParts(parts: seq<string>)
  {
    forall p :: p in parts ==> CleanPart(p)
  }

  lemma {:induction false} SplitPartsHaveNoSeparator(s: string, c: char)
    ensures forall p :: p in Split(s, c) ==> c !in p
  {
    if s != "" { SplitPartsHaveNoSeparator(s[1..], c); }
  }

  lemma {:induction false} MeaningfulIsClean(parts: seq<string>)
    requires forall p :: p in parts ==> '/' !in p
    ensures CleanParts(Meaningful(parts))
  {
    if parts != [] { MeaningfulIsClean(parts[1..]); }
  }

  lemma {:induction false} CleanIsMeaningful(parts: seq<string>)
    requires CleanParts(parts)
    ensures Meaningful(parts) == parts
  {
    if parts != [] {
      CleanIsMeaningful(parts[1..]);
      assert CleanPart(parts[0]);
      assert parts == [parts[0]] + parts[1..];
    }
  }

  lemma {:induction false} SplitFirst(p: string, rest: string, c: char)
    requires c !in p
    ensures Split(p + [c] + rest, c) == [p] + Split(rest, c)
    ensures Split(p, c) == [p]
  {
    var s := p + [c] + rest;
    if p == "" {
      assert s[1..] == rest;
    } else {
      assert s[1..] == p[1..] + [c] + rest;
      SplitFirst(p[1..], rest, c);
      assert p == [p[0]] + p[1..];
    }
  }

  lemma JoinHead(x: char, p: string, rest: seq<string>, c: char)
    ensures Join([[x] + p] + rest, c) == [x] + Join([p] + rest, c)
    ensures Join([""] + ([p] + rest), c) == [c] + Join([p] + rest, c)
  {
    assert ([[x] + p] + rest)[1..] == rest && ([p] + rest)[1..] == rest && ([""] + ([p] + rest))[1..] == [p] + rest;
    if rest != [] { assert ([x] + p) + [c] + Join(rest, c) == [x] + (p + [c] + Join(rest, c)); }
  }

  lemma {:induction false} JoinSplit(s: string, c: char)
    ensures Join(Split(s, c), c) == s
  {
    if s != "" {
      var rest := Split(s[1..], c);
      JoinSplit(s[1..], c);
      assert rest == [rest[0]] + rest[1..];
      JoinHead(s[0], rest[0], rest[1..], c);
    }
  }

  lemma {:induction false} SplitOfJoin(raw: seq<string>, c: char)
    requires raw != [] && forall i :: 0 <= i < |raw| ==> c !in raw[i]
    ensures Split(Join(raw, c), c) == raw
  {
    if |raw| == 1 {
      SplitFirst(raw[0], "", c);
    } else {
      SplitOfJoin(raw[1..], c);
      SplitFirst(raw[0], Join(raw[1..], c), c);
      assert raw == [raw[0]] + raw[1..];
    }
  }

  lemma {:induction false} SplitJoin(parts: seq<string>)
    requires CleanParts(parts) && parts != []
    ensures Split(AsPosix(parts), '/') == parts
  {
    assert CleanPart(parts[0]);
    if |parts| == 1 {
      SplitFirst(parts[0], "", '/');
    } else {
      SplitJoin(parts[1..]);
      SplitFirst(parts[0], AsPosix(parts[1..]), '/');
    }
  }

  /** What a path reads as, component by component. */
  ghost predicate ReadsAs(path: string, components: seq<string>)
  {
    components != [] && path == Join(components, '/') && forall i :: 0 <= i < |components| ==> '/' !in components[i]
  }

  lemma {:induction false} MeaningfulIff(components: seq<string>, p: string)
    ensures p in Meaningful(components) <==> p in components && p != "" && p != "."
  {
    if components != [] {
      MeaningfulIff(components[1..], p);
      assert p in components <==> p == components[0] || p in components[1..];
    }
  }

  /** A path is accepted exactly when it does not start at the root, some component names something,
      and none leads up. */
  lemma SafeIff(path: string, components: seq<string>)
    requires ReadsAs(path, components)
    ensures SafeRelativePath(path).Ok? <==>
      !("/" <= path) && ".." !in components && exists c :: c in components && c != "" && c != "."
    ensures forall p :: p in Parts(path) <==> p in components && p != "" && p != "."
  {
    SplitOfJoin(components, '/');
    forall p ensures p in Parts(path) <==> p in components && p != "" && p != "." {
      MeaningfulIff(components, p);
    }
    if Parts(path) != [] { assert Parts(path)[0] in Parts(path); }
  }

  /** Rendering and re-reading a relative path is the identity on its parts. */
  lemma PartsRoundTrip(parts: seq<string>)
    requires CleanParts(parts) && parts != []
    ensures Parts(AsPosix(parts)) == parts && !IsAbsolute(AsPosix(parts))
    ensures ".." !in parts ==> SafeRelativePath(AsPosix(parts)) == Ok(parts)
  {
    SplitJoin(parts);
    CleanIsMeaningful(parts);
    assert CleanPart(parts[0]);
    assert parts[0][0] in parts[0];
    assert AsPosix(parts)[0] == parts[0][0];
  }

  /** The normalised form of an accepted path is accepted and already normal. */
  lemma NormalFormIsStable(path: string)
    requires SafeRelativePath(path).Ok?
    ensures var parts := SafeRelativePath(path).value;
      CleanParts(parts) && SafeRelativePath(AsPosix(parts)) == Ok(parts)
  {
    SplitPartsHaveNoSeparator(path, '/');
    MeaningfulIsClean(Split(path, '/'));
    PartsRoundTrip(Parts(path));
  }
}
