/** The scanner's patterns as regular expressions: a sequence of repeated character classes, matched
    greedily.  Each hand-written test and capture of the scanner is the pattern's. */
module MarkdownPatterns {
  import opened Text
  import opened Outcome
  import opened Paths
  import opened CanonicalForm
  import opened Markdown

  // ---- Patterns ----

  datatype Class = Only(c: char) | Space | Digit | Dot | Among(chars: string) | Every
  {
    predicate Has(x: char)
    {
      match this
      case Only(c) => x == c
      case Space => IsSpace(x)
      case Digit => IsDigit(x)
      case Dot => !IsTerminator(x)
      case Among(chars) => x in chars
      case Every => true
    }
  }

  /** A class of characters repeated between two numbers of times. */
  datatype Piece = Piece(of: Class, least: nat, most: Option<nat>)
  {
    predicate Fits(part: string)
    {
      least <= |part| && (most.Some? ==> |part| <= most.value) && forall i :: 0 <= i < |part| ==> of.Has(part[i])
    }
  }

  type Pattern = seq<Piece>

  function One(c: char): Piece { Piece(Only(c), 1, Some(1)) }

  const REST := Piece(Every, 0, None)

  /** ^(#{1,6})\s+(.+)$ */
  const HEADING: Pattern := [Piece(Only('#'), 1, Some(6)), Piece(Space, 1, None), Piece(Dot, 1, None)]
  /** ^#{1,6}\s+, with what follows. */
  const HEADING_START: Pattern := [Piece(Only('#'), 1, Some(6)), Piece(Space, 1, None), REST]
  /** ^>\s?, with what follows. */
  const QUOTE: Pattern := [One('>'), Piece(Space, 0, Some(1)), REST]
  /** ^-\s+, with what follows. */
  const BULLET: Pattern := [One('-'), Piece(Space, 1, None), REST]
  /** ^\d+\.\s+, with what follows. */
  const ORDERED: Pattern := [Piece(Digit, 1, None), One('.'), Piece(Space, 1, None), REST]
  /** ^\[([ xX])\]\s*(.*)$ */
  const TASK: Pattern :=
    [One('['), Piece(Among(" xX"), 1, Some(1)), One(']'), Piece(Space, 0, None), Piece(Dot, 0, None)]
  /** ^:?-{3,}:?$ */
  const SEPARATOR: Pattern := [Piece(Only(':'), 0, Some(1)), Piece(Only('-'), 3, None), Piece(Only(':'), 0, Some(1))]

  /** The parts make up the text, and each fits its piece. */
  ghost predicate Splits(p: Pattern, s: string, parts: seq<string>)
  {
    |parts| == |p| && Concat(parts) == s && forall i :: 0 <= i < |p| ==> p[i].Fits(parts[i])
  }

  ghost predicate Matches(p: Pattern, s: string)
  {
    exists parts :: Splits(p, s, parts)
  }

  /** At the first part where the lengths differ, a has the longer one. */
  ghost predicate Longer(a: seq<string>, b: seq<string>)
  {
    |a| == |b| && exists k :: 0 <= k < |a| && |a[k]| > |b[k]| && forall i :: 0 <= i < k ==> |a[i]| == |b[i]|
  }

  /** Greedy matching: no other way to split has a longer part at the first difference. */
  ghost predicate Reads(p: Pattern, s: string, parts: seq<string>)
  {
    Splits(p, s, parts) && forall other :: Splits(p, s, other) ==> !Longer(other, parts)
  }

  lemma ConcatCons(parts: seq<string>)
    requires parts != []
    ensures Concat(parts) == parts[0] + Concat(parts[1..])
    ensures |parts[0]| <= |Concat(parts)| && parts[0] == Concat(parts)[..|parts[0]|]
    ensures Concat(parts[1..]) == Concat(parts)[|parts[0]|..]
  {
  }

  lemma {:induction false} SameLengthsSameParts(a: seq<string>, b: seq<string>)
    requires |a| == |b| && Concat(a) == Concat(b) && forall i :: 0 <= i < |a| ==> |a[i]| == |b[i]|
    ensures a == b
  {
    if a != [] {
      ConcatCons(a);
      ConcatCons(b);
      SameLengthsSameParts(a[1..], b[1..]);
      assert a == [a[0]] + a[1..] && b == [b[0]] + b[1..];
    }
  }

  lemma {:induction false} SomeoneIsLonger(a: seq<string>, b: seq<string>, i: nat)
    requires |a| == |b| && i < |a| && |a[i]| != |b[i]|
    ensures Longer(a, b) || Longer(b, a)
  {
    if forall j :: 0 <= j < i ==> |a[j]| == |b[j]| {
      assert |a[i]| > |b[i]| || |b[i]| > |a[i]|;
    } else {
      var j :| 0 <= j < i && |a[j]| != |b[j]|;
      SomeoneIsLonger(a, b, j);
    }
  }

  /** A pattern reads a text in one way at most. */
  lemma ReadsOneWay(p: Pattern, s: string, a: seq<string>, b: seq<string>)
    requires Reads(p, s, a) && Reads(p, s, b)
    ensures a == b
  {
    if i :| 0 <= i < |a| && |a[i]| != |b[i]| { SomeoneIsLonger(a, b, i); }
    SameLengthsSameParts(a, b);
  }

  /** No part could take the next character. */
  ghost predicate Eager(p: Pattern, parts: seq<string>)
  {
    |parts| == |p| && forall k :: 0 <= k < |p| ==> FullAt(p[k], parts[k], Concat(parts[k + 1..]))
  }

  predicate FullAt(piece: Piece, part: string, rest: string)
  {
    piece.most == Some(|part|) || rest == "" || !piece.of.Has(rest[0])
  }

  lemma FullIsLongest(piece: Piece, s: string, part: string, longer: string)
    requires part <= s && longer <= s && FullAt(piece, part, s[|part|..]) && piece.Fits(longer)
    ensures |longer| <= |part|
  {
    assert forall i :: 0 <= i < |longer| ==> longer[i] == s[i];
    if |part| < |s| { assert s[|part|..][0] == s[|part|]; }
  }

  lemma {:induction false} EagerIsLongest(p: Pattern, s: string, parts: seq<string>, other: seq<string>, k: nat)
    requires Splits(p, s, parts) && Eager(p, parts) && Splits(p, s, other)
    requires k < |p| && forall i :: 0 <= i < k ==> |other[i]| == |parts[i]|
    ensures |other[k]| <= |parts[k]|
    decreases k
  {
    ConcatCons(parts);
    ConcatCons(other);
    if k == 0 {
      assert FullAt(p[0], parts[0], Concat(parts[1..]));
      FullIsLongest(p[0], s, parts[0], other[0]);
    } else {
      forall i | 0 <= i < |p| - 1 ensures FullAt(p[1..][i], parts[1..][i], Concat(parts[1..][i + 1..])) {
        assert FullAt(p[i + 1], parts[i + 1], Concat(parts[i + 2..]));
        assert parts[1..][i + 1..] == parts[i + 2..];
      }
      EagerIsLongest(p[1..], Concat(parts[1..]), parts[1..], other[1..], k - 1);
    }
  }

  /** Taking as much as each piece can, where it works, is the greedy match. */
  lemma EagerReads(p: Pattern, s: string, parts: seq<string>)
    requires Splits(p, s, parts) && Eager(p, parts)
    ensures Reads(p, s, parts)
  {
    forall other | Splits(p, s, other) ensures !Longer(other, parts) {
      if Longer(other, parts) {
        var k :| 0 <= k < |other| && |other[k]| > |parts[k]| && forall i :: 0 <= i < k ==> |other[i]| == |parts[i]|;
        EagerIsLongest(p, s, parts, other, k);
      }
    }
  }

  // ---- The patterns of the scanner ----

  lemma ThreeParts(x: string, y: string, z: string)
    ensures Concat([x, y, z]) == x + y + z && Concat([x, y, z][1..]) == y + z && Concat([x, y, z][2..]) == z
    ensures Concat([x, y, z][3..]) == ""
  {
    assert [x, y, z][1..] == [y, z] && [x, y, z][2..] == [z] && [y, z][1..] == [z] && [z][1..] == [];
    assert Concat([z]) == z && Concat([y, z]) == y + z;
  }

  lemma ThreeRead(p: Pattern, s: string, x: string, y: string, z: string)
    requires |p| == 3 && s == x + y + z && p[0].Fits(x) && p[1].Fits(y) && p[2].Fits(z)
    requires FullAt(p[0], x, y + z) && FullAt(p[1], y, z)
    ensures Reads(p, s, [x, y, z])
  {
    var parts := [x, y, z];
    ThreeParts(x, y, z);
    forall k | 0 <= k < 3 ensures FullAt(p[k], parts[k], Concat(parts[k + 1..])) {
    }
    EagerReads(p, s, parts);
  }

  lemma SplitInThree(p: Pattern, s: string) returns (x: string, y: string, z: string)
    requires |p| == 3 && Matches(p, s)
    ensures s == x + y + z && p[0].Fits(x) && p[1].Fits(y) && p[2].Fits(z)
  {
    var parts :| Splits(p, s, parts);
    x, y, z := parts[0], parts[1], parts[2];
    assert parts == [x, y, z];
    ThreeParts(x, y, z);
  }

  // From position n on: the spaces, and what follows them.
  lemma SpacesSplit(line: string, n: nat)
    requires n <= |line|
    ensures var k := Spaces(line[n..]);
      && line[n..] == line[n..][..k] + line[n + k..] && AllSpace(line[n..][..k])
      && (line[n + k..] == "" || !IsSpace(line[n + k..][0]))
  {
    var rest, k := line[n..], Spaces(line[n..]);
    assert line[n + k..] == rest[k..];
  }

  function HeadingMarks(line: string): string
    requires HeadingLike(line)
  {
    line[..Hashes(line)]
  }

  function HeadingSpaces(line: string): string
    requires HeadingLike(line)
  {
    var rest := line[Hashes(line)..];
    rest[..Spaces(rest)]
  }

  lemma HeadingParts(line: string)
    requires HeadingLike(line)
    ensures line == HeadingMarks(line) + HeadingSpaces(line) + HeadingText(line)
    ensures HEADING[0].Fits(HeadingMarks(line)) && HEADING[1].Fits(HeadingSpaces(line))
    ensures HeadingSpaces(line)[0] != '#' && (HeadingText(line) == "" || !IsSpace(HeadingText(line)[0]))
  {
    var rest := line[Hashes(line)..];
    assert rest[0] == line[Hashes(line)];
    assert rest == HeadingSpaces(line) + HeadingText(line) && line == HeadingMarks(line) + rest;
  }

  lemma HeadingStartIff(line: string)
    ensures HeadingLike(line) <==> Matches(HEADING_START, line)
  {
    if HeadingLike(line) {
      HeadingParts(line);
      ThreeRead(HEADING_START, line, HeadingMarks(line), HeadingSpaces(line), HeadingText(line));
    }
    if Matches(HEADING_START, line) {
      var x, y, z := SplitInThree(HEADING_START, line);
      assert line[|x|] == y[0] && forall i :: 0 <= i < |x| ==> line[i] == x[i];
      HashesAre(line, |x|);
    }
  }

  lemma HeadingMatched(line: string)
    requires Matches(HEADING, line) && !IsSpace(line[|line| - 1])
    ensures Heading(line)
  {
    var x, y, z := SplitInThree(HEADING, line);
    assert line[|x| + |y|..] == z;
    forall i | |x| <= i < |x| + |y| ensures IsSpace(line[i]) { assert line[i] == y[i - |x|]; }
    assert HeadingSplit(line, |x|, |x| + |y|);
    SplitIsHeading(line, |x|, |x| + |y|);
  }

  /** On a trimmed line the heading branch is the pattern, and its captures the pattern's. */
  lemma HeadingIff(s: string)
    ensures Heading(Trim(s)) <==> Matches(HEADING, Trim(s))
    ensures Heading(Trim(s)) ==>
      Reads(HEADING, Trim(s), [HeadingMarks(Trim(s)), HeadingSpaces(Trim(s)), HeadingText(Trim(s))])
  {
    var line := Trim(s);
    if Heading(line) {
      HeadingParts(line);
      ThreeRead(HEADING, line, HeadingMarks(line), HeadingSpaces(line), HeadingText(line));
    }
    if Matches(HEADING, line) {
      var x, y, z := SplitInThree(HEADING, line);
      HeadingMatched(line);
    }
  }

  lemma QuoteIff(line: string)
    ensures QuoteLike(line) <==> Matches(QUOTE, line)
    ensures QuoteLike(line) ==> exists parts :: Reads(QUOTE, line, parts) && parts[2] == QuoteText(line)
  {
    if QuoteLike(line) {
      var space := if |line| > 1 && IsSpace(line[1]) then [line[1]] else "";
      ThreeRead(QUOTE, line, ">", space, QuoteText(line));
      assert [">", space, QuoteText(line)][2] == QuoteText(line);
    }
    if Matches(QUOTE, line) { var x, y, z := SplitInThree(QUOTE, line); }
  }

  lemma BulletIff(line: string)
    ensures BulletLike(line) <==> Matches(BULLET, line)
    ensures BulletLike(line) ==> Reads(BULLET, line, ["-", BulletSpaces(line), BulletText(line)])
  {
    if BulletLike(line) {
      SpacesSplit(line, 1);
      assert line == "-" + line[1..] && line[1..][0] == line[1];
      ThreeRead(BULLET, line, "-", BulletSpaces(line), BulletText(line));
    }
    if Matches(BULLET, line) { var x, y, z := SplitInThree(BULLET, line); }
  }

  function BulletSpaces(line: string): string
    requires BulletLike(line)
  {
    line[1..][..Spaces(line[1..])]
  }

  function BulletText(line: string): string
    requires BulletLike(line)
  {
    line[1 + Spaces(line[1..])..]
  }

  lemma FourParts(w: string, x: string, y: string, z: string)
    ensures Concat([w, x, y, z]) == w + (x + y + z)
  {
    assert [w, x, y, z][1..] == [x, y, z];
    ThreeParts(x, y, z);
  }

  lemma FourRead(p: Pattern, s: string, w: string, x: string, y: string, z: string)
    requires |p| == 4 && s == w + (x + y + z) && p[0].Fits(w) && p[1].Fits(x) && p[2].Fits(y) && p[3].Fits(z)
    requires FullAt(p[0], w, x + y + z) && FullAt(p[1], x, y + z) && FullAt(p[2], y, z)
    ensures Reads(p, s, [w, x, y, z])
  {
    var parts := [w, x, y, z];
    FourParts(w, x, y, z);
    ThreeParts(x, y, z);
    assert parts[1..] == [x, y, z] && parts[2..] == [x, y, z][1..] && parts[3..] == [x, y, z][2..] && parts[4..] == [];
    forall k | 0 <= k < 4 ensures FullAt(p[k], parts[k], Concat(parts[k + 1..])) {
    }
    EagerReads(p, s, parts);
  }

  lemma SplitInFour(p: Pattern, s: string) returns (w: string, x: string, y: string, z: string)
    requires |p| == 4 && Matches(p, s)
    ensures s == w + (x + y + z) && p[0].Fits(w) && p[1].Fits(x) && p[2].Fits(y) && p[3].Fits(z)
  {
    var parts :| Splits(p, s, parts);
    w, x, y, z := parts[0], parts[1], parts[2], parts[3];
    assert parts == [w, x, y, z];
    FourParts(w, x, y, z);
  }

  lemma DigitsAre(line: string, n: nat)
    requires n < |line| && !IsDigit(line[n]) && forall i :: 0 <= i < n ==> IsDigit(line[i])
    ensures Digits(line) == n
  {
  }

  function OrderedDigits(line: string): string
    requires OrderedLike(line)
  {
    line[..Digits(line)]
  }

  function OrderedSpaces(line: string): string
    requires OrderedLike(line)
  {
    var rest := line[Digits(line) + 1..];
    rest[..Spaces(rest)]
  }

  lemma OrderedParts(line: string)
    requires OrderedLike(line)
    ensures line == OrderedDigits(line) + ("." + OrderedSpaces(line) + OrderedText(line))
    ensures ORDERED[0].Fits(OrderedDigits(line)) && ORDERED[2].Fits(OrderedSpaces(line))
    ensures OrderedText(line) == "" || !IsSpace(OrderedText(line)[0])
  {
    var n := Digits(line);
    var rest := line[n + 1..];
    assert rest[0] == line[n + 1] && rest == OrderedSpaces(line) + OrderedText(line);
    assert line == line[..n] + ([line[n]] + rest);
    assert [line[n]] + rest == "." + OrderedSpaces(line) + OrderedText(line);
  }

  lemma OrderedIff(line: string)
    ensures OrderedLike(line) <==> Matches(ORDERED, line)
    ensures OrderedLike(line) ==>
      Reads(ORDERED, line, [OrderedDigits(line), ".", OrderedSpaces(line), OrderedText(line)])
  {
    if OrderedLike(line) {
      OrderedParts(line);
      FourRead(ORDERED, line, OrderedDigits(line), ".", OrderedSpaces(line), OrderedText(line));
    }
    if Matches(ORDERED, line) {
      var w, x, y, z := SplitInFour(ORDERED, line);
      assert line[|w|] == x[0] && line[|w| + 1] == y[0];
      DigitsAre(line, |w|);
    }
  }

  /** Between two brackets a space or an x, and then one line. */
  predicate TaskLike(text: string)
  {
    && |text| >= 3 && text[0] == '[' && text[1] in " xX" && text[2] == ']'
    && OneLine(text[3 + Spaces(text[3..])..])
  }

  function TaskSpaces(text: string): string
    requires |text| >= 3
  {
    text[3..][..Spaces(text[3..])]
  }

  function TaskText(text: string): string
    requires |text| >= 3
  {
    text[3 + Spaces(text[3..])..]
  }

  lemma FiveParts(v: string, w: string, x: string, y: string, z: string)
    ensures Concat([v, w, x, y, z]) == v + (w + (x + y + z))
  {
    assert [v, w, x, y, z][1..] == [w, x, y, z];
    FourParts(w, x, y, z);
  }

  lemma FiveRead(p: Pattern, s: string, v: string, w: string, x: string, y: string, z: string)
    requires |p| == 5 && s == v + (w + (x + y + z))
    requires p[0].Fits(v) && p[1].Fits(w) && p[2].Fits(x) && p[3].Fits(y) && p[4].Fits(z)
    requires FullAt(p[0], v, w + (x + y + z)) && FullAt(p[1], w, x + y + z)
    requires FullAt(p[2], x, y + z) && FullAt(p[3], y, z)
    ensures Reads(p, s, [v, w, x, y, z])
  {
    var parts := [v, w, x, y, z];
    FiveParts(v, w, x, y, z);
    FourParts(w, x, y, z);
    ThreeParts(x, y, z);
    assert parts[1..] == [w, x, y, z] && parts[2..] == [x, y, z] && parts[3..] == [x, y, z][1..];
    assert parts[4..] == [x, y, z][2..] && parts[5..] == [];
    forall k | 0 <= k < 5 ensures FullAt(p[k], parts[k], Concat(parts[k + 1..])) {
    }
    EagerReads(p, s, parts);
  }

  lemma FirstThree(text: string, a: string, b: string)
    requires |text| >= 3 && text[3..] == a + b
    ensures text == [text[0]] + ([text[1]] + ([text[2]] + a + b))
  {
    assert text == [text[0]] + ([text[1]] + ([text[2]] + text[3..]));
    assert [text[2]] + (a + b) == [text[2]] + a + b;
  }

  lemma TaskPieces(text: string)
    requires |text| >= 3
    ensures text == [text[0]] + ([text[1]] + ([text[2]] + TaskSpaces(text) + TaskText(text)))
  {
    SpacesSplit(text, 3);
    FirstThree(text, TaskSpaces(text), TaskText(text));
  }

  lemma TaskFits(text: string)
    requires TaskLike(text)
    ensures TASK[1].Fits([text[1]]) && TASK[3].Fits(TaskSpaces(text)) && TASK[4].Fits(TaskText(text))
    ensures TaskText(text) == "" || !IsSpace(TaskText(text)[0])
  {
    SpacesSplit(text, 3);
    OneLineFits(text);
  }

  lemma OneLineFits(text: string)
    requires TaskLike(text)
    ensures TASK[4].Fits(TaskText(text))
  {
    var rest := TaskText(text);
    forall i | 0 <= i < |rest| ensures !IsTerminator(rest[i]) { assert rest[i] in rest; }
  }

  lemma TaskRead(text: string)
    requires TaskLike(text)
    ensures Reads(TASK, text, ["[", [text[1]], "]", TaskSpaces(text), TaskText(text)])
  {
    TaskPieces(text);
    TaskFits(text);
    FiveRead(TASK, text, "[", [text[1]], "]", TaskSpaces(text), TaskText(text));
  }

  lemma TaskMatched(text: string)
    requires Matches(TASK, text)
    ensures TaskLike(text)
  {
    var parts :| Splits(TASK, text, parts);
    FiveParts(parts[0], parts[1], parts[2], parts[3], parts[4]);
    assert parts == [parts[0], parts[1], parts[2], parts[3], parts[4]];
    var spaces, rest := parts[3], parts[4];
    assert text[0] == parts[0][0] && text[1] == parts[1][0] && text[2] == parts[2][0];
    assert text[3..] == spaces + rest;
    SpacesCover(spaces, rest);
    var n := Spaces(text[3..]);
    assert text[3 + n..] == rest[n - |spaces|..];
    forall c | c in text[3 + n..] ensures !IsTerminator(c) {
      var i :| 0 <= i < |rest| && rest[i] == c;
      assert TASK[4].of.Has(rest[i]);
    }
  }

  lemma SpacesCover(spaces: string, rest: string)
    requires forall i :: 0 <= i < |spaces| ==> IsSpace(spaces[i])
    ensures Spaces(spaces + rest) >= |spaces|
  {
    var s := spaces + rest;
    assert forall i :: 0 <= i < |spaces| ==> s[i] == spaces[i];
  }

  lemma TaskIff(text: string)
    ensures TaskLike(text) <==> Matches(TASK, text)
  {
    if TaskLike(text) { TaskRead(text); }
    if Matches(TASK, text) { TaskMatched(text); }
  }

  lemma ThreeMatch(p: Pattern, s: string, x: string, y: string, z: string)
    requires |p| == 3 && s == x + y + z && p[0].Fits(x) && p[1].Fits(y) && p[2].Fits(z)
    ensures Matches(p, s)
  {
    ThreeParts(x, y, z);
    assert Splits(p, s, [x, y, z]);
  }

  function Lead(cell: string): string { if cell != "" && cell[0] == ':' then ":" else "" }

  function Tail(cell: string): string { if cell != "" && cell[|cell| - 1] == ':' then ":" else "" }

  function Middle(cell: string): string
  {
    var a := cell[|Lead(cell)|..];
    a[..|a| - |Tail(a)|]
  }

  lemma CellEnds(cell: string)
    ensures cell == Lead(cell) + Middle(cell) + Tail(cell[|Lead(cell)|..])
  {
    var a := cell[|Lead(cell)|..];
    assert cell == Lead(cell) + a && a == Middle(cell) + Tail(a);
  }

  lemma SeparatorMiddle(cell: string)
    ensures SeparatorCell(cell) <==> |Middle(cell)| >= 3 && forall c | c in Middle(cell) :: c == '-'
  {
    var a := cell[|Lead(cell)|..];
    assert cell[0..] == cell && a[..|a|] == a;
  }

  lemma SeparatorSplits(cell: string)
    requires SeparatorCell(cell)
    ensures Matches(SEPARATOR, cell)
  {
    var y := Middle(cell);
    CellEnds(cell);
    SeparatorMiddle(cell);
    forall i | 0 <= i < |y| ensures y[i] == '-' { assert y[i] in y; }
    ThreeMatch(SEPARATOR, cell, Lead(cell), y, Tail(cell[|Lead(cell)|..]));
  }

  lemma DashesSeparate(x: string, y: string, z: string)
    requires SEPARATOR[0].Fits(x) && SEPARATOR[1].Fits(y) && SEPARATOR[2].Fits(z)
    ensures SeparatorCell(x + y + z)
  {
    var cell, a := x + y + z, y + z;
    assert cell[|x|] == y[0] == '-' && x + a == cell && cell[|x|..] == a;
    assert x != "" ==> cell[0] == x[0] == ':';
    assert a[|a| - 1] == if z == "" then y[|y| - 1] else z[0];
    assert y[|y| - 1] == '-' && a[..|y|] == y;
  }

  lemma SeparatorIff(cell: string)
    ensures SeparatorCell(cell) <==> Matches(SEPARATOR, cell)
  {
    if SeparatorCell(cell) { SeparatorSplits(cell); }
    if Matches(SEPARATOR, cell) {
      var x, y, z := SplitInThree(SEPARATOR, cell);
      DashesSeparate(x, y, z);
    }
  }

  // ---- Trimming and cells ----

  predicate AllSpace(s: string)
  {
    forall i :: 0 <= i < |s| ==> IsSpace(s[i])
  }

  /** t is s without the spaces around it. */
  ghost predicate Trimmed(s: string, t: string)
  {
    && (t == "" || (!IsSpace(t[0]) && !IsSpace(t[|t| - 1])))
    && exists a: string, b: string :: s == a + t + b && AllSpace(a) && AllSpace(b)
  }

  lemma {:induction false} TrimStartIs(a: string, u: string)
    requires AllSpace(a) && (u == "" || !IsSpace(u[0]))
    ensures TrimStart(a + u) == u
  {
    if a == "" {
      assert a + u == u;
    } else {
      assert (a + u)[1..] == a[1..] + u;
      TrimStartIs(a[1..], u);
    }
  }

  lemma {:induction false} TrimEndIs(t: string, b: string)
    requires AllSpace(b) && (t == "" || !IsSpace(t[|t| - 1]))
    ensures TrimEnd(t + b) == t
  {
    if b == "" {
      assert t + b == t;
    } else {
      assert (t + b)[..|t + b| - 1] == t + b[..|b| - 1];
      TrimEndIs(t, b[..|b| - 1]);
    }
  }

  lemma {:induction false} TrimStartDrops(s: string) returns (a: string)
    ensures s == a + TrimStart(s) && AllSpace(a)
  {
    if s != "" && IsSpace(s[0]) {
      var rest := TrimStartDrops(s[1..]);
      a := [s[0]] + rest;
    } else {
      a := "";
    }
  }

  lemma {:induction false} TrimEndDrops(s: string) returns (b: string)
    ensures s == TrimEnd(s) + b && AllSpace(b)
  {
    if s != "" && IsSpace(s[|s| - 1]) {
      var rest := TrimEndDrops(s[..|s| - 1]);
      b := rest + [s[|s| - 1]];
      assert s == s[..|s| - 1] + [s[|s| - 1]];
    } else {
      b := "";
    }
  }

  lemma TrimIsTrimmed(s: string)
    ensures Trimmed(s, Trim(s))
  {
    var front := TrimStartDrops(s);
    var back := TrimEndDrops(TrimStart(s));
    assert s == front + Trim(s) + back;
  }

  lemma TrimmedIsTrim(a: string, t: string, b: string)
    requires AllSpace(a) && AllSpace(b) && (t == "" || (!IsSpace(t[0]) && !IsSpace(t[|t| - 1])))
    ensures Trim(a + t + b) == t
  {
    if t == "" {
      assert a + t + b == (a + b) + "";
      TrimStartIs(a + b, "");
    } else {
      assert a + t + b == a + (t + b);
      TrimStartIs(a, t + b);
      TrimEndIs(t, b);
    }
  }

  lemma TrimIff(s: string, t: string)
    ensures Trimmed(s, t) <==> t == Trim(s)
  {
    TrimIsTrimmed(s);
    if Trimmed(s, t) {
      var a, b :| s == a + t + b && AllSpace(a) && AllSpace(b);
      TrimmedIsTrim(a, t, b);
    }
  }

  /** u is t without a bar in front, if there is one. */
  predicate DropsFirst(t: string, u: string)
  {
    t == "|" + u || (t == u && !("|" <= t))
  }

  /** v is u without a bar at the end, if there is one. */
  predicate DropsLast(u: string, v: string)
  {
    u == v + "|" || (u == v && (v == "" || v[|v| - 1] != '|'))
  }

  /** What is left of t without one bar at either end. */
  ghost predicate Unbarred(t: string, v: string)
  {
    exists u :: DropsFirst(t, u) && DropsLast(u, v)
  }

  function AfterBar(t: string): string { if t != "" && t[0] == '|' then t[1..] else t }

  lemma DropsFirstIff(t: string, u: string)
    ensures DropsFirst(t, u) <==> u == AfterBar(t)
  {
    assert t != "" ==> t == [t[0]] + t[1..];
    assert ("|" + u)[1..] == u;
  }

  lemma DropsLastIff(u: string, v: string)
    ensures DropsLast(u, v) <==> v == if u != "" && u[|u| - 1] == '|' then u[..|u| - 1] else u
  {
    assert u != "" ==> u == u[..|u| - 1] + [u[|u| - 1]];
    assert (v + "|")[..|v|] == v && (v + "|")[|v|] == '|';
  }

  lemma UnbarredIff(t: string, v: string)
    ensures Unbarred(t, v) <==> v == DropBars(t)
  {
    DropsFirstIff(t, AfterBar(t));
    DropsLastIff(AfterBar(t), v);
    if Unbarred(t, v) {
      var u :| DropsFirst(t, u) && DropsLast(u, v);
      DropsFirstIff(t, u);
    }
  }

  /** The cells of a table row: the pieces between the bars, each without the spaces around it. */
  ghost predicate Cells(line: string, cells: seq<string>)
  {
    cells != [] && exists raw: seq<string> {:trigger Join(raw, '|')} ::
      && |raw| == |cells| && (forall i :: 0 <= i < |raw| ==> '|' !in raw[i] && Trimmed(raw[i], cells[i]))
      && Unbarred(Trim(line), Join(raw, '|'))
  }

  lemma RowHasCells(line: string)
    ensures Cells(line, SplitTableRow(line))
  {
    var inner := DropBars(Trim(line));
    var parts, cells := Split(inner, '|'), SplitTableRow(line);
    JoinSplit(inner, '|');
    SplitPartsHaveNoSeparator(inner, '|');
    UnbarredIff(Trim(line), inner);
    forall i | 0 <= i < |parts| ensures '|' !in parts[i] && Trimmed(parts[i], cells[i]) {
      assert parts[i] in parts;
      TrimIff(parts[i], cells[i]);
    }
    assert |parts| == |cells| && Unbarred(Trim(line), Join(parts, '|'));
  }

  lemma CellsIff(line: string, cells: seq<string>)
    ensures Cells(line, cells) <==> cells == SplitTableRow(line)
  {
    RowHasCells(line);
    if Cells(line, cells) {
      var raw: seq<string> :| |raw| == |cells|
        && (forall i :: 0 <= i < |raw| ==> '|' !in raw[i] && Trimmed(raw[i], cells[i]))
        && Unbarred(Trim(line), Join(raw, '|'));
      UnbarredIff(Trim(line), Join(raw, '|'));
      SplitOfJoin(raw, '|');
      forall i | 0 <= i < |cells| ensures cells[i] == SplitTableRow(line)[i] { TrimIff(raw[i], cells[i]); }
    }
  }
}
