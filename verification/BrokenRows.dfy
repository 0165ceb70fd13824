/** Checksum rows whose path holds a line break: where splitlines cuts them, and why the parser
    then rejects the text. */
module BrokenRows {
  import opened Text
  import opened Checksums

  // ---- Lines of a concatenation ----

  lemma {:induction false} FirstLineStays(s: string, rest: string)
    requires FirstLine(s) < |s|
    ensures FirstLine(s + rest) == FirstLine(s)
  {
    if !LineBreak(s[0]) {
      assert (s + rest)[1..] == s[1..] + rest;
      FirstLineStays(s[1..], rest);
    }
  }

  /** Where splitlines goes on after the first line break. */
  function AfterBreak(s: string): (next: nat)
    requires FirstLine(s) < |s|
    ensures FirstLine(s) < next <= |s|
  {
    var n := FirstLine(s);
    if s[n] == '\r' && n + 1 < |s| && s[n + 1] == '\n' then n + 2 else n + 1
  }

  lemma SplitStep(s: string)
    requires FirstLine(s) < |s|
    ensures SplitLines(s) == [s[..FirstLine(s)]] + SplitLines(s[AfterBreak(s)..])
  {
  }

  // Where a has a break, its first line is the first line of a, whatever follows.
  lemma FirstLineWithin(a: string, u: string)
    requires !OneLine(a)
    ensures FirstLine(a + u) == FirstLine(a) < |a| && (a + u)[..FirstLine(a)] == a[..FirstLine(a)]
  {
    OneLineIff(a);
    FirstLineStays(a, u);
  }

  /** Where splitlines goes on after the first line of a, if u follows: past a line feed that
      belongs to a carriage return. */
  function Onward(a: string, u: string): (next: nat)
    requires FirstLine(a) < |a|
    ensures FirstLine(a) < next <= |a| + 1 && (next == |a| + 1 ==> u != "" && u[0] == '\n')
  {
    var n := FirstLine(a);
    if a[n] == '\r' && n + 1 < |a| && a[n + 1] == '\n' then n + 2
    else if a[n] == '\r' && n + 1 == |a| && u != "" && u[0] == '\n' then n + 2
    else n + 1
  }

  lemma OnwardIs(a: string, u: string)
    requires FirstLine(a) < |a| && FirstLine(a + u) == FirstLine(a)
    ensures AfterBreak(a + u) == Onward(a, u)
  {
    var n := FirstLine(a);
    assert (a + u)[n] == a[n];
    assert n + 1 < |a| ==> (a + u)[n + 1] == a[n + 1];
    assert n + 1 == |a| && u != "" ==> (a + u)[n + 1] == u[0];
  }

  // One line off the front, the rest named.
  lemma SplitWithin(a: string, u: string, s: string, rest: string)
    requires !OneLine(a) && s == a + u && FirstLine(a) < |a| && rest == s[Onward(a, u)..]
    ensures SplitLines(s) == [a[..FirstLine(a)]] + SplitLines(rest)
  {
    FirstLineWithin(a, u);
    OnwardIs(a, u);
    SplitStep(s);
  }

  lemma Onwards(a: string, b: string, next: nat)
    requires next <= |a| + 1
    ensures next <= |a| ==> (a + "\n" + b)[next..] == a[next..] + "\n" + b && (a + "\n")[next..] == a[next..] + "\n"
    ensures next == |a| + 1 ==> (a + "\n" + b)[next..] == b && (a + "\n")[next..] == ""
  {
  }

  lemma JoinStep(all: seq<string>, front: seq<string>, back: seq<string>, line: string, w: seq<string>, v: seq<string>)
    requires all == [line] + w && front == [line] + v && w == v + back
    ensures all == front + back
  {
  }

  lemma NothingSplits(b: string)
    ensures SplitLines(b) == SplitLines("") + SplitLines(b)
  {
  }

  /** A line feed ends a line, whatever follows. */
  lemma {:induction false} SplitAtLineFeed(a: string, b: string, s: string, t: string)
    requires s == a + "\n" + b && t == a + "\n"
    ensures SplitLines(s) == SplitLines(t) + SplitLines(b)
    decreases |a|, 1
  {
    if OneLine(a) {
      SplitOneLine(a, b);
      SplitOneLine(a, "");
      assert a + "\n" + "" == t;
    } else {
      OneLineIff(a);
      SplitRest(a, b, s, t, Onward(a, "\n"));
    }
  }

  lemma {:induction false} SplitRest(a: string, b: string, s: string, t: string, next: nat)
    requires s == a + "\n" + b && t == a + "\n" && !OneLine(a) && FirstLine(a) < |a| && next == Onward(a, "\n")
    ensures SplitLines(s) == SplitLines(t) + SplitLines(b)
    decreases |a|, 0
  {
    var w, v := s[next..], t[next..];
    assert s == a + ("\n" + b) && Onward(a, "\n" + b) == next;
    SplitWithin(a, "\n" + b, s, w);
    SplitWithin(a, "\n", t, v);
    Onwards(a, b, next);
    if next <= |a| { SplitAtLineFeed(a[next..], b, w, v); } else { NothingSplits(b); }
    JoinStep(SplitLines(s), SplitLines(t), SplitLines(b), a[..FirstLine(a)], SplitLines(w), SplitLines(v));
  }

  lemma {:induction false} OneLineIff(s: string)
    ensures OneLine(s) <==> FirstLine(s) == |s|
  {
    if s != "" {
      OneLineIff(s[1..]);
      assert s == [s[0]] + s[1..];
    }
  }

  function Pieces(row: Row): seq<string>
  {
    SplitLines(RowText(row))
  }

  lemma RowsPieces(rows: seq<Row>)
    requires rows != []
    ensures SplitLines(RowsText(rows)) == Pieces(rows[0]) + SplitLines(RowsText(rows[1..]))
  {
    var line, rest := rows[0].1 + "  " + rows[0].0, RowsText(rows[1..]);
    assert RowsText(rows) == line + "\n" + rest && RowText(rows[0]) == line + "\n";
    SplitAtLineFeed(line, rest, RowsText(rows), RowText(rows[0]));
  }

  function Flat(groups: seq<seq<string>>): seq<string>
  {
    if groups == [] then [] else groups[0] + Flat(groups[1..])
  }

  function AllPieces(rows: seq<Row>): seq<seq<string>>
  {
    seq(|rows|, i requires 0 <= i < |rows| => Pieces(rows[i]))
  }

  /** The lines of the text are the pieces of the rows, row by row. */
  lemma {:induction false} LinesArePieces(rows: seq<Row>)
    ensures SplitLines(RowsText(rows)) == Flat(AllPieces(rows))
  {
    if rows != [] {
      RowsPieces(rows);
      LinesArePieces(rows[1..]);
      assert AllPieces(rows)[1..] == AllPieces(rows[1..]);
    }
  }

  lemma {:induction false} PieceInFlat(groups: seq<seq<string>>, i: nat, piece: string)
    requires i < |groups| && piece in groups[i]
    ensures piece in Flat(groups)
  {
    if i > 0 { PieceInFlat(groups[1..], i - 1, piece); }
  }

  // Members of different groups stand in the order of the groups.
  lemma {:induction false} PiecesInOrder(groups: seq<seq<string>>, i: nat, j: nat, l: string, m: string)
    returns (q: nat)
    requires i < j < |groups| && l in groups[i] && m in groups[j]
    ensures q <= |Flat(groups)| && l in Flat(groups)[..q] && m in Flat(groups)[q..]
    decreases i
  {
    var k := 0;
    if i == 0 {
      PieceInFlat(groups[1..], j - 1, m);
    } else {
      k := PiecesInOrder(groups[1..], i - 1, j - 1, l, m);
    }
    CutLater(groups[0], Flat(groups[1..]), k);
    return |groups[0]| + k;
  }

  lemma CutLater(first: seq<string>, rest: seq<string>, k: nat)
    requires k <= |rest|
    ensures (first + rest)[..|first| + k] == first + rest[..k] && (first + rest)[|first| + k..] == rest[k..]
  {
  }

  function PathsOf(rows: seq<Row>): set<string>
  {
    set row | row in rows :: row.0
  }

  lemma {:induction false} ParsedInParts(a: seq<string>, b: seq<string>, seen: set<string>)
    requires ParseLines(a + b, seen).Ok?
    ensures ParseLines(a, seen).Ok?
    ensures ParseLines(b, seen + PathsOf(ParseLines(a, seen).value)).Ok?
    decreases |a|
  {
    if a == [] {
      assert a + b == b && seen + PathsOf([]) == seen;
    } else {
      assert (a + b)[1..] == a[1..] + b;
      if a[0] == "" {
        ParsedInParts(a[1..], b, seen);
      } else {
        var row := ParseLine(a[0]).value;
        ParsedInParts(a[1..], b, seen + {row.0});
        var rest := ParseLines(a[1..], seen + {row.0}).value;
        assert seen + {row.0} + PathsOf(rest) == seen + PathsOf([row] + rest);
      }
    }
  }

  lemma {:induction false} ParsedLine(lines: seq<string>, seen: set<string>, line: string)
    requires ParseLines(lines, seen).Ok? && line in lines && line != ""
    ensures ParseLine(line).Ok? && ParseLine(line).value.0 !in seen
    ensures ParseLine(line).value.0 in PathsOf(ParseLines(lines, seen).value)
  {
    if lines[0] == "" {
      ParsedLine(lines[1..], seen, line);
    } else {
      var row := ParseLine(lines[0]).value;
      var rest := ParseLines(lines[1..], seen + {row.0}).value;
      assert ParseLines(lines, seen).value == [row] + rest;
      if line != lines[0] {
        ParsedLine(lines[1..], seen + {row.0}, line);
        var other :| other in rest && other.0 == ParseLine(line).value.0;
        assert other in [row] + rest;
      } else {
        assert row in [row] + rest;
      }
    }
  }

  /** If both lines parse, they name the same path. */
  predicate SamePath(l: string, m: string)
  {
    ParseLine(l).Ok? && ParseLine(m).Ok? ==> ParseLine(l).value.0 == ParseLine(m).value.0
  }

  lemma SharedWithFirst(first: seq<string>, rest: seq<string>, l: string, m: string, seen: set<string>)
    requires l in first && m in rest && l != "" && m != ""
    requires SamePath(l, m)
    ensures ParseLines(first + rest, seen).Err?
  {
    if ParseLines(first + rest, seen).Ok? {
      ParsedInParts(first, rest, seen);
      ParsedLine(first, seen, l);
      ParsedLine(rest, seen + PathsOf(ParseLines(first, seen).value), m);
    }
  }

  /** Two lines that would parse to one path, from different rows: the text is rejected. */
  lemma SharedPieceRejects(rows: seq<Row>, i: nat, j: nat, l: string, m: string, seen: set<string>)
    requires i < j < |rows| && l in Pieces(rows[i]) && m in Pieces(rows[j]) && l != "" && m != ""
    requires SamePath(l, m)
    ensures ParseLines(SplitLines(RowsText(rows)), seen).Err?
  {
    LinesArePieces(rows);
    var lines := Flat(AllPieces(rows));
    var q := PiecesInOrder(AllPieces(rows), i, j, l, m);
    SharedWithFirst(lines[..q], lines[q..], l, m, seen);
    assert lines == lines[..q] + lines[q..];
  }

  lemma InSorted(rows: seq<Row>, row: Row)
    ensures row in Sort(rows) <==> row in rows
  {
    SortPermutes(rows);
    assert row in multiset(rows) <==> row in rows;
    assert row in multiset(Sort(rows)) <==> row in Sort(rows);
  }

  /** The same for the sorted text of a list of rows. */
  lemma SharedPieceRejectsText(rows: seq<Row>, r: Row, s: Row, l: string, m: string)
    requires r in rows && s in rows && r != s && l in Pieces(r) && m in Pieces(s) && l != "" && m != ""
    requires SamePath(l, m)
    ensures Parse(RowsText(Sort(rows))).Err?
  {
    InSorted(rows, r);
    InSorted(rows, s);
    var sorted := Sort(rows);
    var i :| 0 <= i < |sorted| && sorted[i] == r;
    var j :| 0 <= j < |sorted| && sorted[j] == s;
    if i < j { SharedPieceRejects(sorted, i, j, l, m, {}); } else { SharedPieceRejects(sorted, j, i, m, l, {}); }
  }

  lemma BadPieceRejectsText(rows: seq<Row>, r: Row, l: string)
    requires r in rows && l in Pieces(r) && l != "" && ParseLine(l).Err?
    ensures Parse(RowsText(Sort(rows))).Err?
  {
    InSorted(rows, r);
    var sorted := Sort(rows);
    var i :| 0 <= i < |sorted| && sorted[i] == r;
    LinesArePieces(sorted);
    PieceInFlat(AllPieces(sorted), i, l);
    if Parse(RowsText(sorted)).Ok? { ParsedLine(SplitLines(RowsText(sorted)), {}, l); }
  }

  // ---- The lines around a break ----

  lemma {:induction false} BreakFound(s: string, k: nat)
    requires k < |s| && LineBreak(s[k])
    ensures FirstLine(s) <= k
  {
    if !LineBreak(s[0]) { BreakFound(s[1..], k - 1); }
  }

  lemma TailStep(x: string, c: char, t: string)
    requires LineBreak(c) && OneLine(t) && t != ""
    ensures var s := x + [c] + t + "\n";
      && FirstLine(s) < |s| && AfterBreak(s) <= |x| + 1
      && (AfterBreak(s) <= |x| ==> s[AfterBreak(s)..] == x[AfterBreak(s)..] + [c] + t + "\n")
      && (AfterBreak(s) == |x| + 1 ==> s[AfterBreak(s)..] == t + "\n" + "")
  {
    var s := x + [c] + t + "\n";
    assert t[0] in t && s[|x|] == c && s[|x| + 1] == t[0];
    BreakFound(s, |x|);
  }

  /** What stands after a line break, up to the line feed, is a line of its own. */
  lemma {:induction false} TailIsLine(x: string, c: char, t: string)
    requires LineBreak(c) && OneLine(t) && t != ""
    ensures t in SplitLines(x + [c] + t + "\n")
    decreases |x|
  {
    var s := x + [c] + t + "\n";
    TailStep(x, c, t);
    SplitStep(s);
    if AfterBreak(s) <= |x| { TailIsLine(x[AfterBreak(s)..], c, t); } else { SplitOneLine(t, ""); }
  }

  function AfterLastBreak(s: string): (t: string)
    ensures OneLine(t) && |t| <= |s|
  {
    if s == "" || LineBreak(s[|s| - 1]) then "" else AfterLastBreak(s[..|s| - 1]) + [s[|s| - 1]]
  }

  lemma {:induction false} LastBreak(s: string) returns (x: string, c: char)
    requires !OneLine(s)
    ensures s == x + [c] + AfterLastBreak(s) && LineBreak(c)
    decreases |s|
  {
    var n := |s| - 1;
    if LineBreak(s[n]) {
      x, c := s[..n], s[n];
    } else {
      assert s == s[..n] + [s[n]];
      x, c := LastBreak(s[..n]);
    }
  }

  /** The piece after the last break of the middle of a row's path. */
  lemma TailPiece(row: Row, head: string, middle: string, tail: string)
    requires row.0 == head + middle + tail && !OneLine(middle) && OneLine(tail) && tail != ""
    ensures AfterLastBreak(middle) + tail in Pieces(row)
  {
    var x, c := LastBreak(middle);
    var front, piece := row.1 + "  " + head + x, AfterLastBreak(middle) + tail;
    assert RowText(row) == front + [c] + piece + "\n";
    TailIsLine(front, c, piece);
  }

  lemma HeadIsLine(start: string, head: string, rest: string)
    requires OneLine(start) && FirstLine(head) < |head|
    ensures start + head[..FirstLine(head)] in SplitLines(start + head + rest)
  {
    var s := start + head + rest;
    SkipOneLine(start, head);
    FirstLineStays(start + head, rest);
    SplitStep(s);
    assert s[..FirstLine(s)] == start + head[..FirstLine(head)];
  }

  /** The piece before the first break of the beginning of a row's path. */
  lemma HeadPiece(row: Row, head: string, rest: string)
    requires row.0 == head + rest && !OneLine(head) && Hex64(row.1)
    ensures row.1 + "  " + head[..FirstLine(head)] in Pieces(row)
  {
    var start := row.1 + "  ";
    OneLineIff(head);
    assert OneLine(start) by { assert forall c | c in row.1 :: IsHex(c); }
    assert RowText(row) == start + head + (rest + "\n");
    HeadIsLine(start, head, rest + "\n");
  }

  lemma {:induction false} SkipOneLine(a: string, b: string)
    requires OneLine(a)
    ensures FirstLine(a + b) == |a| + FirstLine(b)
  {
    if a == "" {
      assert a + b == b;
    } else {
      assert (a + b)[1..] == a[1..] + b && a[0] in a;
      SkipOneLine(a[1..], b);
    }
  }

  /** Where the parser puts the path of a row's first line. */
  lemma HeadPieceParses(digest: string, path: string)
    requires Hex64(digest)
    ensures ParseLine(digest + "  " + path).Ok? ==> ParseLine(digest + "  " + path).value.0 == path
  {
    var line := digest + "  " + path;
    HexHasNoGap(digest, path);
    assert line[..64] == digest && line[66..] == path;
  }

  lemma ShortLineIsBad(line: string)
    requires |line| < 64
    ensures ParseLine(line).Err?
  {
  }
}
