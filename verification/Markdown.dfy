/** The Markdown block scanner: how it classifies lines, what each block consumes, and when
    it makes progress. */
module Markdown {
  import opened Text
  import opened Outcome
  import opened Paths

  // ---- Lines ----

  /** \s, and what trim() removes. */
  predicate IsSpace(c: char)
  {
    || 9 <= c as int <= 13 || c == ' ' || c as int == 0xA0 || c as int == 0x1680
    || 0x2000 <= c as int <= 0x200A || c as int == 0x202F || c as int == 0x205F || c as int == 0x3000
    || c as int == 0xFEFF || IsTerminator(c)
  }

  /** The characters that "." does not match. */
  predicate IsTerminator(c: char)
  {
    c == '\n' || c == '\r' || c as int == 0x2028 || c as int == 0x2029
  }

  /** The white space and line terminators of sections 12.2 and 12.3 of ECMA-262. */
  lemma SpaceIff(c: char)
    ensures IsSpace(c) <==> c as int in {
      0x0009, 0x000A, 0x000B, 0x000C, 0x000D, 0x0020, 0x00A0, 0x1680, 0x2000, 0x2001, 0x2002, 0x2003, 0x2004, 0x2005,
      0x2006, 0x2007, 0x2008, 0x2009, 0x200A, 0x2028, 0x2029, 0x202F, 0x205F, 0x3000, 0xFEFF}
    ensures IsTerminator(c) <==> c as int in {0x000A, 0x000D, 0x2028, 0x2029}
  {
  }

  predicate OneLine(s: string)
  {
    forall c | c in s :: !IsTerminator(c)
  }

  /** content.replace(/\r\n/g, "\n"). */
  function ToLineFeeds(content: string): string
    decreases |content|
  {
    if content == "" then ""
    else if StartsWith(content, "\r\n") then "\n" + ToLineFeeds(content[2..])
    else [content[0]] + ToLineFeeds(content[1..])
  }

  function Lines(content: string): seq<string>
  {
    Split(ToLineFeeds(content), '\n')
  }

  function TrimStart(s: string): (t: string)
    ensures t == "" || !IsSpace(t[0])
  {
    if s != "" && IsSpace(s[0]) then TrimStart(s[1..]) else s
  }

  function TrimEnd(s: string): (t: string)
    ensures t <= s
    ensures t == "" || !IsSpace(t[|t| - 1])
  {
    if s != "" && IsSpace(s[|s| - 1]) then TrimEnd(s[..|s| - 1]) else s
  }

  function Trim(s: string): (t: string)
    ensures t == "" || (!IsSpace(t[0]) && !IsSpace(t[|t| - 1]))
  {
    TrimEnd(TrimStart(s))
  }

  // ---- Patterns on a trimmed line ----

  function Hashes(s: string): (n: nat)
    ensures n <= |s| && (forall i :: 0 <= i < n ==> s[i] == '#') && (n < |s| ==> s[n] != '#')
  {
    if s != "" && s[0] == '#' then 1 + Hashes(s[1..]) else 0
  }

  function Spaces(s: string): (n: nat)
    ensures n <= |s| && (forall i :: 0 <= i < n ==> IsSpace(s[i])) && (n < |s| ==> !IsSpace(s[n]))
  {
    if s != "" && IsSpace(s[0]) then 1 + Spaces(s[1..]) else 0
  }

  function Digits(s: string): (n: nat)
    ensures n <= |s| && (forall i :: 0 <= i < n ==> IsDigit(s[i])) && (n < |s| ==> !IsDigit(s[n]))
  {
    if s != "" && IsDigit(s[0]) then 1 + Digits(s[1..]) else 0
  }

  /** ^#{1,6}\s+ */
  predicate HeadingLike(line: string)
  {
    var n := Hashes(line);
    1 <= n <= 6 && n < |line| && IsSpace(line[n])
  }

  function HeadingText(line: string): string
    requires HeadingLike(line)
  {
    var rest := line[Hashes(line)..];
    rest[Spaces(rest)..]
  }

  /** ^(#{1,6})\s+(.+)$ : the heading text must not cross a line terminator. */
  predicate Heading(line: string)
  {
    HeadingLike(line) && HeadingText(line) != "" && OneLine(HeadingText(line))
  }

  /** ^>\s? */
  predicate QuoteLike(line: string)
  {
    line != "" && line[0] == '>'
  }

  function QuoteText(line: string): string
    requires QuoteLike(line)
  {
    if |line| > 1 && IsSpace(line[1]) then line[2..] else line[1..]
  }

  /** ^-\s+ */
  predicate BulletLike(line: string)
  {
    |line| > 1 && line[0] == '-' && IsSpace(line[1])
  }

  datatype Item = Item(checked: Option<bool>, text: string)

  /** ^\[([ xX])\]\s*(.*)$ on the text after the bullet. */
  function BulletItem(line: string): Item
    requires BulletLike(line)
  {
    var text := line[1 + Spaces(line[1..])..];
    if |text| >= 3 && text[0] == '[' && text[1] in " xX" && text[2] == ']'
       && OneLine(text[3 + Spaces(text[3..])..])
    then Item(Some(text[1] != ' '), text[3 + Spaces(text[3..])..])
    else Item(None, text)
  }

  /** ^\d+\.\s+ */
  predicate OrderedLike(line: string)
  {
    var n := Digits(line);
    n > 0 && n + 1 < |line| && line[n] == '.' && IsSpace(line[n + 1])
  }

  function OrderedText(line: string): string
    requires OrderedLike(line)
  {
    var rest := line[Digits(line) + 1..];
    rest[Spaces(rest)..]
  }

  function DropBars(s: string): string
  {
    var t := if s != "" && s[0] == '|' then s[1..] else s;
    if t != "" && t[|t| - 1] == '|' then t[..|t| - 1] else t
  }

  function TrimAll(cells: seq<string>): seq<string>
  {
    seq(|cells|, i requires 0 <= i < |cells| => Trim(cells[i]))
  }

  function SplitTableRow(line: string): seq<string>
  {
    TrimAll(Split(DropBars(Trim(line)), '|'))
  }

  /** ^:?-{3,}:?$ */
  predicate SeparatorCell(cell: string)
  {
    var a := if cell != "" && cell[0] == ':' then cell[1..] else cell;
    var b := if a != "" && a[|a| - 1] == ':' then a[..|a| - 1] else a;
    |b| >= 3 && forall c | c in b :: c == '-'
  }

  predicate IsTableSeparator(line: string)
  {
    '|' in line && forall cell | cell in SplitTableRow(line) :: SeparatorCell(cell)
  }

  predicate TableStarts(lines: seq<string>, i: nat)
    requires i < |lines|
  {
    '|' in Trim(lines[i]) && i + 1 < |lines| && IsTableSeparator(lines[i + 1])
  }

  predicate StartsBlock(lines: seq<string>, i: nat)
    requires i < |lines|
  {
    var line := Trim(lines[i]);
    HeadingLike(line) || QuoteLike(line) || BulletLike(line) || OrderedLike(line) || TableStarts(lines, i)
  }

  // ---- Runs of lines ----

  datatype Kind = Quoted | Row | Bullet | Numbered | Prose

  /** Whether a run of this kind goes on at line j. */
  predicate Continues(kind: Kind, lines: seq<string>, j: nat)
    requires j < |lines|
  {
    var line := Trim(lines[j]);
    match kind
    case Quoted => QuoteLike(line)
    case Row => '|' in line
    case Bullet => BulletLike(line)
    case Numbered => OrderedLike(line)
    case Prose => line != "" && !StartsBlock(lines, j)
  }

  function RunEnd(kind: Kind, lines: seq<string>, i: nat): (j: nat)
    requires i <= |lines|
    ensures i <= j <= |lines|
    ensures forall k :: i <= k < j ==> Continues(kind, lines, k)
    ensures j < |lines| ==> !Continues(kind, lines, j)
    decreases |lines| - i
  {
    if i < |lines| && Continues(kind, lines, i) then RunEnd(kind, lines, i + 1) else i
  }

  // The first line that does not continue is the end of the run.
  lemma {:induction false} RunEndIs(kind: Kind, lines: seq<string>, i: nat, j: nat)
    requires i <= j <= |lines| && forall k :: i <= k < j ==> Continues(kind, lines, k)
    requires j < |lines| ==> !Continues(kind, lines, j)
    ensures RunEnd(kind, lines, i) == j
    decreases j - i
  {
    if i < j { RunEndIs(kind, lines, i + 1, j); }
  }

  // ---- Blocks ----

  datatype Block =
    | HeadingBlock(depth: nat, text: string)
    | QuoteBlock(quote: seq<string>)
    | TableBlock(headers: seq<string>, rows: seq<seq<string>>)
    | ListBlock(items: seq<Item>)
    | OrderedBlock(entries: seq<string>)
    | ParagraphBlock(paragraph: seq<string>)

  function Quotes(lines: seq<string>, i: nat, j: nat): seq<string>
    requires i <= j <= |lines| && forall k :: i <= k < j ==> Continues(Quoted, lines, k)
  {
    seq(j - i, k requires 0 <= k < j - i => assert Continues(Quoted, lines, i + k); QuoteText(Trim(lines[i + k])))
  }

  function Rows(lines: seq<string>, i: nat, j: nat): seq<seq<string>>
    requires i <= j <= |lines|
  {
    seq(j - i, k requires 0 <= k < j - i => SplitTableRow(lines[i + k]))
  }

  function Items(lines: seq<string>, i: nat, j: nat): seq<Item>
    requires i <= j <= |lines| && forall k :: i <= k < j ==> Continues(Bullet, lines, k)
  {
    seq(j - i, k requires 0 <= k < j - i => assert Continues(Bullet, lines, i + k); BulletItem(Trim(lines[i + k])))
  }

  function Entries(lines: seq<string>, i: nat, j: nat): seq<string>
    requires i <= j <= |lines| && forall k :: i <= k < j ==> Continues(Numbered, lines, k)
  {
    seq(j - i, k requires 0 <= k < j - i => assert Continues(Numbered, lines, i + k); OrderedText(Trim(lines[i + k])))
  }

  function Paragraph(lines: seq<string>, i: nat, j: nat): seq<string>
    requires i <= j <= |lines|
  {
    seq(j - i, k requires 0 <= k < j - i => Trim(lines[i + k]))
  }

  /** A block together with the source lines it took. */
  datatype Placed = Placed(start: nat, end: nat, block: Block)

  function BlockAt(lines: seq<string>, i: nat): Placed
    requires i < |lines| && Trim(lines[i]) != ""
  {
    var line := Trim(lines[i]);
    if Heading(line) then Placed(i, i + 1, HeadingBlock(Hashes(line), HeadingText(line)))
    else if QuoteLike(line) then var j := RunEnd(Quoted, lines, i); Placed(i, j, QuoteBlock(Quotes(lines, i, j)))
    else if TableStarts(lines, i) then
      var j := RunEnd(Row, lines, i + 2);
      Placed(i, j, TableBlock(SplitTableRow(lines[i]), Rows(lines, i + 2, j)))
    else if BulletLike(line) then var j := RunEnd(Bullet, lines, i); Placed(i, j, ListBlock(Items(lines, i, j)))
    else if OrderedLike(line) then var j := RunEnd(Numbered, lines, i); Placed(i, j, OrderedBlock(Entries(lines, i, j)))
    else var j := RunEnd(Prose, lines, i); Placed(i, j, ParagraphBlock(Paragraph(lines, i, j)))
  }

  /** A split of the line as the heading pattern reads it: n hashes, spaces up to k, then text. */
  ghost predicate HeadingSplit(line: string, n: nat, k: nat)
  {
    && 1 <= n <= 6 && n < k < |line|
    && (forall i :: 0 <= i < n ==> line[i] == '#') && (forall i :: n <= i < k ==> IsSpace(line[i]))
    && OneLine(line[k..])
  }

  lemma HeadingSplits(line: string)
    requires Heading(line)
    ensures HeadingSplit(line, Hashes(line), Hashes(line) + Spaces(line[Hashes(line)..]))
  {
    var n := Hashes(line);
    var rest := line[n..];
    assert HeadingText(line) == line[n + Spaces(rest)..];
    forall i | n <= i < n + Spaces(rest) ensures IsSpace(line[i]) {
      assert line[i] == rest[i - n];
    }
  }

  lemma HashesAre(line: string, n: nat)
    requires n < |line| && line[n] != '#' && forall i :: 0 <= i < n ==> line[i] == '#'
    ensures Hashes(line) == n
  {
    assert Hashes(line) < |line| ==> line[Hashes(line)] != '#';
  }

  lemma SpacesReach(line: string, n: nat, k: nat)
    requires n <= k < |line| && forall i :: n <= i < k ==> IsSpace(line[i])
    ensures n + Spaces(line[n..]) >= k
  {
    var rest := line[n..];
    assert forall i :: 0 <= i < k - n ==> rest[i] == line[n + i];
    assert Spaces(rest) < |rest| ==> !IsSpace(rest[Spaces(rest)]);
  }

  lemma LaterIsOneLine(line: string, k: nat, m: nat)
    requires k <= m <= |line| && OneLine(line[k..])
    ensures OneLine(line[m..])
  {
    assert forall c | c in line[m..] :: c in line[k..] by {
      assert line[m..] == line[k..][m - k..];
    }
  }

  lemma SplitIsHeading(line: string, n: nat, k: nat)
    requires HeadingSplit(line, n, k) && !IsSpace(line[|line| - 1])
    ensures Heading(line)
  {
    assert IsSpace(line[n]);
    HashesAre(line, n);
    SpacesReach(line, n, k);
    var rest := line[n..];
    var m := n + Spaces(rest);
    assert rest[|rest| - 1] == line[|line| - 1];
    assert HeadingText(line) == line[m..];
    LaterIsOneLine(line, k, m);
  }

  /** On a trimmed line the greedy reading succeeds exactly when some split does. */
  lemma HeadingIffSplit(s: string)
    ensures Heading(Trim(s)) <==> exists n: nat, k: nat :: HeadingSplit(Trim(s), n, k)
  {
    if Heading(Trim(s)) { HeadingSplits(Trim(s)); }
    if n: nat, k: nat :| HeadingSplit(Trim(s), n, k) { SplitIsHeading(Trim(s), n, k); }
  }

  // ---- Progress ----

  /** A heading prefix whose text crosses a line terminator, in a line no other branch takes. */
  predicate Stuck(lines: seq<string>, i: nat)
    requires i < |lines|
  {
    var line := Trim(lines[i]);
    HeadingLike(line) && !OneLine(HeadingText(line)) && !TableStarts(lines, i)
  }

  lemma HeadingTextNonEmpty(s: string)
    requires HeadingLike(Trim(s))
    ensures HeadingText(Trim(s)) != ""
  {
    var line := Trim(s);
    var rest := line[Hashes(line)..];
    assert rest[|rest| - 1] == line[|line| - 1];
  }

  lemma HeadingLineProgress(lines: seq<string>, i: nat)
    requires i < |lines| && HeadingLike(Trim(lines[i]))
    ensures BlockAt(lines, i).start == i <= BlockAt(lines, i).end <= |lines|
    ensures BlockAt(lines, i).end > i <==> !Stuck(lines, i)
  {
    HeadingTextNonEmpty(lines[i]);
    assert Trim(lines[i])[0] == '#';
    if Stuck(lines, i) { assert !Continues(Prose, lines, i); }
  }

  lemma OtherLineProgress(lines: seq<string>, i: nat)
    requires i < |lines| && Trim(lines[i]) != "" && !HeadingLike(Trim(lines[i]))
    ensures BlockAt(lines, i).start == i < BlockAt(lines, i).end <= |lines|
  {
    assert StartsBlock(lines, i) || Continues(Prose, lines, i);
  }

  /** The scanner takes at least one line exactly when it is not stuck: whenever startsBlock
      holds elsewhere, an earlier branch has taken the line. */
  lemma ProgressIffNotStuck(lines: seq<string>, i: nat)
    requires i < |lines| && Trim(lines[i]) != ""
    ensures BlockAt(lines, i).start == i <= BlockAt(lines, i).end <= |lines|
    ensures BlockAt(lines, i).end > i <==> !Stuck(lines, i)
  {
    if HeadingLike(Trim(lines[i])) { HeadingLineProgress(lines, i); } else { OtherLineProgress(lines, i); }
  }

  /** Every line the scanner visits from i on lets it move. */
  predicate Halts(lines: seq<string>, i: nat)
    decreases |lines| - i
  {
    if i >= |lines| then true
    else if Trim(lines[i]) == "" then Halts(lines, i + 1)
    else if Stuck(lines, i) then false
    else
      ProgressIffNotStuck(lines, i);
      Halts(lines, BlockAt(lines, i).end)
  }

  /** Where the outer loop stands after one turn from line i. */
  function Turn(lines: seq<string>, i: nat): nat
  {
    if i >= |lines| then i
    else if Trim(lines[i]) == "" then i + 1
    else BlockAt(lines, i).end
  }

  lemma TurnWhileHalting(lines: seq<string>, i: nat)
    requires i < |lines|
    ensures i <= Turn(lines, i) <= |lines|
    ensures Halts(lines, i) <==> Turn(lines, i) > i && Halts(lines, Turn(lines, i))
  {
    if Trim(lines[i]) != "" { ProgressIffNotStuck(lines, i); }
  }

  function Iterate(step: nat -> nat, i: nat, turns: nat): nat
    decreases turns
  {
    if turns == 0 then i else Iterate(step, step(i), turns - 1)
  }

  // A loop that may stand still, and the states from which it keeps moving up to n.
  ghost predicate Loop(step: nat -> nat, moving: nat -> bool, n: nat)
  {
    && moving(n)
    && forall i :: 0 <= i < n ==> i <= step(i) <= n && (moving(i) <==> step(i) > i && moving(step(i)))
  }

  lemma {:induction false} StandsStill(step: nat -> nat, i: nat, turns: nat)
    requires step(i) == i
    ensures Iterate(step, i, turns) == i
    decreases turns
  {
    if turns > 0 { StandsStill(step, i, turns - 1); }
  }

  lemma {:induction false} ReachesEnd(step: nat -> nat, moving: nat -> bool, n: nat, i: nat, turns: nat)
    requires Loop(step, moving, n) && i <= n && Iterate(step, i, turns) == n
    ensures moving(i)
    decreases turns
  {
    if i < n {
      if step(i) == i { StandsStill(step, i, turns); } else { ReachesEnd(step, moving, n, step(i), turns - 1); }
    }
  }

  lemma {:induction false} MovingReaches(step: nat -> nat, moving: nat -> bool, n: nat, i: nat) returns (turns: nat)
    requires Loop(step, moving, n) && i <= n && moving(i)
    ensures Iterate(step, i, turns) == n
    decreases n - i
  {
    turns := 0;
    if i < n {
      var rest := MovingReaches(step, moving, n, step(i));
      turns := rest + 1;
    }
  }

  function OuterLoop(lines: seq<string>): nat -> nat
  {
    (i: nat) => Turn(lines, i)
  }

  ghost predicate EndsAfter(lines: seq<string>, turns: nat)
  {
    Iterate(OuterLoop(lines), 0, turns) == |lines|
  }

  /** The scanner reaches the end of the document exactly when no visited line is stuck. */
  lemma HaltsIffEnds(lines: seq<string>)
    ensures Halts(lines, 0) <==> exists turns: nat :: EndsAfter(lines, turns)
  {
    var step, moving: nat -> bool := OuterLoop(lines), (i: nat) => Halts(lines, i);
    forall i | 0 <= i < |lines| ensures i <= step(i) <= |lines| && (moving(i) <==> step(i) > i && moving(step(i))) {
      TurnWhileHalting(lines, i);
    }
    assert Loop(step, moving, |lines|);
    if Halts(lines, 0) {
      var turns := MovingReaches(step, moving, |lines|, 0);
      assert EndsAfter(lines, turns);
    }
    if turns: nat :| EndsAfter(lines, turns) { ReachesEnd(step, moving, |lines|, 0, turns); }
  }

  /** Where no line is stuck, visited or not, the scan ends. */
  lemma {:induction false} NoStuckLineHalts(lines: seq<string>, i: nat)
    requires forall k :: i <= k < |lines| ==> !Stuck(lines, k)
    ensures Halts(lines, i)
    decreases |lines| - i
  {
    if i < |lines| {
      if Trim(lines[i]) == "" {
        NoStuckLineHalts(lines, i + 1);
      } else {
        ProgressIffNotStuck(lines, i);
        NoStuckLineHalts(lines, BlockAt(lines, i).end);
      }
    }
  }

  lemma HeadingEndsRuns(kind: Kind, lines: seq<string>, i: nat, k: nat)
    requires i <= k < |lines| && HeadingLike(Trim(lines[k])) && '|' !in Trim(lines[k])
    ensures RunEnd(kind, lines, i) <= k
  {
    var line := Trim(lines[k]);
    assert line[0] == '#';
    assert Digits(line) == 0;
    assert !Continues(kind, lines, k);
  }

  lemma TableStopsAbove(lines: seq<string>, i: nat, k: nat)
    requires i < k < |lines| && HeadingLike(Trim(lines[k])) && '|' !in lines[k] && TableStarts(lines, i)
    ensures RunEnd(Row, lines, i + 2) <= k
  {
    TrimKeepsChars(lines[k]);
    HeadingEndsRuns(Row, lines, i + 2, k);
  }

  lemma RunsStopAbove(lines: seq<string>, i: nat, k: nat)
    requires i < k < |lines| && HeadingLike(Trim(lines[k])) && '|' !in lines[k]
    ensures RunEnd(Quoted, lines, i) <= k && RunEnd(Bullet, lines, i) <= k && RunEnd(Numbered, lines, i) <= k
    ensures RunEnd(Prose, lines, i) <= k
  {
    TrimKeepsChars(lines[k]);
    HeadingEndsRuns(Quoted, lines, i, k);
    HeadingEndsRuns(Bullet, lines, i, k);
    HeadingEndsRuns(Numbered, lines, i, k);
    HeadingEndsRuns(Prose, lines, i, k);
  }

  // Where a block ends, by the branch that takes its first line.
  lemma BlockEnds(lines: seq<string>, i: nat)
    requires i < |lines| && Trim(lines[i]) != ""
    ensures var end := BlockAt(lines, i).end;
      || end == i + 1 || (TableStarts(lines, i) && end == RunEnd(Row, lines, i + 2)) || end == RunEnd(Quoted, lines, i)
      || end == RunEnd(Bullet, lines, i) || end == RunEnd(Numbered, lines, i) || end == RunEnd(Prose, lines, i)
  {
  }

  // No block that starts above a stuck line without a bar takes that line.
  lemma BlocksStopAbove(lines: seq<string>, i: nat, k: nat)
    requires i < k < |lines| && HeadingLike(Trim(lines[k])) && '|' !in lines[k] && Trim(lines[i]) != ""
    ensures BlockAt(lines, i).end <= k
  {
    BlockEnds(lines, i);
    RunsStopAbove(lines, i, k);
    if TableStarts(lines, i) { TableStopsAbove(lines, i, k); }
  }

  lemma TurnStopsAbove(lines: seq<string>, i: nat, k: nat)
    requires i < k < |lines| && HeadingLike(Trim(lines[k])) && '|' !in lines[k]
    ensures Turn(lines, i) <= k
  {
    if Trim(lines[i]) != "" { BlocksStopAbove(lines, i, k); }
  }

  lemma {:induction false} StuckLineIsReached(lines: seq<string>, i: nat, k: nat)
    requires i <= k < |lines| && Stuck(lines, k) && '|' !in lines[k]
    ensures !Halts(lines, i)
    decreases k - i
  {
    if i == k {
      assert HeadingLike(Trim(lines[k]));
    } else {
      TurnWhileHalting(lines, i);
      TurnStopsAbove(lines, i, k);
      if Turn(lines, i) > i { StuckLineIsReached(lines, Turn(lines, i), k); }
    }
  }

  /** A stuck line without a bar stops the scan, whatever stands around it: only a table can take
      a stuck line as one of its rows. */
  lemma StuckLineHangs(lines: seq<string>, k: nat)
    requires k < |lines| && Stuck(lines, k) && '|' !in lines[k]
    ensures !Halts(lines, 0)
  {
    StuckLineIsReached(lines, 0, k);
  }

  function Blocks(lines: seq<string>, i: nat): seq<Placed>
    requires i <= |lines| && Halts(lines, i)
    decreases |lines| - i
  {
    if i == |lines| then []
    else if Trim(lines[i]) == "" then Blocks(lines, i + 1)
    else
      ProgressIffNotStuck(lines, i);
      [BlockAt(lines, i)] + Blocks(lines, BlockAt(lines, i).end)
  }

  // ---- The scanner ----

  method ReadQuote(lines: seq<string>, start: nat) returns (quote: seq<string>, index: nat)
    requires start <= |lines|
    ensures index == RunEnd(Quoted, lines, start) && quote == Quotes(lines, start, index)
  {
    quote, index := [], start;
    while index < |lines| && QuoteLike(Trim(lines[index]))
      invariant start <= index <= |lines| && forall k :: start <= k < index ==> Continues(Quoted, lines, k)
      invariant quote == Quotes(lines, start, index)
    {
      quote := quote + [QuoteText(Trim(lines[index]))];
      index := index + 1;
    }
    RunEndIs(Quoted, lines, start, index);
  }

  method ReadRows(lines: seq<string>, start: nat) returns (rows: seq<seq<string>>, index: nat)
    requires start <= |lines|
    ensures index == RunEnd(Row, lines, start) && rows == Rows(lines, start, index)
  {
    rows, index := [], start;
    while index < |lines| && '|' in Trim(lines[index])
      invariant start <= index <= |lines| && forall k :: start <= k < index ==> Continues(Row, lines, k)
      invariant rows == Rows(lines, start, index)
    {
      rows := rows + [SplitTableRow(lines[index])];
      index := index + 1;
    }
    RunEndIs(Row, lines, start, index);
  }

  lemma ItemsStep(lines: seq<string>, i: nat, j: nat)
    requires i <= j < |lines| && BulletLike(Trim(lines[j])) && forall k :: i <= k <= j ==> Continues(Bullet, lines, k)
    ensures Items(lines, i, j + 1) == Items(lines, i, j) + [BulletItem(Trim(lines[j]))]
  {
  }

  method ReadBullets(lines: seq<string>, start: nat) returns (items: seq<Item>, index: nat)
    requires start <= |lines|
    ensures index == RunEnd(Bullet, lines, start) && items == Items(lines, start, index)
  {
    items, index := [], start;
    while index < |lines| && BulletLike(Trim(lines[index]))
      invariant start <= index <= |lines| && forall k :: start <= k < index ==> Continues(Bullet, lines, k)
      invariant items == Items(lines, start, index)
    {
      assert Continues(Bullet, lines, index);
      ItemsStep(lines, start, index);
      items := items + [BulletItem(Trim(lines[index]))];
      index := index + 1;
    }
    RunEndIs(Bullet, lines, start, index);
  }

  lemma EntriesStep(lines: seq<string>, i: nat, j: nat)
    requires i <= j < |lines| && OrderedLike(Trim(lines[j]))
    requires forall k :: i <= k <= j ==> Continues(Numbered, lines, k)
    ensures Entries(lines, i, j + 1) == Entries(lines, i, j) + [OrderedText(Trim(lines[j]))]
  {
  }

  method ReadOrdered(lines: seq<string>, start: nat) returns (entries: seq<string>, index: nat)
    requires start <= |lines|
    ensures index == RunEnd(Numbered, lines, start) && entries == Entries(lines, start, index)
  {
    entries, index := [], start;
    while index < |lines| && OrderedLike(Trim(lines[index]))
      invariant start <= index <= |lines| && forall k :: start <= k < index ==> Continues(Numbered, lines, k)
      invariant entries == Entries(lines, start, index)
    {
      assert Continues(Numbered, lines, index);
      EntriesStep(lines, start, index);
      entries := entries + [OrderedText(Trim(lines[index]))];
      index := index + 1;
    }
    RunEndIs(Numbered, lines, start, index);
  }

  method ReadParagraph(lines: seq<string>, start: nat) returns (paragraph: seq<string>, index: nat)
    requires start <= |lines|
    ensures index == RunEnd(Prose, lines, start) && paragraph == Paragraph(lines, start, index)
  {
    paragraph, index := [], start;
    while index < |lines| && Trim(lines[index]) != "" && !StartsBlock(lines, index)
      invariant start <= index <= |lines| && forall k :: start <= k < index ==> Continues(Prose, lines, k)
      invariant paragraph == Paragraph(lines, start, index)
    {
      paragraph := paragraph + [Trim(lines[index])];
      index := index + 1;
    }
    RunEndIs(Prose, lines, start, index);
  }

  /** One turn of the outer loop at a line that is not blank. */
  method ReadBlock(lines: seq<string>, start: nat) returns (placed: Placed)
    requires start < |lines| && Trim(lines[start]) != ""
    ensures placed == BlockAt(lines, start)
  {
    var line := Trim(lines[start]);
    if Heading(line) { return Placed(start, start + 1, HeadingBlock(Hashes(line), HeadingText(line))); }
    if QuoteLike(line) {
      var quote, index := ReadQuote(lines, start);
      return Placed(start, index, QuoteBlock(quote));
    }
    if TableStarts(lines, start) {
      var headers := SplitTableRow(lines[start]);
      var rows, index := ReadRows(lines, start + 2);
      return Placed(start, index, TableBlock(headers, rows));
    }
    if BulletLike(line) {
      var items, index := ReadBullets(lines, start);
      return Placed(start, index, ListBlock(items));
    }
    if OrderedLike(line) {
      var entries, index := ReadOrdered(lines, start);
      return Placed(start, index, OrderedBlock(entries));
    }
    var paragraph, index := ReadParagraph(lines, start);
    return Placed(start, index, ParagraphBlock(paragraph));
  }

  method ScanDocument(content: string) returns (blocks: seq<Placed>)
    requires Halts(Lines(content), 0)
    ensures blocks == Blocks(Lines(content), 0)
  {
    var lines := Lines(content);
    blocks := [];
    var index := 0;
    while index < |lines|
      invariant index <= |lines| && Halts(lines, index)
      invariant blocks + Blocks(lines, index) == Blocks(lines, 0)
    {
      if Trim(lines[index]) == "" {
        index := index + 1;
      } else {
        ProgressIffNotStuck(lines, index);
        var placed := ReadBlock(lines, index);
        assert blocks + ([placed] + Blocks(lines, placed.end)) == (blocks + [placed]) + Blocks(lines, placed.end);
        blocks := blocks + [placed];
        index := placed.end;
      }
    }
  }

  // ---- When it halts, and what the blocks cover ----

  /** No line terminator inside any line: the scanner halts from everywhere. */
  lemma {:induction false} CleanLinesHalt(lines: seq<string>, i: nat)
    requires i <= |lines| && forall k :: 0 <= k < |lines| ==> OneLine(lines[k])
    ensures Halts(lines, i)
    decreases |lines| - i
  {
    if i < |lines| {
      if Trim(lines[i]) == "" {
        CleanLinesHalt(lines, i + 1);
      } else {
        TrimKeepsChars(lines[i]);
        ProgressIffNotStuck(lines, i);
        CleanLinesHalt(lines, BlockAt(lines, i).end);
      }
    }
  }

  lemma {:induction false} TrimStartKeepsChars(s: string)
    ensures forall c :: c in TrimStart(s) ==> c in s
  {
    if s != "" && IsSpace(s[0]) { TrimStartKeepsChars(s[1..]); }
  }

  lemma TrimKeepsChars(s: string)
    ensures forall c :: c in Trim(s) ==> c in s
  {
    TrimStartKeepsChars(s);
  }

  /** Every line terminator of the document is \n or \r\n. */
  predicate UsualLineEnds(content: string)
    decreases |content|
  {
    if content == "" then true
    else if StartsWith(content, "\r\n") then UsualLineEnds(content[2..])
    else (content[0] == '\n' || !IsTerminator(content[0])) && UsualLineEnds(content[1..])
  }

  lemma {:induction false} OnlyLineFeeds(content: string)
    requires UsualLineEnds(content)
    ensures forall c | c in ToLineFeeds(content) :: IsTerminator(c) ==> c == '\n'
    decreases |content|
  {
    if content != "" {
      if StartsWith(content, "\r\n") { OnlyLineFeeds(content[2..]); } else { OnlyLineFeeds(content[1..]); }
    }
  }

  lemma {:induction false} SplitKeepsChars(s: string, c: char)
    ensures forall p, x :: p in Split(s, c) && x in p ==> x in s && x != c
  {
    if s != "" {
      SplitKeepsChars(s[1..], c);
      var rest := Split(s[1..], c);
      assert rest[0] in rest;
    }
  }

  /** A document whose lines end in \n or \r\n, and that has no U+2028 or U+2029, is scanned to its end. */
  lemma UsualDocumentsHalt(content: string)
    requires UsualLineEnds(content)
    ensures Halts(Lines(content), 0)
  {
    var lines := Lines(content);
    OnlyLineFeeds(content);
    SplitKeepsChars(ToLineFeeds(content), '\n');
    forall k | 0 <= k < |lines| ensures OneLine(lines[k]) {
      assert lines[k] in lines;
    }
    CleanLinesHalt(lines, 0);
  }

  /** One heading with a LINE SEPARATOR inside: the scanner stays on the line for ever. */
  lemma TerminatorInHeadingHangs()
    ensures var lines := ["# a" + [0x2028 as char] + "b"];
      !Halts(lines, 0) && BlockAt(lines, 0) == Placed(0, 0, ParagraphBlock([]))
  {
    var text := ['#', ' ', 'a', 0x2028 as char, 'b'];
    assert "# a" + [0x2028 as char] + "b" == text;
    assert TrimStart(text) == text && TrimEnd(text) == text;
    assert Hashes(text) == 1 by { assert text[1..][0] == ' '; }
    var rest := text[1..];
    assert Spaces(rest) == 1 by { assert rest[1..][0] == 'a'; }
    assert HeadingText(text) == rest[1..];
    assert rest[1..][1] in rest[1..];
    ProgressIffNotStuck([text], 0);
    assert Paragraph([text], 0, 0) == [];
  }

  ghost predicate Covers(b: Placed, k: nat)
  {
    b.start <= k < b.end
  }

  /** The blocks tile the lines from i on, in order; what lies between them is blank. */
  ghost predicate Tiles(lines: seq<string>, blocks: seq<Placed>, i: nat)
    decreases |blocks|
  {
    if blocks == [] then
      forall k :: i <= k < |lines| ==> Trim(lines[k]) == ""
    else
      && i <= blocks[0].start < blocks[0].end <= |lines|
      && (forall k :: i <= k < blocks[0].start ==> Trim(lines[k]) == "")
      && Tiles(lines, blocks[1..], blocks[0].end)
  }

  lemma {:induction false} TilesFromEarlier(lines: seq<string>, blocks: seq<Placed>, i: nat)
    requires i < |lines| && Trim(lines[i]) == "" && Tiles(lines, blocks, i + 1)
    ensures Tiles(lines, blocks, i)
  {
  }

  lemma {:induction false} BlocksTile(lines: seq<string>, i: nat)
    requires i <= |lines| && Halts(lines, i)
    ensures Tiles(lines, Blocks(lines, i), i)
    decreases |lines| - i
  {
    if i < |lines| {
      if Trim(lines[i]) == "" {
        BlocksTile(lines, i + 1);
        TilesFromEarlier(lines, Blocks(lines, i + 1), i);
      } else {
        ProgressIffNotStuck(lines, i);
        BlocksTile(lines, BlockAt(lines, i).end);
        assert ([BlockAt(lines, i)] + Blocks(lines, BlockAt(lines, i).end))[1..]
            == Blocks(lines, BlockAt(lines, i).end);
      }
    }
  }

  lemma {:induction false} TiledOnce(lines: seq<string>, blocks: seq<Placed>, i: nat, k: nat)
    requires Tiles(lines, blocks, i) && i <= k < |lines| && Trim(lines[k]) != ""
    ensures InSomeBlock(blocks, k) && InOneBlockAtMost(blocks, k)
    decreases |blocks|
  {
    if k < blocks[0].end {
      assert Covers(blocks[0], k);
      LaterBlocksStartLater(lines, blocks[1..], blocks[0].end);
      forall n | 0 < n < |blocks| ensures !Covers(blocks[n], k) {
        assert blocks[n] == blocks[1..][n - 1];
      }
    } else {
      TiledOnce(lines, blocks[1..], blocks[0].end, k);
      var n :| 0 <= n < |blocks[1..]| && Covers(blocks[1..][n], k);
      assert Covers(blocks[n + 1], k);
      forall p, q | 0 <= p < |blocks| && 0 <= q < |blocks| && Covers(blocks[p], k) && Covers(blocks[q], k)
        ensures p == q
      {
        assert p > 0 && q > 0;
        assert Covers(blocks[1..][p - 1], k) && Covers(blocks[1..][q - 1], k);
      }
    }
  }

  lemma {:induction false} LaterBlocksStartLater(lines: seq<string>, blocks: seq<Placed>, i: nat)
    requires Tiles(lines, blocks, i)
    ensures forall n :: 0 <= n < |blocks| ==> i <= blocks[n].start
    decreases |blocks|
  {
    if blocks != [] {
      LaterBlocksStartLater(lines, blocks[1..], blocks[0].end);
      forall n | 0 < n < |blocks| ensures i <= blocks[n].start {
        assert blocks[n] == blocks[1..][n - 1];
      }
    }
  }

  lemma RunHasText(kind: Kind, lines: seq<string>, i: nat, k: nat)
    requires i <= |lines| && i <= k < RunEnd(kind, lines, i)
    ensures Trim(lines[k]) != ""
  {
    assert Continues(kind, lines, k);
  }

  lemma BlockHasText(lines: seq<string>, i: nat, k: nat)
    requires i < |lines| && Trim(lines[i]) != "" && i <= k < BlockAt(lines, i).end
    ensures k < |lines| && Trim(lines[k]) != ""
  {
    var line := Trim(lines[i]);
    if Heading(line) {
    } else if QuoteLike(line) {
      RunHasText(Quoted, lines, i, k);
    } else if TableStarts(lines, i) {
      if k == i + 1 { BarSurvivesTrim(lines[k]); } else if k > i { RunHasText(Row, lines, i + 2, k); }
    } else if BulletLike(line) {
      RunHasText(Bullet, lines, i, k);
    } else if OrderedLike(line) {
      RunHasText(Numbered, lines, i, k);
    } else {
      RunHasText(Prose, lines, i, k);
    }
  }

  lemma {:induction false} TrimStartKeepsBar(s: string)
    requires '|' in s
    ensures '|' in TrimStart(s)
  {
    if IsSpace(s[0]) { TrimStartKeepsBar(s[1..]); }
  }

  lemma {:induction false} TrimEndKeepsBar(s: string)
    requires '|' in s
    ensures '|' in TrimEnd(s)
    decreases |s|
  {
    if IsSpace(s[|s| - 1]) {
      assert s == s[..|s| - 1] + [s[|s| - 1]];
      TrimEndKeepsBar(s[..|s| - 1]);
    }
  }

  lemma BarSurvivesTrim(s: string)
    requires '|' in s
    ensures '|' in Trim(s)
  {
    TrimStartKeepsBar(s);
    TrimEndKeepsBar(TrimStart(s));
  }

  lemma {:induction false} BlocksAreBlockAt(lines: seq<string>, i: nat, n: nat)
    requires i <= |lines| && Halts(lines, i) && n < |Blocks(lines, i)|
    ensures var b := Blocks(lines, i)[n];
      b.start < |lines| && Trim(lines[b.start]) != "" && !Stuck(lines, b.start) && b == BlockAt(lines, b.start)
    decreases |lines| - i
  {
    if Trim(lines[i]) == "" {
      BlocksAreBlockAt(lines, i + 1, n);
    } else {
      ProgressIffNotStuck(lines, i);
      if n > 0 { BlocksAreBlockAt(lines, BlockAt(lines, i).end, n - 1); }
    }
  }

  ghost predicate InSomeBlock(blocks: seq<Placed>, k: nat)
  {
    exists n :: 0 <= n < |blocks| && Covers(blocks[n], k)
  }

  ghost predicate InOneBlockAtMost(blocks: seq<Placed>, k: nat)
  {
    forall m, n :: 0 <= m < |blocks| && 0 <= n < |blocks| && Covers(blocks[m], k) && Covers(blocks[n], k) ==> m == n
  }

  /** A line is in a block exactly when it is not blank, and then in exactly one. */
  lemma EveryLineInOneBlock(lines: seq<string>, k: nat)
    requires Halts(lines, 0) && k < |lines|
    ensures Trim(lines[k]) != "" <==> InSomeBlock(Blocks(lines, 0), k)
    ensures InOneBlockAtMost(Blocks(lines, 0), k)
  {
    var blocks := Blocks(lines, 0);
    BlocksTile(lines, 0);
    if Trim(lines[k]) != "" { TiledOnce(lines, blocks, 0, k); }
    forall n | 0 <= n < |blocks| && Covers(blocks[n], k) ensures Trim(lines[k]) != "" {
      BlocksAreBlockAt(lines, 0, n);
      BlockHasText(lines, blocks[n].start, k);
    }
  }
}
