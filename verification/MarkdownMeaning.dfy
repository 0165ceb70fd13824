/** What the scanner's blocks mean: which pattern decides a block, which lines it takes and what it
    holds. */
module MarkdownMeaning {
  import opened Outcome
  import opened Markdown
  import opened MarkdownPatterns

  // ---- Blocks ----

  /** A row of separator cells. */
  ghost predicate SeparatorRow(line: string)
  {
    '|' in line && exists cells :: Cells(line, cells) && forall cell | cell in cells :: Matches(SEPARATOR, cell)
  }

  /** A line with a bar, and under it a row of separators. */
  ghost predicate TableAt(lines: seq<string>, i: nat)
    requires i < |lines|
  {
    '|' in Trim(lines[i]) && i + 1 < |lines| && SeparatorRow(lines[i + 1])
  }

  lemma SeparatorRowIff(line: string)
    ensures SeparatorRow(line) <==> IsTableSeparator(line)
  {
    CellsIff(line, SplitTableRow(line));
    forall cell ensures SeparatorCell(cell) <==> Matches(SEPARATOR, cell) { SeparatorIff(cell); }
    if SeparatorRow(line) {
      var cells :| Cells(line, cells) && forall cell | cell in cells :: Matches(SEPARATOR, cell);
      CellsIff(line, cells);
    }
  }

  lemma TableAtIff(lines: seq<string>, i: nat)
    requires i < |lines|
    ensures TableAt(lines, i) <==> TableStarts(lines, i)
  {
    if i + 1 < |lines| { SeparatorRowIff(lines[i + 1]); }
  }

  /** The lines from i up to j, and no longer, match the pattern. */
  ghost predicate Run(lines: seq<string>, p: Pattern, i: nat, j: nat)
  {
    && i <= j <= |lines| && (forall k :: i <= k < j ==> Matches(p, Trim(lines[k])))
    && (j < |lines| ==> !Matches(p, Trim(lines[j])))
  }

  /** The lines from i up to j, and no longer, have a bar. */
  ghost predicate BarRun(lines: seq<string>, i: nat, j: nat)
  {
    && i <= j <= |lines| && (forall k :: i <= k < j ==> '|' in Trim(lines[k]))
    && (j < |lines| ==> '|' !in Trim(lines[j]))
  }

  /** Some block other than a paragraph starts here, as the paragraph loop sees it. */
  ghost predicate Interrupts(lines: seq<string>, i: nat)
    requires i < |lines|
  {
    var line := Trim(lines[i]);
    Matches(HEADING_START, line) || Matches(QUOTE, line) || Matches(BULLET, line) || Matches(ORDERED, line)
    || TableAt(lines, i)
  }

  /** The lines from i up to j, and no longer, have text and start no other block. */
  ghost predicate ProseRun(lines: seq<string>, i: nat, j: nat)
  {
    && i <= j <= |lines| && (forall k :: i <= k < j ==> Trim(lines[k]) != "" && !Interrupts(lines, k))
    && (j < |lines| ==> Trim(lines[j]) == "" || Interrupts(lines, j))
  }

  /** The last part of the line as the pattern reads it. */
  ghost predicate LastPart(p: Pattern, line: string, text: string)
    requires p != []
  {
    exists parts :: Reads(p, line, parts) && text == parts[|p| - 1]
  }

  ghost predicate HeadingMeans(line: string, depth: nat, text: string)
  {
    exists parts :: Reads(HEADING, line, parts) && depth == |parts[0]| && text == parts[2]
  }

  /** The text after the bullet; if it is a task, its box and the text after that. */
  ghost predicate ItemMeans(line: string, item: Item)
  {
    exists text :: LastPart(BULLET, line, text) &&
      if Matches(TASK, text) then TaskMeans(text, item) else item == Item(None, text)
  }

  ghost predicate TaskMeans(text: string, item: Item)
  {
    exists parts :: Reads(TASK, text, parts) && item == Item(Some(parts[1] == "x" || parts[1] == "X"), parts[4])
  }

  ghost predicate LastParts(p: Pattern, lines: seq<string>, i: nat, texts: seq<string>)
    requires p != [] && i + |texts| <= |lines|
  {
    forall k :: 0 <= k < |texts| ==> LastPart(p, Trim(lines[i + k]), texts[k])
  }

  ghost predicate ItemsMean(lines: seq<string>, i: nat, items: seq<Item>)
    requires i + |items| <= |lines|
  {
    forall k :: 0 <= k < |items| ==> ItemMeans(Trim(lines[i + k]), items[k])
  }

  ghost predicate RowsOfCells(lines: seq<string>, i: nat, rows: seq<seq<string>>)
    requires i + |rows| <= |lines|
  {
    forall k :: 0 <= k < |rows| ==> Cells(lines[i + k], rows[k])
  }

  ghost predicate TrimmedLines(lines: seq<string>, i: nat, texts: seq<string>)
    requires i + |texts| <= |lines|
  {
    forall k :: 0 <= k < |texts| ==> Trimmed(lines[i + k], texts[k])
  }

  /** Which block it is, which lines it takes, and what it holds. */
  ghost predicate BlockMeans(lines: seq<string>, b: Placed)
    requires b.start < |lines|
  {
    var i, j, line := b.start, b.end, Trim(lines[b.start]);
    match b.block
    case HeadingBlock(depth, text) => j == i + 1 && HeadingMeans(line, depth, text)
    case QuoteBlock(quote) =>
      && !Matches(HEADING, line)
      && Run(lines, QUOTE, i, j) && |quote| == j - i && LastParts(QUOTE, lines, i, quote)
    case TableBlock(headers, rows) =>
      && !Matches(HEADING, line) && !Matches(QUOTE, line) && TableAt(lines, i) && Cells(lines[i], headers)
      && BarRun(lines, i + 2, j) && |rows| == j - (i + 2) && RowsOfCells(lines, i + 2, rows)
    case ListBlock(items) =>
      && !Matches(HEADING, line) && !Matches(QUOTE, line) && !TableAt(lines, i)
      && Matches(BULLET, line) && Run(lines, BULLET, i, j) && |items| == j - i
      && ItemsMean(lines, i, items)
    case OrderedBlock(entries) =>
      && !Matches(HEADING, line) && !Matches(QUOTE, line) && !TableAt(lines, i) && !Matches(BULLET, line)
      && Matches(ORDERED, line) && Run(lines, ORDERED, i, j) && |entries| == j - i
      && LastParts(ORDERED, lines, i, entries)
    case ParagraphBlock(paragraph) =>
      && !Matches(HEADING, line) && !Matches(QUOTE, line) && !TableAt(lines, i) && !Matches(BULLET, line)
      && !Matches(ORDERED, line)
      && ProseRun(lines, i, j) && |paragraph| == j - i && TrimmedLines(lines, i, paragraph)
  }

  lemma BulletTextIsLast(line: string)
    requires BulletLike(line)
    ensures LastPart(BULLET, line, BulletText(line))
  {
    BulletIff(line);
    assert ["-", BulletSpaces(line), BulletText(line)][2] == BulletText(line);
  }

  lemma TaskIs(text: string)
    requires TaskLike(text)
    ensures TaskMeans(text, Item(Some(text[1] != ' '), TaskText(text)))
  {
    TaskRead(text);
    var parts := ["[", [text[1]], "]", TaskSpaces(text), TaskText(text)];
    assert parts[1] == [text[1]] && parts[4] == TaskText(text);
    assert text[1] == ' ' || text[1] == 'x' || text[1] == 'X';
  }

  lemma BulletItemIs(line: string)
    requires BulletLike(line)
    ensures var text := BulletText(line);
      BulletItem(line) == if TaskLike(text) then Item(Some(text[1] != ' '), TaskText(text)) else Item(None, text)
  {
  }

  lemma ItemIs(line: string)
    requires BulletLike(line)
    ensures ItemMeans(line, BulletItem(line))
  {
    var text := BulletText(line);
    BulletTextIsLast(line);
    BulletItemIs(line);
    TaskIff(text);
    if TaskLike(text) { TaskIs(text); }
  }

  lemma QuoteIs(line: string)
    requires QuoteLike(line)
    ensures LastPart(QUOTE, line, QuoteText(line))
  {
    QuoteIff(line);
  }

  lemma EntryIs(line: string)
    requires OrderedLike(line)
    ensures LastPart(ORDERED, line, OrderedText(line))
  {
    OrderedIff(line);
    assert [OrderedDigits(line), ".", OrderedSpaces(line), OrderedText(line)][3] == OrderedText(line);
  }

  // A run of a kind is the run of its pattern.
  lemma RunOf(kind: Kind, lines: seq<string>, p: Pattern, i: nat)
    requires i <= |lines|
    requires forall k {:trigger Continues(kind, lines, k)} :: i <= k < |lines| ==>
      (Matches(p, Trim(lines[k])) <==> Continues(kind, lines, k))
    ensures Run(lines, p, i, RunEnd(kind, lines, i))
  {
    var j := RunEnd(kind, lines, i);
    forall k | i <= k < j ensures Matches(p, Trim(lines[k])) { assert Continues(kind, lines, k); }
  }

  lemma QuoteRun(lines: seq<string>, i: nat)
    requires i <= |lines|
    ensures Run(lines, QUOTE, i, RunEnd(Quoted, lines, i))
  {
    forall k | i <= k < |lines| ensures Matches(QUOTE, Trim(lines[k])) <==> Continues(Quoted, lines, k) {
      QuoteIff(Trim(lines[k]));
    }
    RunOf(Quoted, lines, QUOTE, i);
  }

  lemma BulletRun(lines: seq<string>, i: nat)
    requires i <= |lines|
    ensures Run(lines, BULLET, i, RunEnd(Bullet, lines, i))
  {
    forall k | i <= k < |lines| ensures Matches(BULLET, Trim(lines[k])) <==> Continues(Bullet, lines, k) {
      BulletIff(Trim(lines[k]));
    }
    RunOf(Bullet, lines, BULLET, i);
  }

  lemma OrderedRun(lines: seq<string>, i: nat)
    requires i <= |lines|
    ensures Run(lines, ORDERED, i, RunEnd(Numbered, lines, i))
  {
    forall k | i <= k < |lines| ensures Matches(ORDERED, Trim(lines[k])) <==> Continues(Numbered, lines, k) {
      OrderedIff(Trim(lines[k]));
    }
    RunOf(Numbered, lines, ORDERED, i);
  }

  lemma RowRun(lines: seq<string>, i: nat)
    requires i <= |lines|
    ensures BarRun(lines, i, RunEnd(Row, lines, i))
  {
    var j := RunEnd(Row, lines, i);
    forall k | i <= k < j ensures '|' in Trim(lines[k]) { assert Continues(Row, lines, k); }
  }

  lemma InterruptsIff(lines: seq<string>, i: nat)
    requires i < |lines|
    ensures Interrupts(lines, i) <==> StartsBlock(lines, i)
  {
    var line := Trim(lines[i]);
    HeadingStartIff(line);
    QuoteIff(line);
    BulletIff(line);
    OrderedIff(line);
    TableAtIff(lines, i);
  }

  lemma ProseRunIs(lines: seq<string>, i: nat)
    requires i <= |lines|
    ensures ProseRun(lines, i, RunEnd(Prose, lines, i))
  {
    var j := RunEnd(Prose, lines, i);
    forall k | i <= k < j ensures Trim(lines[k]) != "" && !Interrupts(lines, k) {
      assert Continues(Prose, lines, k);
      InterruptsIff(lines, k);
    }
    if j < |lines| { InterruptsIff(lines, j); }
  }

  lemma QuoteBlockMeans(lines: seq<string>, i: nat)
    requires i < |lines| && Trim(lines[i]) != "" && !Heading(Trim(lines[i])) && QuoteLike(Trim(lines[i]))
    ensures BlockAt(lines, i).start == i && BlockMeans(lines, BlockAt(lines, i))
  {
    var j := RunEnd(Quoted, lines, i);
    HeadingIff(lines[i]);
    QuoteRun(lines, i);
    QuoteTexts(lines, i, j);
  }

  lemma QuoteTexts(lines: seq<string>, i: nat, j: nat)
    requires i <= j <= |lines| && forall k :: i <= k < j ==> Continues(Quoted, lines, k)
    ensures LastParts(QUOTE, lines, i, Quotes(lines, i, j))
  {
    forall k | 0 <= k < j - i ensures LastPart(QUOTE, Trim(lines[i + k]), Quotes(lines, i, j)[k]) {
      assert Continues(Quoted, lines, i + k);
      QuoteIs(Trim(lines[i + k]));
    }
  }

  lemma TableBlockMeans(lines: seq<string>, i: nat)
    requires i < |lines| && Trim(lines[i]) != "" && !Heading(Trim(lines[i])) && !QuoteLike(Trim(lines[i]))
    requires TableStarts(lines, i)
    ensures BlockAt(lines, i).start == i && BlockMeans(lines, BlockAt(lines, i))
  {
    var j := RunEnd(Row, lines, i + 2);
    HeadingIff(lines[i]);
    QuoteIff(Trim(lines[i]));
    TableAtIff(lines, i);
    RowHasCells(lines[i]);
    RowRun(lines, i + 2);
    RowCells(lines, i + 2, j);
  }

  lemma RowCells(lines: seq<string>, i: nat, j: nat)
    requires i <= j <= |lines|
    ensures RowsOfCells(lines, i, Markdown.Rows(lines, i, j))
  {
    var rows := Markdown.Rows(lines, i, j);
    forall k | 0 <= k < |rows| ensures Cells(lines[i + k], rows[k]) { RowHasCells(lines[i + k]); }
  }

  /** Neither heading, quote nor table. */
  predicate Listed(lines: seq<string>, i: nat)
    requires i < |lines|
  {
    Trim(lines[i]) != "" && !Heading(Trim(lines[i])) && !QuoteLike(Trim(lines[i])) && !TableStarts(lines, i)
  }

  lemma ListedMeans(lines: seq<string>, i: nat)
    requires i < |lines| && Listed(lines, i)
    ensures !Matches(HEADING, Trim(lines[i])) && !Matches(QUOTE, Trim(lines[i])) && !TableAt(lines, i)
  {
    HeadingIff(lines[i]);
    QuoteIff(Trim(lines[i]));
    TableAtIff(lines, i);
  }

  lemma ListBlockMeans(lines: seq<string>, i: nat)
    requires i < |lines| && Listed(lines, i) && BulletLike(Trim(lines[i]))
    ensures BlockAt(lines, i).start == i && BlockMeans(lines, BlockAt(lines, i))
  {
    var j := RunEnd(Bullet, lines, i);
    ListedMeans(lines, i);
    BulletIff(Trim(lines[i]));
    BulletRun(lines, i);
    ListItems(lines, i, j);
  }

  lemma ItemAt(lines: seq<string>, i: nat, j: nat, k: nat)
    requires i <= j <= |lines| && (forall k :: i <= k < j ==> Continues(Bullet, lines, k)) && k < j - i
    ensures BulletLike(Trim(lines[i + k])) && Items(lines, i, j)[k] == BulletItem(Trim(lines[i + k]))
  {
    assert Continues(Bullet, lines, i + k);
  }

  lemma ListItems(lines: seq<string>, i: nat, j: nat)
    requires i <= j <= |lines| && forall k :: i <= k < j ==> Continues(Bullet, lines, k)
    ensures ItemsMean(lines, i, Items(lines, i, j))
  {
    var items := Items(lines, i, j);
    forall k | 0 <= k < |items| ensures ItemMeans(Trim(lines[i + k]), items[k]) {
      ItemAt(lines, i, j, k);
      ItemIs(Trim(lines[i + k]));
    }
  }

  lemma OrderedBlockMeans(lines: seq<string>, i: nat)
    requires i < |lines| && Listed(lines, i) && !BulletLike(Trim(lines[i])) && OrderedLike(Trim(lines[i]))
    ensures BlockAt(lines, i).start == i && BlockMeans(lines, BlockAt(lines, i))
  {
    var j := RunEnd(Numbered, lines, i);
    ListedMeans(lines, i);
    BulletIff(Trim(lines[i]));
    OrderedIff(Trim(lines[i]));
    OrderedRun(lines, i);
    OrderedTexts(lines, i, j);
  }

  lemma EntryAt(lines: seq<string>, i: nat, j: nat, k: nat)
    requires i <= j <= |lines| && (forall k :: i <= k < j ==> Continues(Numbered, lines, k)) && k < j - i
    ensures OrderedLike(Trim(lines[i + k])) && Entries(lines, i, j)[k] == OrderedText(Trim(lines[i + k]))
  {
    assert Continues(Numbered, lines, i + k);
  }

  lemma OrderedTexts(lines: seq<string>, i: nat, j: nat)
    requires i <= j <= |lines| && forall k :: i <= k < j ==> Continues(Numbered, lines, k)
    ensures LastParts(ORDERED, lines, i, Entries(lines, i, j))
  {
    var texts := Entries(lines, i, j);
    forall k | 0 <= k < |texts| ensures LastPart(ORDERED, Trim(lines[i + k]), texts[k]) {
      EntryAt(lines, i, j, k);
      EntryIs(Trim(lines[i + k]));
    }
  }

  lemma ParagraphBlockMeans(lines: seq<string>, i: nat)
    requires i < |lines| && Listed(lines, i) && !BulletLike(Trim(lines[i])) && !OrderedLike(Trim(lines[i]))
    ensures BlockAt(lines, i).start == i && BlockMeans(lines, BlockAt(lines, i))
  {
    ListedMeans(lines, i);
    BulletIff(Trim(lines[i]));
    OrderedIff(Trim(lines[i]));
    ProseRunIs(lines, i);
    ParagraphTexts(lines, i, RunEnd(Prose, lines, i));
  }

  lemma ParagraphTexts(lines: seq<string>, i: nat, j: nat)
    requires i <= j <= |lines|
    ensures TrimmedLines(lines, i, Paragraph(lines, i, j))
  {
    var texts := Paragraph(lines, i, j);
    forall k | 0 <= k < |texts| ensures Trimmed(lines[i + k], texts[k]) { TrimIff(lines[i + k], texts[k]); }
  }

  /** Which pattern a line matches decides its block, in this order. */
  lemma BlockAtMeans(lines: seq<string>, i: nat)
    requires i < |lines| && Trim(lines[i]) != ""
    ensures BlockAt(lines, i).start == i && BlockMeans(lines, BlockAt(lines, i))
  {
    var line := Trim(lines[i]);
    if Heading(line) { HeadingIs(lines[i]); }
    else if QuoteLike(line) { QuoteBlockMeans(lines, i); }
    else if TableStarts(lines, i) { TableBlockMeans(lines, i); }
    else if BulletLike(line) { ListBlockMeans(lines, i); }
    else if OrderedLike(line) { OrderedBlockMeans(lines, i); }
    else { ParagraphBlockMeans(lines, i); }
  }

  lemma HeadingIs(s: string)
    requires Heading(Trim(s))
    ensures HeadingMeans(Trim(s), Hashes(Trim(s)), HeadingText(Trim(s)))
  {
    var line := Trim(s);
    HeadingIff(s);
    var parts := [HeadingMarks(line), HeadingSpaces(line), HeadingText(line)];
    assert Reads(HEADING, line, parts) && |parts[0]| == Hashes(line) && parts[2] == HeadingText(line);
  }

  /** Every block of a scanned document. */
  lemma BlocksMean(lines: seq<string>, n: nat)
    requires Halts(lines, 0) && n < |Blocks(lines, 0)|
    ensures var b := Blocks(lines, 0)[n]; b.start < |lines| && Trim(lines[b.start]) != "" && BlockMeans(lines, b)
  {
    BlocksAreBlockAt(lines, 0, n);
    BlockAtMeans(lines, Blocks(lines, 0)[n].start);
  }

  // ---- Lines ----

  /** The text begins with this line and this line end. */
  predicate EndsWith(content: string, line: string, end: string)
  {
    && (end == "\n" || end == "\r\n") && (line + end) <= content
    && (end == "\n" ==> line == "" || line[|line| - 1] != '\r')
  }

  /** The lines of the document in order, each ended by \n or \r\n; \r before \n belongs to the end. */
  ghost predicate LinesOf(content: string, lines: seq<string>)
    decreases |lines|
  {
    && lines != [] && '\n' !in lines[0]
    && if |lines| == 1 then content == lines[0] && '\n' !in content else
         exists end :: EndsWith(content, lines[0], end) && LinesOf(content[|lines[0] + end|..], lines[1..])
  }

  lemma EndsLater(content: string, line: string, end: string)
    requires content != "" && !("\r\n" <= content) && EndsWith(content[1..], line, end)
    ensures EndsWith(content, [content[0]] + line, end)
    ensures content[|[content[0]] + line + end|..] == content[1..][|line + end|..]
  {
    assert [content[0]] + line + end == [content[0]] + (line + end) && content == [content[0]] + content[1..];
    if end == "\n" && line == "" { assert content[1] == (line + end)[0] == '\n' && content[0] != '\r'; }
  }

  lemma OneMoreCharacter(content: string, rest: seq<string>)
    requires content != "" && content[0] != '\n' && !("\r\n" <= content) && LinesOf(content[1..], rest)
    ensures LinesOf(content, [[content[0]] + rest[0]] + rest[1..])
  {
    var lines := [[content[0]] + rest[0]] + rest[1..];
    assert content == [content[0]] + content[1..] && lines[1..] == rest[1..];
    if |rest| > 1 {
      var end :| EndsWith(content[1..], rest[0], end) && LinesOf(content[1..][|rest[0] + end|..], rest[1..]);
      EndsLater(content, rest[0], end);
      assert EndsWith(content, lines[0], end);
    }
  }

  /** The scanner's lines are the lines of the document. */
  lemma {:induction false} LinesAreLines(content: string)
    ensures LinesOf(content, Lines(content))
    decreases |content|
  {
    if content == "" {
    } else if "\r\n" <= content {
      LinesAreLines(content[2..]);
      EmptyFirst(content, "\r\n");
    } else if content[0] == '\n' {
      LinesAreLines(content[1..]);
      EmptyFirst(content, "\n");
    } else {
      var rest := Lines(content[1..]);
      LinesAreLines(content[1..]);
      assert ToLineFeeds(content) == [content[0]] + ToLineFeeds(content[1..]);
      assert ToLineFeeds(content)[1..] == ToLineFeeds(content[1..]);
      OneMoreCharacter(content, rest);
    }
  }

  lemma EmptyFirst(content: string, end: string)
    requires (end == "\r\n" || (end == "\n" && !("\r\n" <= content))) && end <= content
    requires LinesOf(content[|end|..], Lines(content[|end|..]))
    ensures LinesOf(content, Lines(content))
  {
    var more := ToLineFeeds(content[|end|..]);
    assert ToLineFeeds(content) == "\n" + more && ("\n" + more)[1..] == more;
    assert Lines(content) == [""] + Lines(content[|end|..]);
    assert "" + end == end && Lines(content)[1..] == Lines(content[|end|..]);
    assert EndsWith(content, "", end);
  }
}
