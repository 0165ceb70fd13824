/** The sha256sum-compatible subject file: its deterministic writer and its strict parser. */
module Checksums {
  import opened Text
  import opened CanonicalJson
  import opened Outcome
  import opened Evidence
  import opened Paths

  /** A subject row, keyed by path. */
  type Row = (string, string)

  // ---- str.splitlines ----

  predicate LineBreak(c: char)
  {
    var n := c as int;
    (10 <= n <= 13) || (28 <= n <= 30) || n == 0x85 || n == 0x2028 || n == 0x2029
  }

  predicate OneLine(s: string) { forall c | c in s :: !LineBreak(c) }

  /** The length of the first line, without its terminator. */
  function FirstLine(s: string): (n: nat)
    ensures n <= |s| && (n < |s| ==> LineBreak(s[n])) && OneLine(s[..n])
  {
    if s == "" || LineBreak(s[0]) then 0
    else
      var n := 1 + FirstLine(s[1..]);
      assert s[..n] == [s[0]] + s[1..][..n - 1];
      n
  }

  function SplitLines(s: string): (lines: seq<string>)
    ensures forall l :: l in lines ==> OneLine(l)
    decreases |s|
  {
    if s == "" then []
    else
      var n := FirstLine(s);
      if n == |s| then [s]
      else
        var next := if s[n] == '\r' && n + 1 < |s| && s[n + 1] == '\n' then n + 2 else n + 1;
        [s[..n]] + SplitLines(s[next..])
  }

  // ---- The writer ----

  function ReadRecord(record: Document): Result<Row>
  {
    var digest, path := Get(record, "sha256"), Get(record, "path");
    var _ :- Require(digest.Str? && path.Str?, "malformed subject record");
    var _ :- SafeRelativePath(path.text);
    Ok((path.text, digest.text))
  }

  function ReadRecords(records: seq<Document>): Result<seq<Row>>
  {
    if records == [] then Ok([])
    else
      var row :- ReadRecord(records[0]);
      var rest :- ReadRecords(records[1..]);
      Ok([row] + rest)
  }

  function RowText(row: Row): string
  {
    row.1 + "  " + row.0 + "\n"
  }

  function RowsText(rows: seq<Row>): string
  {
    if rows == [] then "" else RowText(rows[0]) + RowsText(rows[1..])
  }

  function ChecksumText(records: seq<Document>, provenance: Row): Result<string>
  {
    var rows :- ReadRecords(records);
    Ok(RowsText(Sort(rows + [provenance])))
  }

  lemma ReadRecordsStep(records: seq<Document>, i: nat)
    requires i < |records|
    ensures ReadRecords(records[i..]) ==
      (if ReadRecord(records[i]).Err? then Err(ReadRecord(records[i]).reason)
       else Prepend([ReadRecord(records[i]).value], ReadRecords(records[i + 1..])))
  {
    assert records[i..][1..] == records[i + 1..];
  }

  method CollectRows(records: seq<Document>) returns (r: Result<seq<Row>>)
    ensures r == ReadRecords(records)
  {
    var rows: seq<Row> := [];
    assert records[0..] == records;
    PrependEnds(rows, ReadRecords(records));
    for i := 0 to |records|
      invariant Prepend(rows, ReadRecords(records[i..])) == ReadRecords(records)
    {
      ReadRecordsStep(records, i);
      var row := ReadRecord(records[i]);
      if row.Err? { return Err(row.reason); }
      PrependMore(rows, row.value, ReadRecords(records[i + 1..]));
      rows := rows + [row.value];
    }
    PrependEnds(rows, Ok([]));
    return Ok(rows);
  }

  method RenderRows(rows: seq<Row>) returns (out: string)
    ensures out == RowsText(rows)
  {
    out := "";
    assert rows[0..] == rows;
    for i := 0 to |rows|
      invariant out + RowsText(rows[i..]) == RowsText(rows)
    {
      assert rows[i..][1..] == rows[i + 1..];
      assert out + (RowText(rows[i]) + RowsText(rows[i + 1..])) == (out + RowText(rows[i])) + RowsText(rows[i + 1..]);
      out := out + RowText(rows[i]);
    }
  }

  method BuildChecksums(records: seq<Document>, provenance: Row) returns (text: Result<string>)
    ensures text == ChecksumText(records, provenance)
  {
    var rows := CollectRows(records);
    if rows.Err? { return Err(rows.reason); }
    var out := RenderRows(Sort(rows.value + [provenance]));
    return Ok(out);
  }

  // ---- The parser ----

  /** The position of the first "  ", or the length of the line. */
  function Gap(line: string): (n: nat)
    ensures n <= |line|
    ensures n < |line| ==> n + 1 < |line| && line[n] == ' ' && line[n + 1] == ' '
    ensures n < |line| ==> forall i :: 0 <= i < n ==> !(line[i] == ' ' && line[i + 1] == ' ')
  {
    if line == "" then 0
    else if |line| >= 2 && line[0] == ' ' && line[1] == ' ' then 0
    else 1 + Gap(line[1..])
  }

  function ParseLine(line: string): Result<Row>
  {
    var n := Gap(line);
    var _ :- Require(n < |line|, "malformed release subject checksum line");
    var digest, path := line[..n], line[n + 2..];
    var _ :- Require(Hex64(digest), "malformed SHA-256 in checksum line");
    var _ :- SafeRelativePath(path);
    Ok((path, digest))
  }

  function ParseLines(lines: seq<string>, seen: set<string>): Result<seq<Row>>
  {
    if lines == [] then Ok([])
    else if lines[0] == "" then ParseLines(lines[1..], seen)
    else
      var row :- ParseLine(lines[0]);
      var _ :- Require(row.0 !in seen, "duplicate subject path");
      var rest :- ParseLines(lines[1..], seen + {row.0});
      Ok([row] + rest)
  }

  function Parse(text: string): Result<seq<Row>>
  {
    ParseLines(SplitLines(text), {})
  }

  lemma ParseLinesStep(lines: seq<string>, i: nat, seen: set<string>)
    requires i < |lines|
    ensures ParseLines(lines[i..], seen) ==
      (if lines[i] == "" then ParseLines(lines[i + 1..], seen)
       else if ParseLine(lines[i]).Err? then Err(ParseLine(lines[i]).reason)
       else if ParseLine(lines[i]).value.0 in seen then Err("duplicate subject path")
       else Prepend([ParseLine(lines[i]).value],
                      ParseLines(lines[i + 1..], seen + {ParseLine(lines[i]).value.0})))
  {
    assert lines[i..][1..] == lines[i + 1..];
  }

  method ParseChecksums(text: string) returns (r: Result<seq<Row>>)
    ensures r == Parse(text)
  {
    var lines := SplitLines(text);
    var rows: seq<Row>, seen: set<string> := [], {};
    assert lines[0..] == lines;
    PrependEnds(rows, Parse(text));
    for i := 0 to |lines|
      invariant Prepend(rows, ParseLines(lines[i..], seen)) == Parse(text)
    {
      ParseLinesStep(lines, i, seen);
      if lines[i] != "" {
        var row := ParseLine(lines[i]);
        if row.Err? { return Err(row.reason); }
        var path := row.value.0;
        if path in seen { return Err("duplicate subject path"); }
        seen := seen + {path};
        PrependMore(rows, row.value, ParseLines(lines[i + 1..], seen));
        rows := rows + [row.value];
      }
    }
    PrependEnds(rows, Ok([]));
    return Ok(rows);
  }

  // ---- What is parsed, and what is written ----

  function NonBlank(lines: seq<string>): seq<string>
  {
    if lines == [] then [] else (if lines[0] == "" then [] else [lines[0]]) + NonBlank(lines[1..])
  }

  /** Line by line: the digest, two spaces, the path. */
  predicate Lists(lines: seq<string>, rows: seq<Row>)
  {
    |lines| == |rows| && forall i :: 0 <= i < |rows| ==> lines[i] == rows[i].1 + "  " + rows[i].0
  }

  predicate RowParses(row: Row, seen: set<string>)
  {
    Hex64(row.1) && SafeRelativePath(row.0).Ok? && row.0 !in seen
  }

  /** And all digests are digests, all paths are safe, and no path is seen twice. */
  ghost predicate ListsNew(lines: seq<string>, rows: seq<Row>, seen: set<string>)
  {
    Lists(lines, rows) && DistinctKeys(rows) && forall i :: 0 <= i < |rows| ==> RowParses(rows[i], seen)
  }

  lemma ParsesLineIff(line: string, row: Row)
    ensures ParseLine(line) == Ok(row) <==> line == row.1 + "  " + row.0 && Hex64(row.1) && SafeRelativePath(row.0).Ok?
  {
    if line == row.1 + "  " + row.0 && Hex64(row.1) {
      HexHasNoGap(row.1, row.0);
      assert line[..64] == row.1 && line[66..] == row.0;
    }
    if ParseLine(line) == Ok(row) {
      var n := Gap(line);
      assert line == line[..n] + [line[n], line[n + 1]] + line[n + 2..];
    }
  }

  lemma ParsesFirst(lines: seq<string>, seen: set<string>, rows: seq<Row>)
    requires lines != [] && lines[0] != "" && rows != []
    ensures ParseLines(lines, seen) == Ok(rows) <==>
      && ParseLine(lines[0]) == Ok(rows[0]) && rows[0].0 !in seen
      && ParseLines(lines[1..], seen + {rows[0].0}) == Ok(rows[1..])
  {
    assert rows == [rows[0]] + rows[1..];
  }

  /** The parser reads these rows exactly when the lines that are not blank list them in order, with
      digests, safe paths and no path twice. */
  lemma {:induction false} ParsesIff(lines: seq<string>, seen: set<string>, rows: seq<Row>)
    ensures ParseLines(lines, seen) == Ok(rows) <==> ListsNew(NonBlank(lines), rows, seen)
    decreases |lines|
  {
    if lines == [] {
    } else if lines[0] == "" {
      ParsesIff(lines[1..], seen, rows);
    } else if rows != [] {
      ParsesFirst(lines, seen, rows);
      ParsesLineIff(lines[0], rows[0]);
      ParsesIff(lines[1..], seen + {rows[0].0}, rows[1..]);
      FirstRowIff(lines[0], NonBlank(lines[1..]), rows, seen);
    }
  }

  lemma FirstRowIff(line: string, lines: seq<string>, rows: seq<Row>, seen: set<string>)
    requires rows != []
    ensures ListsNew([line] + lines, rows, seen) <==>
      && line == rows[0].1 + "  " + rows[0].0 && RowParses(rows[0], seen)
      && ListsNew(lines, rows[1..], seen + {rows[0].0})
  {
    assert forall i :: 0 < i < |rows| ==> rows[i] == rows[1..][i - 1];
    assert forall i :: 0 < i < |rows| && |lines| == |rows| - 1 ==> ([line] + lines)[i] == lines[i - 1];
  }

  lemma {:induction false} TextLists(rows: seq<Row>)
    requires forall row :: row in rows ==> OneLine(row.0) && OneLine(row.1)
    ensures Lists(SplitLines(RowsText(rows)), rows)
  {
    if rows != [] {
      var line, rest := rows[0].1 + "  " + rows[0].0, RowsText(rows[1..]);
      assert rows[0] in rows && RowsText(rows) == line + "\n" + rest;
      assert OneLine(line);
      SplitOneLine(line, rest);
      TextLists(rows[1..]);
    }
  }

  lemma {:induction false} RecordsAreRead(records: seq<Document>, i: nat)
    requires ReadRecords(records).Ok? && i < |records|
    ensures |ReadRecords(records).value| == |records|
    ensures Get(records[i], "path") == Str(ReadRecords(records).value[i].0)
    ensures Get(records[i], "sha256") == Str(ReadRecords(records).value[i].1)
  {
    if |records| > 1 { RecordsAreRead(records[1..], if i == 0 then 0 else i - 1); }
  }

  /** The text has a line for the provenance document and one for each record, with its digest and
      its path, ascending by path, and no other. */
  lemma ChecksumTextMeans(records: seq<Document>, provenance: Row) returns (rows: seq<Row>)
    requires ChecksumText(records, provenance).Ok?
    requires forall row :: row in ReadRecords(records).value + [provenance] ==> OneLine(row.0) && OneLine(row.1)
    ensures |rows| == |records| + 1 && Lists(SplitLines(ChecksumText(records, provenance).value), rows)
    ensures Sorted(rows) && provenance in rows
    ensures forall i :: 0 <= i < |records| ==> RowOf(records[i], rows)
  {
    var unsorted := ReadRecords(records).value + [provenance];
    rows := Sort(unsorted);
    SortPermutes(unsorted);
    SortSorts(unsorted);
    SameElements(unsorted, rows);
    TextLists(rows);
    if records != [] { RecordsAreRead(records, 0); }
    forall i | 0 <= i < |records| ensures RowOf(records[i], rows) {
      RecordsAreRead(records, i);
      assert unsorted[i] in rows;
    }
  }

  predicate RowOf(record: Document, rows: seq<Row>)
  {
    && Get(record, "path").Str? && Get(record, "sha256").Str?
    && (Get(record, "path").text, Get(record, "sha256").text) in rows
  }

  lemma SameElements<T>(a: seq<T>, b: seq<T>)
    requires multiset(a) == multiset(b)
    ensures forall x :: x in a <==> x in b
  {
    assert forall x :: x in a <==> x in multiset(a);
    assert forall x :: x in b <==> x in multiset(b);
  }

  // ---- The round trip ----

  predicate RowOk(row: Row)
  {
    OneLine(row.0) && Hex64(row.1) && SafeRelativePath(row.0).Ok?
  }

  ghost predicate RowsOk(rows: seq<Row>)
  {
    forall row :: row in rows ==> RowOk(row)
  }

  lemma HexHasNoGap(digest: string, rest: string)
    requires forall i :: 0 <= i < |digest| ==> IsHex(digest[i])
    ensures Gap(digest + "  " + rest) == |digest|
    decreases |digest|
  {
    var line := digest + "  " + rest;
    if digest != "" {
      assert line[1..] == digest[1..] + "  " + rest;
      HexHasNoGap(digest[1..], rest);
    }
  }

  lemma ParseRowLine(row: Row)
    requires RowOk(row)
    ensures ParseLine(row.1 + "  " + row.0) == Ok(row)
    ensures OneLine(row.1 + "  " + row.0)
  {
    var line := row.1 + "  " + row.0;
    HexHasNoGap(row.1, row.0);
    assert line[..64] == row.1 && line[66..] == row.0;
    assert forall c | c in row.1 :: IsHex(c);
  }

  lemma {:induction false} FirstLineOf(line: string, rest: string)
    requires OneLine(line)
    ensures FirstLine(line + "\n" + rest) == |line|
  {
    if line != "" {
      assert (line + "\n" + rest)[1..] == line[1..] + "\n" + rest;
      assert line[0] in line;
      FirstLineOf(line[1..], rest);
    }
  }

  lemma SplitOneLine(line: string, rest: string)
    requires OneLine(line)
    ensures SplitLines(line + "\n" + rest) == [line] + SplitLines(rest)
  {
    var s := line + "\n" + rest;
    FirstLineOf(line, rest);
    assert s[..|line|] == line && s[|line| + 1..] == rest;
  }

  lemma {:induction false} ParseRowsText(rows: seq<Row>, seen: set<string>)
    requires RowsOk(rows) && DistinctKeys(rows) && forall row :: row in rows ==> row.0 !in seen
    ensures ParseLines(SplitLines(RowsText(rows)), seen) == Ok(rows)
  {
    if rows != [] {
      var row, rest := rows[0], RowsText(rows[1..]);
      var line := row.1 + "  " + row.0;
      assert row in rows;
      ParseRowLine(row);
      assert RowsText(rows) == line + "\n" + rest;
      SplitOneLine(line, rest);
      assert line != "";
      ParseRowsText(rows[1..], seen + {row.0});
      assert (([line] + SplitLines(rest))[1..]) == SplitLines(rest);
      assert rows == [row] + rows[1..];
    }
  }

  /** Whatever the parser accepts has 64-hex digests and distinct, safe, one-line paths. */
  lemma {:induction false} ParsedRowsAreSound(lines: seq<string>, seen: set<string>)
    requires forall l :: l in lines ==> OneLine(l)
    requires ParseLines(lines, seen).Ok?
    ensures var rows := ParseLines(lines, seen).value;
      RowsOk(rows) && DistinctKeys(rows) && forall row :: row in rows ==> row.0 !in seen
  {
    if lines != [] {
      if lines[0] == "" {
        ParsedRowsAreSound(lines[1..], seen);
      } else {
        var row := ParseLine(lines[0]).value;
        ParsedRowsAreSound(lines[1..], seen + {row.0});
        assert OneLine(lines[0]);
        assert RowOk(row);
      }
    }
  }

  /** The parser recovers the path-sorted rows, provenance row included, exactly when every
      digest is 64-hex and the paths are distinct, safe and free of line breaks. */
  lemma ChecksumRoundTrip(records: seq<Document>, provenance: Row)
    requires ChecksumText(records, provenance).Ok?
    ensures var rows := ReadRecords(records).value + [provenance];
      Parse(ChecksumText(records, provenance).value) == Ok(Sort(rows)) <==> RowsOk(rows) && DistinctKeys(rows)
  {
    var rows := ReadRecords(records).value + [provenance];
    var sorted := Sort(rows);
    SortPermutes(rows);
    SameRows(rows, sorted);
    if RowsOk(rows) && DistinctKeys(rows) {
      PermutationKeepsDistinctKeys(rows, sorted);
      ParseRowsText(sorted, {});
    }
    if Parse(RowsText(sorted)) == Ok(sorted) {
      ParsedRowsAreSound(SplitLines(RowsText(sorted)), {});
      PermutationKeepsDistinctKeys(sorted, rows);
    }
  }

  lemma SameRows(a: seq<Row>, b: seq<Row>)
    requires multiset(a) == multiset(b)
    ensures RowsOk(a) <==> RowsOk(b)
  {
    assert forall row :: row in a <==> row in multiset(a);
    assert forall row :: row in b <==> row in multiset(b);
  }

  /** The text does not depend on the order of the records. */
  lemma ChecksumTextIgnoresOrder(a: seq<Document>, b: seq<Document>, provenance: Row)
    requires ReadRecords(a).Ok? && ReadRecords(b).Ok?
    requires multiset(ReadRecords(a).value) == multiset(ReadRecords(b).value)
    requires DistinctKeys(ReadRecords(a).value + [provenance])
    ensures ChecksumText(a, provenance) == ChecksumText(b, provenance)
  {
    SortIgnoresOrder(ReadRecords(a).value + [provenance], ReadRecords(b).value + [provenance]);
  }
}
