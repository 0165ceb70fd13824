/** File names as git prints them, one to a line, and as the tooling reads the lines back.
    No command passes -z or turns core.quotePath off, so an unusual name is printed quoted. */
module GitNames {

  // ---- Printing ----

  /** Printed as it is: printable ASCII, but not the quote and the backslash. */
  predicate PlainChar(c: char)
  {
    32 <= c as int < 127 && c != '"' && c != '\\'
  }

  predicate PlainName(path: string)
  {
    forall c | c in path :: PlainChar(c)
  }

  /** The UTF-8 bytes of a code point (section 3 of RFC 3629). */
  function Utf8(n: nat): seq<nat>
  {
    if n < 0x80 then [n]
    else if n < 0x800 then [0xC0 + n / 0x40, 0x80 + n % 0x40]
    else if n < 0x1_0000 then [0xE0 + n / 0x1000, 0x80 + n / 0x40 % 0x40, 0x80 + n % 0x40]
    else [0xF0 + n / 0x4_0000, 0x80 + n / 0x1000 % 0x40, 0x80 + n / 0x40 % 0x40, 0x80 + n % 0x40]
  }

  function OctalDigit(n: nat): char
  {
    '0' + (n % 8) as char
  }

  /** A backslash and three octal digits. */
  function Octal(b: nat): string
  {
    ['\\', OctalDigit(b / 64), OctalDigit(b / 8), OctalDigit(b)]
  }

  function Octals(bytes: seq<nat>): string
  {
    if bytes == [] then "" else Octal(bytes[0]) + Octals(bytes[1..])
  }

  function QuotedChar(c: char): string
  {
    if PlainChar(c) then [c]
    else if c == '"' then "\\\""
    else if c == '\\' then "\\\\"
    else if c as int == 7 then "\\a"
    else if c as int == 8 then "\\b"
    else if c == '\t' then "\\t"
    else if c == '\n' then "\\n"
    else if c as int == 11 then "\\v"
    else if c as int == 12 then "\\f"
    else if c == '\r' then "\\r"
    else Octals(Utf8(c as nat))
  }

  function QuotedChars(path: string): string
  {
    if path == "" then "" else QuotedChar(path[0]) + QuotedChars(path[1..])
  }

  /** The line git prints for a path. */
  function Printed(path: string): string
  {
    if PlainName(path) then path else "\"" + QuotedChars(path) + "\""
  }

  /** The bytes spell the code point, in the shortest form: a lead byte that says how many follow, and
      six bits in each of these. */
  predicate SpellsUtf8(bytes: seq<nat>, n: nat)
  {
    && (forall i :: 0 < i < |bytes| ==> 0x80 <= bytes[i] < 0xC0)
    && match |bytes|
       case 1 => bytes[0] < 0x80 && n == bytes[0]
       case 2 => 0xC0 <= bytes[0] < 0xE0 && n == (bytes[0] - 0xC0) * 0x40 + (bytes[1] - 0x80) && n >= 0x80
       case 3 =>
         && 0xE0 <= bytes[0] < 0xF0 && n >= 0x800
         && n == (bytes[0] - 0xE0) * 0x1000 + (bytes[1] - 0x80) * 0x40 + (bytes[2] - 0x80)
       case 4 =>
         && 0xF0 <= bytes[0] < 0xF8 && n >= 0x1_0000
         && n == (bytes[0] - 0xF0) * 0x4_0000 + (bytes[1] - 0x80) * 0x1000 + (bytes[2] - 0x80) * 0x40
                 + (bytes[3] - 0x80)
       case _ => false
  }

  lemma Utf8Spells(c: char)
    ensures SpellsUtf8(Utf8(c as nat), c as nat)
  {
    var n := c as nat;
    assert n / 0x1000 == n / 0x40 / 0x40 && n / 0x4_0000 == n / 0x1000 / 0x40;
  }

  /** A backslash and the byte in three octal digits. */
  predicate SpellsByte(e: string, b: nat)
  {
    && |e| == 4 && e[0] == '\\' && (forall i :: 0 < i < 4 ==> '0' <= e[i] <= '7')
    && b == 64 * (e[1] - '0') as nat + 8 * (e[2] - '0') as nat + (e[3] - '0') as nat
  }

  lemma OctalSpells(b: nat)
    requires b < 256
    ensures SpellsByte(Octal(b), b)
  {
  }

  /** The characters that have an escape of one letter, and the letter. */
  const LETTERS := map['"' := '"', '\\' := '\\', 7 as char := 'a', 8 as char := 'b', '\t' := 't', '\n' := 'n',
                       11 as char := 'v', 12 as char := 'f', '\r' := 'r']

  /** How git prints one character inside quotes: itself, an escape, or its bytes in octal. */
  ghost predicate SpellsQuoted(e: string, c: char)
  {
    if c in LETTERS then e == ['\\', LETTERS[c]]
    else if ' ' <= c <= '~' then e == [c]
    else exists bytes :: SpellsUtf8(bytes, c as nat) && SpellsBytes(e, bytes)
  }

  ghost predicate SpellsBytes(e: string, bytes: seq<nat>)
  {
    |e| == 4 * |bytes| && forall i :: 0 <= i < |bytes| ==> SpellsByte(e[4 * i..4 * i + 4], bytes[i])
  }

  lemma {:induction false} OctalsSpell(bytes: seq<nat>)
    requires forall i :: 0 <= i < |bytes| ==> bytes[i] < 256
    ensures SpellsBytes(Octals(bytes), bytes)
  {
    if bytes != [] {
      OctalSpells(bytes[0]);
      OctalsSpell(bytes[1..]);
      var rest := Octals(bytes[1..]);
      forall i | 0 <= i < |bytes| ensures SpellsByte(Octals(bytes)[4 * i..4 * i + 4], bytes[i]) {
        if i > 0 { assert Octals(bytes)[4 * i..4 * i + 4] == rest[4 * (i - 1)..4 * (i - 1) + 4]; }
      }
    }
  }

  lemma QuotedCharSpells(c: char)
    ensures SpellsQuoted(QuotedChar(c), c)
  {
    if c !in LETTERS && !(' ' <= c <= '~') {
      Utf8Spells(c);
      OctalsSpell(Utf8(c as nat));
    }
  }

  /** Inside the quotes each character is spelled in turn. */
  ghost predicate SpellsPath(text: string, path: string)
    decreases |path|
  {
    if path == "" then text == ""
    else exists n: nat :: n <= |text| && SpellsQuoted(text[..n], path[0]) && SpellsPath(text[n..], path[1..])
  }

  lemma {:induction false} QuotedCharsSpell(path: string)
    ensures SpellsPath(QuotedChars(path), path)
  {
    if path != "" {
      var e, text := QuotedChar(path[0]), QuotedChars(path);
      QuotedCharSpells(path[0]);
      QuotedCharsSpell(path[1..]);
      assert text[..|e|] == e && text[|e|..] == QuotedChars(path[1..]);
    }
  }

  /** A path is printed as it is exactly when all its characters are printable ASCII other than the
      quote and the backslash; otherwise in quotes, character by character. */
  lemma PrintedIs(path: string)
    ensures Printed(path) == path <==> forall c | c in path :: ' ' <= c <= '~' && c != '"' && c != '\\'
    ensures Printed(path) == path || exists text :: Printed(path) == "\"" + text + "\"" && SpellsPath(text, path)
  {
    QuotedCharsSpell(path);
    if !PlainName(path) { QuotedCharsGrow(path); }
  }

  lemma QuotedCharGrows(c: char)
    ensures |QuotedChar(c)| >= 1
  {
    if !PlainChar(c) { assert |Utf8(c as nat)| >= 1 && |Octals(Utf8(c as nat))| >= |Octal(Utf8(c as nat)[0])|; }
  }

  lemma {:induction false} QuotedCharsGrow(path: string)
    ensures |QuotedChars(path)| >= |path|
  {
    if path != "" {
      QuotedCharGrows(path[0]);
      QuotedCharsGrow(path[1..]);
    }
  }

  /** A quoted name is longer than the path, begins and ends with a quote, and is itself a name
      that git would print quoted. */
  lemma QuotedShape(path: string)
    requires !PlainName(path)
    ensures |Printed(path)| > |path| && |Printed(path)| >= 2
    ensures Printed(path)[0] == '"' && Printed(path)[|Printed(path)| - 1] == '"'
    ensures !PlainName(Printed(path))
  {
    QuotedCharsGrow(path);
    assert Printed(path)[0] in Printed(path);
  }

  // ---- Reading the lines back ----

  /** str.strip on a printed line: of the characters it removes, a line holds spaces only. */
  function StripStart(line: string): (s: string)
    ensures |s| <= |line| && (s == "" || s[0] != ' ')
  {
    if line != "" && line[0] == ' ' then StripStart(line[1..]) else line
  }

  function StripEnd(line: string): (s: string)
    ensures |s| <= |line| && (s == "" || s[|s| - 1] != ' ')
  {
    if line != "" && line[|line| - 1] == ' ' then StripEnd(line[..|line| - 1]) else line
  }

  function Strip(line: string): string
  {
    StripEnd(StripStart(line))
  }

  function PrintedLines(paths: seq<string>): seq<string>
  {
    seq(|paths|, i requires 0 <= i < |paths| => Printed(paths[i]))
  }

  /** Stripping the whole output first: blank lines at its start and end vanish with the outer
      spaces of the first and the last line that remain. */
  function StripOutputStart(lines: seq<string>): seq<string>
  {
    if lines == [] then []
    else if StripStart(lines[0]) == "" then StripOutputStart(lines[1..])
    else [StripStart(lines[0])] + lines[1..]
  }

  function StripOutputEnd(lines: seq<string>): seq<string>
  {
    if lines == [] then []
    else
      var n := |lines| - 1;
      if StripEnd(lines[n]) == "" then StripOutputEnd(lines[..n]) else lines[..n] + [StripEnd(lines[n])]
  }

  /** output.strip().splitlines() over the paths a command lists. */
  function ListedNames(paths: seq<string>): seq<string>
  {
    StripOutputEnd(StripOutputStart(PrintedLines(paths)))
  }

  /** Stripping leaves the line alone. */
  predicate Tight(line: string)
  {
    line != "" && line[0] != ' ' && line[|line| - 1] != ' '
  }

  lemma TightStays(line: string)
    requires Tight(line)
    ensures StripStart(line) == line && StripEnd(line) == line && Strip(line) == line
  {
  }

  /** A name that is printed as it is and survives stripping. */
  predicate PlainlyListed(path: string)
  {
    PlainName(path) && Tight(path)
  }

  lemma FirstLineStays(lines: seq<string>)
    requires lines != [] && Tight(lines[0])
    ensures StripOutputStart(lines) == lines
  {
    TightStays(lines[0]);
    assert lines == [lines[0]] + lines[1..];
  }

  lemma LastLineStays(lines: seq<string>)
    requires lines != [] && Tight(lines[|lines| - 1])
    ensures StripOutputEnd(lines) == lines
  {
    TightStays(lines[|lines| - 1]);
    assert lines == lines[..|lines| - 1] + [lines[|lines| - 1]];
  }

  lemma TightPrint(path: string)
    requires PlainName(path) ==> Tight(path)
    ensures Tight(Printed(path))
  {
    if !PlainName(path) { QuotedShape(path); }
  }

  /** Names without outer spaces are read back as they are printed. */
  lemma ListedAsPrinted(paths: seq<string>)
    requires forall p :: p in paths && PlainName(p) ==> Tight(p)
    ensures ListedNames(paths) == PrintedLines(paths)
  {
    if paths != [] {
      var lines := PrintedLines(paths);
      assert paths[0] in paths && paths[|paths| - 1] in paths;
      TightPrint(paths[0]);
      TightPrint(paths[|paths| - 1]);
      FirstLineStays(lines);
      LastLineStays(lines);
    }
  }

  lemma PrintedPlainly(paths: seq<string>)
    requires forall p :: p in paths ==> PlainName(p)
    ensures PrintedLines(paths) == paths
  {
    forall i | 0 <= i < |paths| ensures Printed(paths[i]) == paths[i] {
      assert PlainName(paths[i]);
    }
  }

  /** Plainly listed paths are read back unchanged. */
  lemma ListedPlainly(paths: seq<string>)
    requires forall p :: p in paths ==> PlainlyListed(p)
    ensures ListedNames(paths) == paths
  {
    ListedAsPrinted(paths);
    PrintedPlainly(paths);
  }

  lemma {:induction false} StripEndKeeps(line: string, k: nat)
    requires k < |line| && line[k] != ' '
    ensures |StripEnd(line)| > k && StripEnd(line)[..k + 1] == line[..k + 1]
    decreases |line|
  {
    if line[|line| - 1] == ' ' { StripEndKeeps(line[..|line| - 1], k); }
  }

  /** Where the first and the last line do not begin with a space, only the last is stripped. */
  lemma OnlyLastIsStripped(lines: seq<string>)
    requires lines != [] && lines[0] != "" && lines[0][0] != ' '
    requires lines[|lines| - 1] != "" && lines[|lines| - 1][0] != ' '
    ensures StripOutputEnd(StripOutputStart(lines)) == lines[..|lines| - 1] + [StripEnd(lines[|lines| - 1])]
  {
    assert lines == [lines[0]] + lines[1..];
    StripEndKeeps(lines[|lines| - 1], 0);
  }

  // Where a listed name comes from: the stripped print of one of the paths.
  ghost predicate ComesFrom(name: string, paths: seq<string>)
  {
    exists p :: p in paths && Derived(name, Printed(p))
  }

  ghost predicate Derived(name: string, line: string)
  {
    name == line || name == StripStart(line) || name == StripEnd(line) || name == Strip(line)
  }

  lemma {:induction false} StartLine(lines: seq<string>, name: string) returns (line: string)
    requires name in StripOutputStart(lines)
    ensures line in lines && (name == line || name == StripStart(line))
  {
    if StripStart(lines[0]) == "" {
      line := StartLine(lines[1..], name);
    } else if name in lines[1..] {
      line := name;
    } else {
      line := lines[0];
    }
  }

  lemma {:induction false} EndLine(lines: seq<string>, name: string) returns (line: string)
    requires name in StripOutputEnd(lines)
    ensures line in lines && (name == line || name == StripEnd(line))
    decreases |lines|
  {
    var n := |lines| - 1;
    if StripEnd(lines[n]) == "" {
      line := EndLine(lines[..n], name);
    } else if name in lines[..n] {
      line := name;
    } else {
      line := lines[n];
    }
  }

  lemma ListedComeFrom(paths: seq<string>, name: string)
    requires name in ListedNames(paths)
    ensures ComesFrom(name, paths)
  {
    var lines := PrintedLines(paths);
    var m := EndLine(StripOutputStart(lines), name);
    var l := StartLine(lines, m);
    var i :| 0 <= i < |lines| && lines[i] == l;
    assert paths[i] in paths && Derived(name, Printed(paths[i]));
  }

  lemma {:induction false} StripStartKeepsPlain(line: string)
    requires PlainName(line)
    ensures PlainName(StripStart(line))
  {
    if line != "" && line[0] == ' ' { StripStartKeepsPlain(line[1..]); }
  }

  lemma {:induction false} StripEndKeepsPlain(line: string)
    requires PlainName(line)
    ensures PlainName(StripEnd(line))
    decreases |line|
  {
    if line != "" && line[|line| - 1] == ' ' { StripEndKeepsPlain(line[..|line| - 1]); }
  }

  // Stripping takes no part in quoting: a derived name is quoted exactly when its line is.
  lemma DerivedQuoting(name: string, path: string)
    requires Derived(name, Printed(path))
    ensures PlainName(path) ==> PlainName(name)
    ensures !PlainName(path) ==> name == Printed(path)
  {
    if PlainName(path) {
      StripStartKeepsPlain(path);
      StripEndKeepsPlain(path);
      StripEndKeepsPlain(StripStart(path));
    } else {
      QuotedShape(path);
      TightStays(Printed(path));
    }
  }

  /** Of the paths that git prints quoted, a shortest one is not among the names read back. */
  lemma ShortestQuotedIsLost(paths: seq<string>, path: string)
    requires path in paths && !PlainName(path)
    requires forall q :: q in paths && !PlainName(q) ==> |path| <= |q|
    ensures path !in ListedNames(paths)
  {
    if path in ListedNames(paths) {
      ListedComeFrom(paths, path);
      var q :| q in paths && Derived(path, Printed(q));
      DerivedQuoting(path, q);
      QuotedShape(q);
    }
  }

  lemma {:induction false} ShortestQuoted(paths: seq<string>) returns (path: string)
    requires exists q :: q in paths && !PlainName(q)
    ensures path in paths && !PlainName(path) && forall q :: q in paths && !PlainName(q) ==> |path| <= |q|
    decreases |paths|
  {
    var rest := paths[1..];
    if q :| q in rest && !PlainName(q) {
      path := ShortestQuoted(rest);
      if !PlainName(paths[0]) && |paths[0]| < |path| { path := paths[0]; }
    } else {
      path := paths[0];
    }
  }
}
