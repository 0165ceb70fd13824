/** The canonical JSON printer shared by every evidence document:
    sorted keys, "," and ":" separators, RFC 8259 section 7 string escapes, and the
    two ensure_ascii modes (False for release evidence, True for the audit log). */
module CanonicalJson {
  import opened Text

  /** A JSON value with string keys.  An object is a dictionary, so two objects that
      differ only in key order are the same value.  A finite float is carried by its
      shortest decimal text, which is how the printer writes it. */
  datatype Json =
    | Null
    | Bool(flag: bool)
    | Int(number: int)
    | Float(repr: string)
    | Str(text: string)
    | Arr(items: seq<Json>)
    | Obj(members: map<string, Json>)

  type Document = map<string, Json>

  predicate NumberChar(c: char)
  {
    IsDigit(c) || c in "+-.e"
  }

  /** repr() of a finite float: a sign or digit first, number characters only, and a
      "." or "e" that no integer has. */
  predicate FloatText(r: string)
  {
    && r != ""
    && (IsDigit(r[0]) || r[0] == '-')
    && (forall c | c in r :: NumberChar(c))
    && ('.' in r || 'e' in r)
  }

  predicate WellFormed(j: Json)
  {
    match j
    case Float(r) => FloatText(r)
    case Arr(items) => forall x | x in items :: WellFormed(x)
    case Obj(m) => forall k | k in m :: WellFormed(m[k])
    case _ => true
  }

  // ---- String escapes ----

  function HexDigit(n: nat): (c: char)
    requires n < 16
    ensures IsHex(c)
  {
    if n < 10 then '0' + n as char else 'a' + (n - 10) as char
  }

  /** \uXXXX for one UTF-16 unit. */
  function Unit(n: nat): (s: string)
    requires n < 0x1_0000
    ensures |s| == 6 && s[0] == '\\' && s[1] == 'u'
  {
    var n1 := n / 16;
    var n2 := n1 / 16;
    "\\u" + [HexDigit(n2 / 16), HexDigit(n2 % 16), HexDigit(n1 % 16), HexDigit(n % 16)]
  }

  function EscapeChar(c: char, ascii: bool): string
  {
    if c == '"' then "\\\""
    else if c == '\\' then "\\\\"
    else if c == '\n' then "\\n"
    else if c == '\r' then "\\r"
    else if c == '\t' then "\\t"
    else if c as int == 8 then "\\b"
    else if c as int == 12 then "\\f"
    else if (c as int) < 32 then Unit(c as int)
    else if !ascii || (c as int) < 127 then [c]
    else if (c as int) < 0x1_0000 then Unit(c as int)
    else
      var v := c as int - 0x1_0000;
      Unit(0xD800 + v / 0x400) + Unit(0xDC00 + v % 0x400)
  }

  function Escape(s: string, ascii: bool): string
  {
    if s == "" then "" else EscapeChar(s[0], ascii) + Escape(s[1..], ascii)
  }

  function Quote(s: string, ascii: bool): string
  {
    "\"" + Escape(s, ascii) + "\""
  }

  // ---- The printer ----

  function Print(j: Json, ascii: bool): string
    decreases j, 1, 0
  {
    match j
    case Null => "null"
    case Bool(b) => if b then "true" else "false"
    case Int(n) => IntText(n)
    case Float(r) => r
    case Str(s) => Quote(s, ascii)
    case Arr(items) => "[" + PrintItems(j, 0, ascii)
    case Obj(m) => "{" + PrintMembers(j, SortedKeys(m.Keys), true, ascii)
  }

  function Separator(first: bool): string
  {
    if first then "" else ","
  }

  // The items from position i on, with the closing bracket.
  function PrintItems(j: Json, i: nat, ascii: bool): string
    requires j.Arr? && i <= |j.items|
    decreases j, 0, |j.items| - i
  {
    if i == |j.items| then "]"
    else Separator(i == 0) + Print(j.items[i], ascii) + PrintItems(j, i + 1, ascii)
  }

  // The members of the listed keys, with the closing brace.
  function PrintMembers(j: Json, keys: seq<string>, first: bool, ascii: bool): string
    requires j.Obj? && forall k :: k in keys ==> k in j.members
    decreases j, 0, |keys|
  {
    if keys == [] then "}"
    else Separator(first) + Quote(keys[0], ascii) + ":" + Print(j.members[keys[0]], ascii)
         + PrintMembers(j, keys[1..], false, ascii)
  }

  // ---- Unique readability ----

  lemma HexDigitInjective(m: nat, n: nat)
    requires m < 16 && n < 16 && HexDigit(m) == HexDigit(n)
    ensures m == n
  {
  }

  lemma UnitInjective(m: nat, n: nat)
    requires m < 0x1_0000 && n < 0x1_0000 && Unit(m) == Unit(n)
    ensures m == n
  {
    var m1, n1 := m / 16, n / 16;
    var m2, n2 := m1 / 16, n1 / 16;
    assert Unit(m)[2] == HexDigit(m2 / 16) && Unit(n)[2] == HexDigit(n2 / 16);
    assert Unit(m)[3] == HexDigit(m2 % 16) && Unit(n)[3] == HexDigit(n2 % 16);
    assert Unit(m)[4] == HexDigit(m1 % 16) && Unit(n)[4] == HexDigit(n1 % 16);
    assert Unit(m)[5] == HexDigit(m % 16) && Unit(n)[5] == HexDigit(n % 16);
    HexDigitInjective(m2 / 16, n2 / 16);
    HexDigitInjective(m2 % 16, n2 % 16);
    HexDigitInjective(m1 % 16, n1 % 16);
    HexDigitInjective(m % 16, n % 16);
  }

  /** The UTF-16 units of a character that is escaped by number. */
  function FirstUnit(c: char): (u: nat)
    ensures u < 0x1_0000
  {
    if (c as int) < 0x1_0000 then c as int else 0xD800 + (c as int - 0x1_0000) / 0x400
  }

  lemma EscapeShapes(c: char, ascii: bool)
    ensures var e := EscapeChar(c, ascii);
      && e != "" && e[0] != '"'
      && (|e| == 1 ==> e == [c] && c != '\\')
      && (|e| == 2 ==> e[0] == '\\' && e[1] != 'u')
      && (|e| >= 6 ==> e[..6] == Unit(FirstUnit(c)))
      && (|e| == 1 || |e| == 2 || |e| == 6 || |e| == 12)
      && (|e| == 6 ==> c as int == FirstUnit(c))
      && (|e| == 12 ==> 0x1_0000 <= c as int && e[6..] == Unit(0xDC00 + (c as int - 0x1_0000) % 0x400))
  {
  }

  /** No escape is a prefix of another, and different characters have different escapes. */
  lemma EscapeCharSplits(c: char, d: char, x: string, y: string, ascii: bool)
    requires EscapeChar(c, ascii) + x == EscapeChar(d, ascii) + y
    ensures c == d && x == y
  {
    var e, f := EscapeChar(c, ascii), EscapeChar(d, ascii);
    EscapeShapes(c, ascii);
    EscapeShapes(d, ascii);
    var whole := e + x;
    assert whole[..|e|] == e && whole[..|f|] == f;
    assert e[0] == whole[0] == f[0];
    if |e| == 1 || |f| == 1 {
      assert |e| == |f|;
    } else {
      assert e[1] == whole[1] == f[1];
      if |e| == 2 || |f| == 2 {
        assert |e| == |f|;
      } else {
        assert e[..6] == whole[..6] == f[..6];
        UnitInjective(FirstUnit(c), FirstUnit(d));
        assert |e| == |f|;
        if |e| == 12 {
          assert e[6..] == f[6..];
          UnitInjective(0xDC00 + (c as int - 0x1_0000) % 0x400, 0xDC00 + (d as int - 0x1_0000) % 0x400);
        }
      }
    }
    assert x == whole[|e|..] && y == whole[|f|..];
  }

  lemma Regroup(a: string, b: string, c: string, d: string)
    ensures (a + b) + c + d == a + (b + c + d)
  {
  }

  // One step of the escaped text up to the closing quote.
  function Escaped(s: string, x: string, ascii: bool): string
  {
    Escape(s, ascii) + "\"" + x
  }

  lemma EscapedStep(s: string, x: string, ascii: bool)
    ensures var l := Escaped(s, x, ascii);
      && l != "" && (l[0] == '"' <==> s == "")
      && (s == "" ==> l[1..] == x)
      && (s != "" ==> l == EscapeChar(s[0], ascii) + Escaped(s[1..], x, ascii))
  {
    if s != "" {
      EscapeShapes(s[0], ascii);
      Regroup(EscapeChar(s[0], ascii), Escape(s[1..], ascii), "\"", x);
    }
  }

  lemma {:induction false} EscapeSplits(s: string, t: string, x: string, y: string, ascii: bool)
    requires Escaped(s, x, ascii) == Escaped(t, y, ascii)
    ensures s == t && x == y
  {
    EscapedStep(s, x, ascii);
    EscapedStep(t, y, ascii);
    if s != "" {
      EscapeCharSplits(s[0], t[0], Escaped(s[1..], x, ascii), Escaped(t[1..], y, ascii), ascii);
      EscapeSplits(s[1..], t[1..], x, y, ascii);
      assert s == [s[0]] + s[1..] && t == [t[0]] + t[1..];
    }
  }

  lemma QuoteTail(s: string, x: string, ascii: bool)
    ensures (Quote(s, ascii) + x)[1..] == Escaped(s, x, ascii)
  {
    var body := Escape(s, ascii);
    assert Quote(s, ascii) + x == "\"" + (body + "\"" + x);
  }

  lemma QuoteSplits(s: string, t: string, x: string, y: string, ascii: bool)
    requires Quote(s, ascii) + x == Quote(t, ascii) + y
    ensures s == t && x == y
  {
    QuoteTail(s, x, ascii);
    QuoteTail(t, y, ascii);
    EscapeSplits(s, t, x, y, ascii);
  }

  /** What may follow a printed value: nothing, or a character no number contains. */
  predicate Stops(x: string) { x == "" || !NumberChar(x[0]) }

  ghost predicate NumberToken(s: string) { s != "" && forall c | c in s :: NumberChar(c) }

  lemma NumberTokenSplits(s: string, t: string, x: string, y: string)
    requires NumberToken(s) && NumberToken(t) && Stops(x) && Stops(y)
    requires s + x == t + y
    ensures s == t && x == y
  {
    var whole := s + x;
    assert forall i | 0 <= i < |s| :: NumberChar(whole[i]);
    assert forall i | 0 <= i < |t| :: NumberChar((t + y)[i]);
    assert x != "" ==> whole[|s|] == x[0];
    assert y != "" ==> (t + y)[|t|] == y[0];
    assert |s| == |t|;
    assert s == whole[..|s|] && t == whole[..|t|];
    assert x == whole[|s|..] && y == whole[|t|..];
  }

  lemma NumbersPrintTokens(j: Json, ascii: bool)
    requires (j.Int? || j.Float?) && WellFormed(j)
    ensures NumberToken(Print(j, ascii))
    ensures IsDigit(Print(j, ascii)[0]) || Print(j, ascii)[0] == '-'
    ensures j.Int? ==> '.' !in Print(j, ascii) && 'e' !in Print(j, ascii)
  {
    if j.Int? {
      var digits := NatText(if j.number < 0 then -j.number else j.number);
      assert forall c | c in digits :: IsDigit(c);
      assert forall c | c in IntText(j.number) :: IsDigit(c) || c == '-';
    }
  }

  /** The constructor is readable off the first character of the text. */
  function Head(j: Json): char
    requires WellFormed(j)
  {
    match j
    case Null => 'n'
    case Bool(b) => if b then 't' else 'f'
    case Int(_) => '0'
    case Float(_) => '0'
    case Str(_) => '"'
    case Arr(_) => '['
    case Obj(_) => '{'
  }

  lemma PrintHead(j: Json, ascii: bool)
    requires WellFormed(j)
    ensures var p := Print(j, ascii);
      p != "" && (if IsDigit(p[0]) || p[0] == '-' then '0' else p[0]) == Head(j)
  {
    if j.Int? || j.Float? { NumbersPrintTokens(j, ascii); }
  }

  /** Reading back: a printed value followed by anything that can follow a value determines
      both the value and what follows. */
  lemma {:induction false} PrintSplits(a: Json, b: Json, x: string, y: string, ascii: bool)
    requires WellFormed(a) && WellFormed(b) && Stops(x) && Stops(y)
    requires Print(a, ascii) + x == Print(b, ascii) + y
    ensures a == b && x == y
    decreases a, 2, 0
  {
    HeadsMatch(a, b, x, y, ascii);
    match a
    case Null => DropPrefix("null", "null", x, y);
    case Bool(_) => DropPrefix(Print(a, ascii), Print(b, ascii), x, y);
    case Int(_) => NumberSplits(a, b, x, y, ascii);
    case Float(_) => NumberSplits(a, b, x, y, ascii);
    case Str(s) => QuoteSplits(s, b.text, x, y, ascii);
    case Arr(_) =>
      DropHead('[', PrintItems(a, 0, ascii), x, PrintItems(b, 0, ascii), y);
      ItemsSplit(a, b, 0, x, y, ascii);
    case Obj(_) => ObjectSplits(a, b, x, y, ascii);
  }

  lemma ObjectSplits(a: Json, b: Json, x: string, y: string, ascii: bool)
    requires a.Obj? && b.Obj? && WellFormed(a) && WellFormed(b)
    requires Print(a, ascii) + x == Print(b, ascii) + y
    ensures a == b && x == y
    decreases a, 1, 0
  {
    var ks, ls := SortedKeys(a.members.Keys), SortedKeys(b.members.Keys);
    DropHead('{', PrintMembers(a, ks, true, ascii), x, PrintMembers(b, ls, true, ascii), y);
    MembersSplit(a, b, ks, ls, true, x, y, ascii);
    SameMembers(a.members, b.members);
  }

  lemma SameMembers(m: map<string, Json>, n: map<string, Json>)
    requires SortedKeys(m.Keys) == SortedKeys(n.Keys)
    requires forall k :: k in SortedKeys(m.Keys) ==> m[k] == n[k]
    ensures m == n
  {
    forall k ensures k in m <==> k in n {
      assert k in m <==> k in SortedKeys(m.Keys);
      assert k in n <==> k in SortedKeys(n.Keys);
    }
  }

  lemma HeadsMatch(a: Json, b: Json, x: string, y: string, ascii: bool)
    requires WellFormed(a) && WellFormed(b)
    requires Print(a, ascii) + x == Print(b, ascii) + y
    ensures Head(a) == Head(b)
  {
    PrintHead(a, ascii);
    PrintHead(b, ascii);
    assert (Print(a, ascii) + x)[0] == Print(a, ascii)[0];
    assert (Print(b, ascii) + y)[0] == Print(b, ascii)[0];
  }

  lemma DropPrefix(p: string, q: string, x: string, y: string)
    requires p + x == q + y && |p| == |q|
    ensures p == q && x == y
  {
    assert p == (p + x)[..|p|] && q == (q + y)[..|q|];
    assert x == (p + x)[|p|..] && y == (q + y)[|q|..];
  }

  lemma DropHead(c: char, p: string, x: string, q: string, y: string)
    requires [c] + p + x == [c] + q + y
    ensures p + x == q + y
  {
    assert ([c] + p + x)[1..] == p + x;
    assert ([c] + q + y)[1..] == q + y;
  }

  lemma NumberSplits(a: Json, b: Json, x: string, y: string, ascii: bool)
    requires (a.Int? || a.Float?) && (b.Int? || b.Float?)
    requires WellFormed(a) && WellFormed(b) && Stops(x) && Stops(y)
    requires Print(a, ascii) + x == Print(b, ascii) + y
    ensures a == b && x == y
  {
    NumbersPrintTokens(a, ascii);
    NumbersPrintTokens(b, ascii);
    NumberTokenSplits(Print(a, ascii), Print(b, ascii), x, y);
    if a.Int? && b.Int? { IntTextInjective(a.number, b.number); }
  }

  // A separated group starts with its separator, or else with its own first character.
  lemma GroupHead(first: bool, p: string, rest: string)
    requires p != ""
    ensures var l := Separator(first) + (p + rest);
      l != "" && l[0] == if first then p[0] else ','
  {
  }

  lemma ItemHead(j: Json, i: nat, ascii: bool)
    requires j.Arr? && i < |j.items| && WellFormed(j)
    ensures WellFormed(j.items[i])
    ensures var p := Print(j.items[i], ascii); p != "" && p[0] != ']'
  {
    assert j.items[i] in j.items;
    PrintHead(j.items[i], ascii);
  }

  // One step of the printed items: the closing bracket, or a separator, a value and the rest.
  lemma ItemsStep(j: Json, i: nat, p: string, t: string, x: string, ascii: bool)
    requires j.Arr? && i < |j.items| && p != "" && p[0] != ']'
    requires p == Print(j.items[i], ascii) && t == PrintItems(j, i + 1, ascii)
    ensures var l := PrintItems(j, i, ascii) + x;
      && l == Separator(i == 0) + (p + (t + x))
      && l != "" && l[0] != ']'
      && (i > 0 ==> l[0] == ',')
  {
    var sep := Separator(i == 0);
    assert PrintItems(j, i, ascii) == sep + p + t;
    Regroup(sep, p, t, x);
    GroupHead(i == 0, p, t + x);
  }

  lemma ItemsEnd(j: Json, i: nat, x: string, ascii: bool)
    requires j.Arr? && i == |j.items|
    ensures var l := PrintItems(j, i, ascii) + x; l != "" && l[0] == ']' && l[1..] == x
  {
  }

  lemma ItemsStop(j: Json, i: nat, x: string, ascii: bool)
    requires j.Arr? && 0 < i <= |j.items| && WellFormed(j)
    ensures Stops(PrintItems(j, i, ascii) + x)
    ensures (PrintItems(j, i, ascii) + x)[0] == ']' <==> i == |j.items|
  {
    if i == |j.items| {
      ItemsEnd(j, i, x, ascii);
    } else {
      ItemHead(j, i, ascii);
      ItemsStep(j, i, Print(j.items[i], ascii), PrintItems(j, i + 1, ascii), x, ascii);
    }
  }

  lemma ItemsPeel(a: Json, b: Json, i: nat, x: string, y: string, ascii: bool)
    requires a.Arr? && b.Arr? && i < |a.items| && i < |b.items| && WellFormed(a) && WellFormed(b)
    requires PrintItems(a, i, ascii) + x == PrintItems(b, i, ascii) + y
    ensures WellFormed(a.items[i]) && WellFormed(b.items[i])
    ensures Stops(PrintItems(a, i + 1, ascii) + x) && Stops(PrintItems(b, i + 1, ascii) + y)
    ensures Print(a.items[i], ascii) + (PrintItems(a, i + 1, ascii) + x)
         == Print(b.items[i], ascii) + (PrintItems(b, i + 1, ascii) + y)
  {
    ItemHead(a, i, ascii);
    ItemHead(b, i, ascii);
    var p, q := Print(a.items[i], ascii), Print(b.items[i], ascii);
    var t, u := PrintItems(a, i + 1, ascii), PrintItems(b, i + 1, ascii);
    ItemsStep(a, i, p, t, x, ascii);
    ItemsStep(b, i, q, u, y, ascii);
    ItemsStop(a, i + 1, x, ascii);
    ItemsStop(b, i + 1, y, ascii);
    DropPrefix(Separator(i == 0), Separator(i == 0), p + (t + x), q + (u + y));
  }

  lemma {:induction false} ItemsSplit(a: Json, b: Json, i: nat, x: string, y: string, ascii: bool)
    requires a.Arr? && b.Arr? && i <= |a.items| && i <= |b.items|
    requires WellFormed(a) && WellFormed(b)
    requires a.items[..i] == b.items[..i]
    requires PrintItems(a, i, ascii) + x == PrintItems(b, i, ascii) + y
    ensures a == b && x == y
    decreases a, 0, |a.items| - i
  {
    if i == |a.items| || i == |b.items| {
      ItemsAtEnd(a, b, i, x, y, ascii);
    } else {
      ItemsPeel(a, b, i, x, y, ascii);
      PrintSplits(a.items[i], b.items[i], PrintItems(a, i + 1, ascii) + x, PrintItems(b, i + 1, ascii) + y, ascii);
      assert a.items[..i + 1] == a.items[..i] + [a.items[i]] && b.items[..i + 1] == b.items[..i] + [b.items[i]];
      ItemsSplit(a, b, i + 1, x, y, ascii);
    }
  }

  lemma ItemsAtEnd(a: Json, b: Json, i: nat, x: string, y: string, ascii: bool)
    requires a.Arr? && b.Arr? && i <= |a.items| && i <= |b.items| && (i == |a.items| || i == |b.items|)
    requires WellFormed(a) && WellFormed(b) && a.items[..i] == b.items[..i]
    requires PrintItems(a, i, ascii) + x == PrintItems(b, i, ascii) + y
    ensures a == b && x == y
  {
    if i == |a.items| { ItemsEnd(a, i, x, ascii); } else {
      ItemHead(a, i, ascii);
      ItemsStep(a, i, Print(a.items[i], ascii), PrintItems(a, i + 1, ascii), x, ascii);
    }
    if i == |b.items| { ItemsEnd(b, i, y, ascii); } else {
      ItemHead(b, i, ascii);
      ItemsStep(b, i, Print(b.items[i], ascii), PrintItems(b, i + 1, ascii), y, ascii);
    }
    assert a.items == a.items[..i] && b.items == b.items[..i];
  }

  lemma MembersStep(j: Json, ks: seq<string>, first: bool, x: string, ascii: bool)
    requires j.Obj? && forall k :: k in ks ==> k in j.members
    ensures var l := PrintMembers(j, ks, first, ascii) + x;
      && l != "" && (l[0] == '}' <==> ks == [])
      && (!first ==> !NumberChar(l[0]))
      && (ks == [] ==> l[1..] == x)
      && (ks != [] ==>
            l == Separator(first) + (Quote(ks[0], ascii) + (":" + (Print(j.members[ks[0]], ascii)
                    + (PrintMembers(j, ks[1..], false, ascii) + x)))))
  {
    if ks != [] {
      var q, v, t := Quote(ks[0], ascii), Print(j.members[ks[0]], ascii), PrintMembers(j, ks[1..], false, ascii);
      RegroupMember(Separator(first), q, v, t, x);
      GroupHead(first, q, ":" + (v + (t + x)));
    }
  }

  lemma RegroupMember(a: string, q: string, v: string, t: string, x: string)
    ensures a + q + ":" + v + t + x == a + (q + (":" + (v + (t + x))))
  {
  }

  lemma {:induction false} MembersSplit(a: Json, b: Json, ks: seq<string>, ls: seq<string>, first: bool,
                                        x: string, y: string, ascii: bool)
    requires a.Obj? && b.Obj? && WellFormed(a) && WellFormed(b)
    requires (forall k :: k in ks ==> k in a.members) && (forall k :: k in ls ==> k in b.members)
    requires PrintMembers(a, ks, first, ascii) + x == PrintMembers(b, ls, first, ascii) + y
    ensures ks == ls && x == y
    ensures forall k :: k in ks ==> a.members[k] == b.members[k]
    decreases a, 0, |ks|
  {
    MembersStep(a, ks, first, x, ascii);
    MembersStep(b, ls, first, y, ascii);
    if ks != [] {
      var x', y' := PrintMembers(a, ks[1..], false, ascii) + x, PrintMembers(b, ls[1..], false, ascii) + y;
      MembersStep(a, ks[1..], false, x, ascii);
      MembersStep(b, ls[1..], false, y, ascii);
      var u, v := Print(a.members[ks[0]], ascii) + x', Print(b.members[ls[0]], ascii) + y';
      DropPrefix(Separator(first), Separator(first), Quote(ks[0], ascii) + (":" + u), Quote(ls[0], ascii) + (":" + v));
      QuoteSplits(ks[0], ls[0], ":" + u, ":" + v, ascii);
      DropPrefix(":", ":", u, v);
      PrintSplits(a.members[ks[0]], b.members[ls[0]], x', y', ascii);
      MembersSplit(a, b, ks[1..], ls[1..], false, x, y, ascii);
      assert ks == [ks[0]] + ks[1..] && ls == [ls[0]] + ls[1..];
    }
  }

  /** Canonical JSON is unambiguous: equal text exactly for equal values. */
  lemma CanonicalJsonUnambiguous(a: Json, b: Json, ascii: bool)
    requires WellFormed(a) && WellFormed(b)
    ensures Print(a, ascii) == Print(b, ascii) <==> a == b
  {
    if Print(a, ascii) == Print(b, ascii) {
      assert Print(a, ascii) + "" == Print(b, ascii) + "";
      PrintSplits(a, b, "", "", ascii);
    }
  }
}
