/** What canonical text is, stated without the printer: the escapes of section 7 of RFC 8259,
    items and members joined by "," alone, and member names in strictly increasing order. */
module CanonicalForm {
  import opened Text
  import opened CanonicalJson
  import opened Paths
  import opened Evidence

  // ---- Strings ----

  function HexValue(c: char): nat
    requires IsHex(c)
  {
    if IsDigit(c) then DigitValue(c) else (c - 'a') as nat + 10
  }

  /** A backslash, u, and four hexadecimal digits that spell n. */
  predicate SpellsUnit(e: string, n: int)
  {
    && |e| == 6 && e[0] == '\\' && e[1] == 'u' && IsHex(e[2]) && IsHex(e[3]) && IsHex(e[4]) && IsHex(e[5])
    && n == 0x1000 * HexValue(e[2]) + 0x100 * HexValue(e[3]) + 0x10 * HexValue(e[4]) + HexValue(e[5])
  }

  /** The characters that have an escape of two characters, and its second. */
  const SHORT := map['"' := '"', '\\' := '\\', 8 as char := 'b', 12 as char := 'f', '\n' := 'n', '\r' := 'r',
                     '\t' := 't']

  /** Printed as they are: in ASCII mode the characters from space to tilde, else all from space on. */
  predicate Unescaped(c: char, ascii: bool)
  {
    c >= ' ' && c !in SHORT && (ascii ==> c <= '~')
  }

  /** A high and a low surrogate that spell the character. */
  ghost predicate SpellsPair(e: string, c: char)
  {
    |e| == 12 && exists high: int, low: int ::
      && SpellsUnit(e[..6], high) && SpellsUnit(e[6..], low) && 0xD800 <= high < 0xDC00 <= low < 0xE000
      && c as int == 0x1_0000 + 0x400 * (high - 0xD800) + (low - 0xDC00)
  }

  ghost predicate Spells(e: string, c: char, ascii: bool)
  {
    if c in SHORT then e == ['\\', SHORT[c]]
    else if Unescaped(c, ascii) then e == [c]
    else if (c as int) < 0x1_0000 then SpellsUnit(e, c as int)
    else SpellsPair(e, c)
  }

  function Concat(pieces: seq<string>): string
  {
    if pieces == [] then "" else pieces[0] + Concat(pieces[1..])
  }

  /** The quoted text: one spelling per character, between quotes. */
  ghost predicate WritesString(s: string, ascii: bool, text: string)
  {
    exists pieces: seq<string> {:trigger Concat(pieces)} ::
      && |pieces| == |s| && (forall i :: 0 <= i < |s| ==> Spells(pieces[i], s[i], ascii))
      && text == "\"" + Concat(pieces) + "\""
  }

  lemma HexDigitValue(n: nat)
    requires n < 16
    ensures HexValue(HexDigit(n)) == n
  {
  }

  lemma ValueHexDigit(c: char)
    requires IsHex(c)
    ensures HexValue(c) < 16 && HexDigit(HexValue(c)) == c
  {
  }

  lemma UnitDigits(n: nat)
    requires n < 0x1_0000
    ensures SpellsUnit(Unit(n), n)
  {
    var n1 := n / 16;
    var n2 := n1 / 16;
    HexDigitValue(n2 / 16);
    HexDigitValue(n2 % 16);
    HexDigitValue(n1 % 16);
    HexDigitValue(n % 16);
  }

  lemma DigitsOf(a: nat, b: nat, c: nat, d: nat)
    requires a < 16 && b < 16 && c < 16 && d < 16
    ensures var n := 0x1000 * a + 0x100 * b + 0x10 * c + d;
      n < 0x1_0000 && n % 16 == d && n / 16 % 16 == c && n / 16 / 16 % 16 == b && n / 16 / 16 / 16 == a
  {
    var n := 0x1000 * a + 0x100 * b + 0x10 * c + d;
    assert n / 16 == 0x100 * a + 0x10 * b + c;
    assert n / 16 / 16 == 0x10 * a + b;
  }

  lemma UnitIs(e: string, n: nat)
    requires n < 0x1_0000
    ensures SpellsUnit(e, n) <==> e == Unit(n)
  {
    UnitDigits(n);
    if SpellsUnit(e, n) {
      ValueHexDigit(e[2]);
      ValueHexDigit(e[3]);
      ValueHexDigit(e[4]);
      ValueHexDigit(e[5]);
      DigitsOf(HexValue(e[2]), HexValue(e[3]), HexValue(e[4]), HexValue(e[5]));
      assert e == "\\u" + [e[2], e[3], e[4], e[5]];
    }
  }

  lemma Halves(high: int, low: int, v: nat)
    requires v < 0x10_0000
    ensures 0xDC00 <= low < 0xE000 && v == 0x400 * (high - 0xD800) + (low - 0xDC00) <==>
      high == 0xD800 + v / 0x400 && low == 0xDC00 + v % 0x400
  {
  }

  lemma UnitsSpell(high: nat, low: nat)
    requires high < 0x1_0000 && low < 0x1_0000
    ensures var e := Unit(high) + Unit(low); |e| == 12 && SpellsUnit(e[..6], high) && SpellsUnit(e[6..], low)
  {
    UnitDigits(high);
    UnitDigits(low);
    var e := Unit(high) + Unit(low);
    assert e[..6] == Unit(high) && e[6..] == Unit(low);
  }

  lemma SpeltUnits(e: string, high: nat, low: nat)
    requires high < 0x1_0000 && low < 0x1_0000
    requires |e| == 12 && SpellsUnit(e[..6], high) && SpellsUnit(e[6..], low)
    ensures e == Unit(high) + Unit(low)
  {
    UnitIs(e[..6], high);
    UnitIs(e[6..], low);
    assert e == e[..6] + e[6..];
  }

  function High(c: char): (u: nat)
    requires c as int >= 0x1_0000
    ensures 0xD800 <= u < 0xDC00
  {
    0xD800 + (c as int - 0x1_0000) / 0x400
  }

  function Low(c: char): (u: nat)
    ensures 0xDC00 <= u < 0xE000
  {
    0xDC00 + (c as int - 0x1_0000) % 0x400
  }

  function Pair(c: char): string
    requires c as int >= 0x1_0000
  {
    Unit(High(c)) + Unit(Low(c))
  }

  lemma PairSpells(c: char)
    requires c as int >= 0x1_0000
    ensures SpellsPair(Pair(c), c)
  {
    UnitsSpell(High(c), Low(c));
    Halves(High(c), Low(c), c as int - 0x1_0000);
  }

  lemma SurrogatesOf(e: string, c: char) returns (high: nat, low: nat)
    requires c as int >= 0x1_0000 && SpellsPair(e, c)
    ensures high == High(c) && low == Low(c) && SpellsUnit(e[..6], high) && SpellsUnit(e[6..], low)
  {
    var h: int, l: int :| SpellsUnit(e[..6], h) && SpellsUnit(e[6..], l) && 0xD800 <= h < 0xDC00 <= l < 0xE000
      && c as int == 0x1_0000 + 0x400 * (h - 0xD800) + (l - 0xDC00);
    Halves(h, l, c as int - 0x1_0000);
    high, low := h, l;
  }

  lemma SpeltPair(e: string, c: char)
    requires c as int >= 0x1_0000 && SpellsPair(e, c)
    ensures e == Pair(c)
  {
    var high, low := SurrogatesOf(e, c);
    SpeltUnits(e, high, low);
  }

  lemma PairIs(e: string, c: char)
    requires c as int >= 0x1_0000
    ensures SpellsPair(e, c) <==> e == Pair(c)
  {
    PairSpells(c);
    if SpellsPair(e, c) { SpeltPair(e, c); }
  }

  /** The printer's escape is the one spelling a character has. */
  lemma EscapeCharSpells(e: string, c: char, ascii: bool)
    ensures Spells(e, c, ascii) <==> e == EscapeChar(c, ascii)
  {
    if c !in SHORT && !Unescaped(c, ascii) {
      if (c as int) < 0x1_0000 { UnitIs(e, c as int); } else { PairIs(e, c); }
    }
  }

  lemma {:induction false} ConcatSpells(pieces: seq<string>, s: string, ascii: bool)
    requires |pieces| == |s| && forall i :: 0 <= i < |s| ==> Spells(pieces[i], s[i], ascii)
    ensures Concat(pieces) == Escape(s, ascii)
  {
    if s != "" {
      EscapeCharSpells(pieces[0], s[0], ascii);
      ConcatSpells(pieces[1..], s[1..], ascii);
    }
  }

  lemma QuoteWrites(s: string, ascii: bool, text: string)
    ensures WritesString(s, ascii, text) <==> text == Quote(s, ascii)
  {
    var pieces := seq(|s|, i requires 0 <= i < |s| => EscapeChar(s[i], ascii));
    forall i | 0 <= i < |s| ensures Spells(pieces[i], s[i], ascii) { EscapeCharSpells(pieces[i], s[i], ascii); }
    ConcatSpells(pieces, s, ascii);
    assert Quote(s, ascii) == "\"" + Concat(pieces) + "\"";
    if WritesString(s, ascii, text) {
      var spelt: seq<string> :| |spelt| == |s| && (forall i :: 0 <= i < |s| ==> Spells(spelt[i], s[i], ascii))
        && text == "\"" + Concat(spelt) + "\"";
      ConcatSpells(spelt, s, ascii);
    }
  }

  // ---- Numbers ----

  /** Decimal digits that spell n, with no zero in front of others. */
  predicate SpellsNat(t: string, n: nat)
  {
    t != "" && AllDigits(t) && ParseNat(t) == n && (t[0] == '0' ==> |t| == 1)
  }

  predicate SpellsInt(t: string, n: int)
  {
    if n < 0 then t != "" && t[0] == '-' && SpellsNat(t[1..], -n) else SpellsNat(t, n)
  }

  lemma {:induction false} PositiveNumeral(t: string)
    requires t != "" && AllDigits(t) && t[0] != '0'
    ensures ParseNat(t) > 0
  {
    if |t| > 1 { PositiveNumeral(t[..|t| - 1]); }
  }

  lemma {:induction false} NatTextLeads(n: nat)
    ensures NatText(n)[0] == '0' <==> n == 0
    ensures n < 10 <==> |NatText(n)| == 1
  {
    if n >= 10 { NatTextLeads(n / 10); }
  }

  lemma {:induction false} NatTextSpells(t: string, n: nat)
    ensures SpellsNat(t, n) <==> t == NatText(n)
    decreases |t|
  {
    ParseNatText(n);
    NatTextLeads(n);
    if SpellsNat(t, n) {
      var front, last := t[..|t| - 1], t[|t| - 1];
      assert t == front + [last];
      if front == "" {
        assert ParseNat(front) == 0;
      } else {
        PositiveNumeral(front);
        NatTextSpells(front, n / 10);
      }
    }
  }

  lemma IntTextSpells(t: string, n: int)
    ensures SpellsInt(t, n) <==> t == IntText(n)
  {
    if n < 0 {
      if t != "" { NatTextSpells(t[1..], -n); }
      NatTextSpells(NatText(-n), -n);
      assert IntText(n)[1..] == NatText(-n);
      if SpellsInt(t, n) { assert t == "-" + t[1..]; }
    } else {
      NatTextSpells(t, n);
    }
  }

  // ---- Values ----

  /** "name":value, nothing between. */
  ghost predicate WritesMember(name: string, value: string, ascii: bool, text: string)
  {
    exists quoted :: WritesString(name, ascii, quoted) && text == quoted + ":" + value
  }

  /** The members of an object, each with the text of its value, between braces. */
  ghost predicate WritesMembers(names: seq<string>, values: seq<string>, ascii: bool, text: string)
    requires |values| == |names|
  {
    exists members: seq<string> {:trigger Join(members, ',')} ::
      && |members| == |names| && (forall i :: 0 <= i < |names| ==> WritesMember(names[i], values[i], ascii, members[i]))
      && text == "{" + Join(members, ',') + "}"
  }

  /** The names of an object in strictly increasing order. */
  ghost predicate Ordered(names: seq<string>, m: Document)
  {
    StrictlyIncreasing(names) && forall k :: k in names <==> k in m
  }

  /** text is the canonical form of j. */
  ghost predicate Writes(j: Json, ascii: bool, text: string)
    decreases j
  {
    match j
    case Null => text == "null"
    case Bool(b) => text == if b then "true" else "false"
    case Int(n) => SpellsInt(text, n)
    case Float(r) => text == r
    case Str(s) => WritesString(s, ascii, text)
    case Arr(items) =>
      exists texts: seq<string> {:trigger Join(texts, ',')} ::
        && |texts| == |items| && (forall i | 0 <= i < |items| :: Writes(items[i], ascii, texts[i]))
        && text == "[" + Join(texts, ',') + "]"
    case Obj(m) =>
      exists names: seq<string>, values: seq<string> {:trigger Ordered(names, m), |values|} ::
        && Ordered(names, m) && |values| == |names|
        && (forall i | 0 <= i < |names| :: names[i] in m && Writes(m[names[i]], ascii, values[i]))
        && WritesMembers(names, values, ascii, text)
  }

  function ItemTexts(j: Json, ascii: bool): seq<string>
    requires j.Arr?
  {
    seq(|j.items|, i requires 0 <= i < |j.items| => Print(j.items[i], ascii))
  }

  lemma JoinCons(x: string, rest: seq<string>)
    ensures Join([x] + rest, ',') == x + (if rest == [] then "" else ",") + Join(rest, ',')
  {
    assert ([x] + rest)[1..] == rest;
  }

  lemma RegroupItem(sep: string, v: string, comma: string, rest: string, end: string)
    ensures sep + v + (comma + rest + end) == sep + (v + comma + rest) + end
  {
  }

  lemma {:induction false} ItemsJoined(j: Json, i: nat, ascii: bool)
    requires j.Arr? && i <= |j.items|
    ensures PrintItems(j, i, ascii)
         == (if 0 < i < |j.items| then "," else "") + Join(ItemTexts(j, ascii)[i..], ',') + "]"
    decreases |j.items| - i
  {
    if i < |j.items| {
      ItemsJoined(j, i + 1, ascii);
      var v, rest := Print(j.items[i], ascii), ItemTexts(j, ascii)[i + 1..];
      assert ItemTexts(j, ascii)[i..] == [v] + rest;
      JoinCons(v, rest);
      RegroupItem(Separator(i == 0), v, if rest == [] then "" else ",", Join(rest, ','), "]");
    }
  }

  function Values(j: Json, keys: seq<string>, ascii: bool): seq<string>
    requires j.Obj? && forall k :: k in keys ==> k in j.members
  {
    seq(|keys|, i requires 0 <= i < |keys| => assert keys[i] in keys; Print(j.members[keys[i]], ascii))
  }

  function MemberTexts(names: seq<string>, values: seq<string>, ascii: bool): seq<string>
    requires |values| == |names|
  {
    seq(|names|, i requires 0 <= i < |names| => Quote(names[i], ascii) + ":" + values[i])
  }

  lemma Regroup(sep: string, q: string, v: string, comma: string, rest: string, end: string)
    ensures sep + q + ":" + v + (comma + rest + end) == sep + ((q + ":" + v) + comma + rest) + end
  {
  }

  lemma {:induction false} MembersJoined(j: Json, keys: seq<string>, first: bool, ascii: bool)
    requires j.Obj? && forall k :: k in keys ==> k in j.members
    ensures PrintMembers(j, keys, first, ascii)
         == (if first || keys == [] then "" else ",")
            + Join(MemberTexts(keys, Values(j, keys, ascii), ascii), ',') + "}"
    decreases |keys|
  {
    if keys != [] {
      MembersJoined(j, keys[1..], false, ascii);
      var q, v := Quote(keys[0], ascii), Print(j.members[keys[0]], ascii);
      var rest := MemberTexts(keys[1..], Values(j, keys[1..], ascii), ascii);
      assert MemberTexts(keys, Values(j, keys, ascii), ascii) == [q + ":" + v] + rest;
      JoinCons(q + ":" + v, rest);
      Regroup(Separator(first), q, v, if rest == [] then "" else ",", Join(rest, ','), "}");
    }
  }

  lemma MemberWrites(name: string, value: string, ascii: bool, text: string)
    ensures WritesMember(name, value, ascii, text) <==> text == Quote(name, ascii) + ":" + value
  {
    QuoteWrites(name, ascii, Quote(name, ascii));
    if WritesMember(name, value, ascii, text) {
      var quoted :| WritesString(name, ascii, quoted) && text == quoted + ":" + value;
      QuoteWrites(name, ascii, quoted);
    }
  }

  lemma MembersWrite(names: seq<string>, values: seq<string>, ascii: bool, text: string)
    requires |values| == |names|
    ensures WritesMembers(names, values, ascii, text) <==>
      text == "{" + Join(MemberTexts(names, values, ascii), ',') + "}"
  {
    var texts := MemberTexts(names, values, ascii);
    forall i, t | 0 <= i < |names| ensures WritesMember(names[i], values[i], ascii, t) <==> t == texts[i] {
      MemberWrites(names[i], values[i], ascii, t);
    }
    if WritesMembers(names, values, ascii, text) {
      var members: seq<string> :| |members| == |names|
        && (forall i :: 0 <= i < |names| ==> WritesMember(names[i], values[i], ascii, members[i]))
        && text == "{" + Join(members, ',') + "}";
      assert members == texts;
    }
  }

  lemma ArrayIs(j: Json, ascii: bool, text: string)
    requires j.Arr?
    requires forall i, t :: 0 <= i < |j.items| ==> (Writes(j.items[i], ascii, t) <==> t == Print(j.items[i], ascii))
    ensures Writes(j, ascii, text) <==> text == Print(j, ascii)
  {
    var texts := ItemTexts(j, ascii);
    ItemsJoined(j, 0, ascii);
    assert texts[0..] == texts;
    assert Print(j, ascii) == "[" + Join(texts, ',') + "]";
    if Writes(j, ascii, text) {
      var written: seq<string> :| |written| == |j.items|
        && (forall i | 0 <= i < |j.items| :: Writes(j.items[i], ascii, written[i]))
        && text == "[" + Join(written, ',') + "]";
      assert written == texts;
    }
  }

  ghost predicate MembersPrint(m: Document, ascii: bool)
  {
    forall k, t :: k in m ==> (Writes(m[k], ascii, t) <==> t == Print(m[k], ascii))
  }

  lemma ObjectText(j: Json, ascii: bool)
    requires j.Obj?
    ensures var names := SortedKeys(j.members.Keys);
      Print(j, ascii) == "{" + Join(MemberTexts(names, Values(j, names, ascii), ascii), ',') + "}"
  {
    MembersJoined(j, SortedKeys(j.members.Keys), true, ascii);
  }

  lemma PrintedObject(j: Json, ascii: bool)
    requires j.Obj? && MembersPrint(j.members, ascii)
    ensures Writes(j, ascii, Print(j, ascii))
  {
    var m, names := j.members, SortedKeys(j.members.Keys);
    var values := Values(j, names, ascii);
    SortedKeysIncrease(m.Keys);
    ObjectText(j, ascii);
    MembersWrite(names, values, ascii, Print(j, ascii));
    forall i | 0 <= i < |names| ensures names[i] in m && Writes(m[names[i]], ascii, values[i]) {
      assert names[i] in names;
    }
    assert Ordered(names, m) && |values| == |names|;
  }

  lemma WrittenParts(j: Json, ascii: bool, text: string) returns (names: seq<string>, values: seq<string>)
    requires j.Obj? && Writes(j, ascii, text)
    ensures Ordered(names, j.members) && |values| == |names| && WritesMembers(names, values, ascii, text)
    ensures forall i :: 0 <= i < |names| ==> names[i] in j.members && Writes(j.members[names[i]], ascii, values[i])
  {
    var m := j.members;
    names, values :|
      && Ordered(names, m) && |values| == |names|
      && (forall i | 0 <= i < |names| :: names[i] in m && Writes(m[names[i]], ascii, values[i]))
      && WritesMembers(names, values, ascii, text);
  }

  lemma WrittenObject(j: Json, ascii: bool, text: string)
    requires j.Obj? && MembersPrint(j.members, ascii) && Writes(j, ascii, text)
    ensures text == Print(j, ascii)
  {
    var names, values := WrittenParts(j, ascii, text);
    assert forall i :: 0 <= i < |names| ==> values[i] == Print(j.members[names[i]], ascii);
    PartsPrint(j, names, values, ascii, text);
  }

  lemma PartsPrint(j: Json, names: seq<string>, values: seq<string>, ascii: bool, text: string)
    requires j.Obj? && Ordered(names, j.members) && |values| == |names| && WritesMembers(names, values, ascii, text)
    requires forall i :: 0 <= i < |names| ==> names[i] in j.members && values[i] == Print(j.members[names[i]], ascii)
    ensures text == Print(j, ascii)
  {
    SortedKeysIncrease(j.members.Keys);
    IncreasingUnique(names, SortedKeys(j.members.Keys));
    assert values == Values(j, names, ascii);
    MembersWrite(names, values, ascii, text);
    ObjectText(j, ascii);
  }

  /** The printer writes exactly the canonical form. */
  lemma {:induction false} PrintIsCanonical(j: Json, ascii: bool, text: string)
    requires WellFormed(j)
    ensures Writes(j, ascii, text) <==> text == Print(j, ascii)
    decreases j
  {
    match j
    case Int(n) => IntTextSpells(text, n);
    case Str(s) => QuoteWrites(s, ascii, text);
    case Arr(items) =>
      forall i, t | 0 <= i < |items| ensures Writes(items[i], ascii, t) <==> t == Print(items[i], ascii) {
        assert items[i] in items;
        PrintIsCanonical(items[i], ascii, t);
      }
      ArrayIs(j, ascii, text);
    case Obj(m) =>
      forall k, t | k in m ensures Writes(m[k], ascii, t) <==> t == Print(m[k], ascii) {
        PrintIsCanonical(m[k], ascii, t);
      }
      PrintedObject(j, ascii);
      if Writes(j, ascii, text) { WrittenObject(j, ascii, text); }
    case _ =>
  }

  lemma UnsignedIsCanonical(doc: Document, field: string, text: string)
    requires WellFormed(Obj(doc))
    ensures Writes(Obj(doc - {field}), false, text) <==> text == Unsigned(doc, field)
  {
    PrintIsCanonical(Obj(doc - {field}), false, text);
  }

  /** A self-digest is accepted exactly when it is the digest of the document without that field, in
      the canonical form that is not reduced to ASCII. */
  lemma DigestIsOfCanonicalForm(H: Hash, doc: Document, field: string, text: string)
    requires WellFormed(Obj(doc)) && Writes(Obj(doc - {field}), false, text)
    ensures VerifySelfDigest(H, doc, field).Ok? <==>
      Get(doc, field).Str? && Hex64(Get(doc, field).text) && Get(doc, field).text == H(text)
  {
    UnsignedIsCanonical(doc, field, text);
  }
}
