/** Strings as the release tooling sees them: code-point order, stable sorting by
    a string key, decimal numerals and substring search. */
module Text {

  // ---- Code-point lexicographic order (the order of sorted() on str) ----

  predicate Less(a: string, b: string)
  {
    if b == "" then false
    else if a == "" then true
    else a[0] < b[0] || (a[0] == b[0] && Less(a[1..], b[1..]))
  }

  lemma {:induction false} LessIrreflexive(a: string)
    ensures !Less(a, a)
  {
    if a != "" { LessIrreflexive(a[1..]); }
  }

  lemma {:induction false} LessTransitive(a: string, b: string, c: string)
    requires Less(a, b) && Less(b, c)
    ensures Less(a, c)
  {
    if a != "" && a[0] == b[0] == c[0] { LessTransitive(a[1..], b[1..], c[1..]); }
  }

  lemma {:induction false} LessTrichotomy(a: string, b: string)
    ensures Less(a, b) || a == b || Less(b, a)
  {
    if a != "" && b != "" && a[0] == b[0] {
      LessTrichotomy(a[1..], b[1..]);
      assert a == [a[0]] + a[1..] && b == [b[0]] + b[1..];
    }
  }

  lemma LessAsymmetric(a: string, b: string)
    requires Less(a, b)
    ensures !Less(b, a)
  {
    if Less(b, a) { LessTransitive(a, b, a); LessIrreflexive(a); }
  }

  // a <= b <= c implies a <= c, where x <= y is !Less(y, x)
  lemma AtMostTransitive(a: string, b: string, c: string)
    requires !Less(b, a) && !Less(c, b)
    ensures !Less(c, a)
  {
    LessTrichotomy(a, b);
    LessTrichotomy(b, c);
    if Less(c, a) {
      if a == b || b == c { } else { LessTransitive(a, b, c); LessAsymmetric(a, c); }
    }
  }

  /** a is a proper prefix of b, or has the smaller code point where they first differ. */
  lemma {:induction false} LessIff(a: string, b: string)
    ensures Less(a, b) <==> a < b || exists i: nat :: DiffersAt(a, b, i) && a[i] < b[i]
  {
    if a != "" && b != "" {
      LessIff(a[1..], b[1..]);
      if a[0] == b[0] {
        forall i: nat | i > 0 ensures DiffersAt(a, b, i) <==> DiffersAt(a[1..], b[1..], i - 1) {
          assert i < |a| && i < |b| ==> (a[..i] == b[..i] <==> a[1..][..i - 1] == b[1..][..i - 1]) by {
            if i < |a| && i < |b| { assert a[..i] == [a[0]] + a[1..][..i - 1] && b[..i] == [b[0]] + b[1..][..i - 1]; }
          }
        }
        assert a < b <==> a[1..] < b[1..] by { assert a == [a[0]] + a[1..] && b == [b[0]] + b[1..]; }
        if i: nat :| DiffersAt(a[1..], b[1..], i) && a[1..][i] < b[1..][i] { assert DiffersAt(a, b, i + 1); }
      } else {
        assert DiffersAt(a, b, 0);
      }
    }
  }

  /** Position i is the first where the strings differ. */
  predicate DiffersAt(a: string, b: string, i: nat)
  {
    i < |a| && i < |b| && a[..i] == b[..i] && a[i] != b[i]
  }

  // ---- Stable sort of (key, value) rows by key ----

  function Insert<V>(row: (string, V), rows: seq<(string, V)>): seq<(string, V)>
  {
    if rows == [] || !Less(rows[0].0, row.0) then [row] + rows
    else [rows[0]] + Insert(row, rows[1..])
  }

  function Sort<V>(rows: seq<(string, V)>): seq<(string, V)>
  {
    if rows == [] then [] else Insert(rows[0], Sort(rows[1..]))
  }

  ghost predicate Sorted<V>(rows: seq<(string, V)>)
  {
    forall i, j :: 0 <= i < j < |rows| ==> !Less(rows[j].0, rows[i].0)
  }

  ghost predicate StrictlySorted<V>(rows: seq<(string, V)>)
  {
    forall i, j :: 0 <= i < j < |rows| ==> Less(rows[i].0, rows[j].0)
  }

  ghost predicate DistinctKeys<V>(rows: seq<(string, V)>)
  {
    forall i, j :: 0 <= i < j < |rows| ==> rows[i].0 != rows[j].0
  }

  lemma {:induction false} InsertPermutes<V>(row: (string, V), rows: seq<(string, V)>)
    ensures multiset(Insert(row, rows)) == multiset(rows) + multiset{row}
  {
    if rows != [] && Less(rows[0].0, row.0) {
      InsertPermutes(row, rows[1..]);
      assert rows == [rows[0]] + rows[1..];
    }
  }

  lemma {:induction false} SortPermutes<V>(rows: seq<(string, V)>)
    ensures multiset(Sort(rows)) == multiset(rows)
    ensures |Sort(rows)| == |rows|
  {
    if rows != [] {
      SortPermutes(rows[1..]);
      InsertPermutes(rows[0], Sort(rows[1..]));
      assert rows == [rows[0]] + rows[1..];
    }
    assert |multiset(Sort(rows))| == |Sort(rows)| && |multiset(rows)| == |rows|;
  }

  lemma {:induction false} InsertSorts<V>(row: (string, V), rows: seq<(string, V)>)
    requires Sorted(rows)
    ensures Sorted(Insert(row, rows))
  {
    var r := Insert(row, rows);
    if rows == [] {
    } else if !Less(rows[0].0, row.0) {
      forall j | 0 < j < |r| ensures !Less(r[j].0, r[0].0) {
        assert r[j] == rows[j - 1];
        LessIrreflexive(rows[0].0);
        AtMostTransitive(row.0, rows[0].0, rows[j - 1].0);
      }
    } else {
      var tail := Insert(row, rows[1..]);
      InsertSorts(row, rows[1..]);
      InsertPermutes(row, rows[1..]);
      forall j | 0 < j < |r| ensures !Less(r[j].0, r[0].0) {
        assert r[j] == tail[j - 1] && tail[j - 1] in multiset(tail);
        LessAsymmetric(rows[0].0, row.0);
        if tail[j - 1] != row {
          assert tail[j - 1] in rows[1..];
        }
      }
    }
  }

  lemma {:induction false} SortSorts<V>(rows: seq<(string, V)>)
    ensures Sorted(Sort(rows))
  {
    if rows != [] {
      SortSorts(rows[1..]);
      InsertSorts(rows[0], Sort(rows[1..]));
    }
  }

  // Taking the first element of one permutation out of the other leaves permutations.
  lemma TakeOut<T>(a: seq<T>, b: seq<T>, j: nat)
    requires multiset(a) == multiset(b) && a != [] && j < |b| && b[j] == a[0]
    ensures multiset(a[1..]) == multiset(b[..j] + b[j + 1..])
    ensures b == b[..j] + ([a[0]] + b[j + 1..])
  {
    assert a == [a[0]] + a[1..];
    assert b == b[..j] + ([a[0]] + b[j + 1..]);
    assert multiset(a) == multiset{a[0]} + multiset(a[1..]);
    assert multiset(b) == multiset(b[..j]) + (multiset{a[0]} + multiset(b[j + 1..]));
    assert multiset(a[1..]) == multiset(a) - multiset{a[0]};
    assert multiset(b[..j] + b[j + 1..]) == multiset(b[..j]) + multiset(b[j + 1..]) == multiset(b) - multiset{a[0]};
  }

  lemma {:induction false} DistinctOnce<V>(rows: seq<(string, V)>, row: (string, V))
    requires DistinctKeys(rows)
    ensures multiset(rows)[row] <= 1
  {
    if rows != [] {
      DistinctOnce(rows[1..], row);
      assert rows == [rows[0]] + rows[1..];
      assert row == rows[0] ==> row !in rows[1..];
    }
  }

  lemma TwiceCounts<T>(rows: seq<T>, i: nat, j: nat)
    requires i < j < |rows| && rows[i] == rows[j]
    ensures multiset(rows)[rows[i]] >= 2
  {
    assert rows == rows[..j] + ([rows[j]] + rows[j + 1..]);
    assert rows[..j][i] in rows[..j];
  }

  lemma PermutationKeepsDistinctKeys<V>(a: seq<(string, V)>, b: seq<(string, V)>)
    requires multiset(a) == multiset(b) && DistinctKeys(a)
    ensures DistinctKeys(b)
  {
    forall i, j | 0 <= i < j < |b| ensures b[i].0 != b[j].0 {
      DistinctOnce(a, b[i]);
      if b[i] == b[j] {
        TwiceCounts(b, i, j);
      } else {
        assert b[i] in multiset(a) && b[j] in multiset(a);
        var m :| 0 <= m < |a| && a[m] == b[i];
        var n :| 0 <= n < |a| && a[n] == b[j];
      }
    }
  }

  lemma SortStrict<V>(rows: seq<(string, V)>)
    requires DistinctKeys(rows)
    ensures StrictlySorted(Sort(rows))
  {
    SortSorts(rows);
    SortPermutes(rows);
    PermutationKeepsDistinctKeys(rows, Sort(rows));
    forall i, j | 0 <= i < j < |Sort(rows)| ensures Less(Sort(rows)[i].0, Sort(rows)[j].0) {
      LessTrichotomy(Sort(rows)[i].0, Sort(rows)[j].0);
    }
  }

  // Strictly sorted sequences are determined by their elements.
  lemma {:induction false} StrictlySortedUnique<V>(a: seq<(string, V)>, b: seq<(string, V)>)
    requires StrictlySorted(a) && StrictlySorted(b)
    requires forall row :: row in a <==> row in b
    ensures a == b
  {
    assert a != [] ==> a[0] in b;
    assert b != [] ==> b[0] in a;
    if a != [] && b != [] {
      HeadsAgree(a, b);
      forall row ensures row in a[1..] <==> row in b[1..] {
        LessIrreflexive(a[0].0);
        assert row in a[1..] <==> row in a && row != a[0];
        assert row in b[1..] <==> row in b && row != b[0];
      }
      StrictlySortedUnique(a[1..], b[1..]);
      assert a == [a[0]] + a[1..] && b == [b[0]] + b[1..];
    }
  }

  lemma HeadsAgree<V>(a: seq<(string, V)>, b: seq<(string, V)>)
    requires StrictlySorted(a) && StrictlySorted(b) && a != [] && b != []
    requires a[0] in b && b[0] in a
    ensures a[0] == b[0]
  {
    var i :| 0 <= i < |b| && b[i] == a[0];
    var j :| 0 <= j < |a| && a[j] == b[0];
    if i > 0 && j > 0 { LessAsymmetric(a[0].0, a[j].0); }
  }

  /** Sorting by distinct keys forgets the input order. */
  lemma SortIgnoresOrder<V>(a: seq<(string, V)>, b: seq<(string, V)>)
    requires DistinctKeys(a) && multiset(a) == multiset(b)
    ensures Sort(a) == Sort(b)
  {
    PermutationKeepsDistinctKeys(a, b);
    SortStrict(a);
    SortStrict(b);
    SortPermutes(a);
    SortPermutes(b);
    assert multiset(Sort(a)) == multiset(Sort(b));
    forall row ensures row in Sort(a) <==> row in Sort(b) {
      assert row in Sort(a) <==> row in multiset(Sort(a));
      assert row in Sort(b) <==> row in multiset(Sort(b));
    }
    StrictlySortedUnique(Sort(a), Sort(b));
  }

  // ---- The sorted keys of a dictionary ----

  lemma {:induction false} MinExists(s: set<string>)
    requires s != {}
    ensures exists k :: k in s && forall j | j in s :: !Less(j, k)
  {
    var x :| x in s;
    LessIrreflexive(x);
    if s == {x} {
      assert x in s && forall j | j in s :: !Less(j, x);
    } else {
      assert s == {x} + (s - {x});
      MinExists(s - {x});
      var k :| k in s - {x} && forall j | j in s - {x} :: !Less(j, k);
      var m := if Less(x, k) then x else k;
      forall j | j in s ensures !Less(j, m) {
        LessTrichotomy(x, k);
        if j != x && m == x { AtMostTransitive(x, k, j) by { LessAsymmetric(x, k); } }
      }
      assert m in s;
    }
  }

  function MinKey(s: set<string>): (k: string)
    requires s != {}
    ensures k in s && forall j | j in s :: !Less(j, k)
  {
    MinExists(s);
    assert forall a, b | a in s && b in s && !Less(a, b) && !Less(b, a) :: a == b by {
      forall a, b | a in s && b in s && !Less(a, b) && !Less(b, a) ensures a == b {
        LessTrichotomy(a, b);
      }
    }
    var k :| k in s && forall j | j in s :: !Less(j, k);
    k
  }

  /** sorted(dict): every key once, in order. */
  function SortedKeys(s: set<string>): (ks: seq<string>)
    ensures forall k :: k in ks <==> k in s
    ensures |ks| == |s|
  {
    if s == {} then []
    else
      var k := MinKey(s);
      [k] + SortedKeys(s - {k})
  }

  ghost predicate StrictlyIncreasing(ids: seq<string>)
  {
    forall i, j :: 0 <= i < j < |ids| ==> Less(ids[i], ids[j])
  }

  lemma {:induction false} SortedKeysIncrease(s: set<string>)
    ensures StrictlyIncreasing(SortedKeys(s))
  {
    if s != {} {
      var k := MinKey(s);
      var rest := SortedKeys(s - {k});
      SortedKeysIncrease(s - {k});
      forall j | 0 <= j < |rest| ensures Less(k, rest[j]) {
        assert rest[j] in rest;
        LessTrichotomy(k, rest[j]);
      }
    }
  }

  /** Increasing lists of the same names are the same list. */
  lemma {:induction false} IncreasingUnique(a: seq<string>, b: seq<string>)
    requires StrictlyIncreasing(a) && StrictlyIncreasing(b) && forall id :: id in a <==> id in b
    ensures a == b
  {
    assert a != [] ==> a[0] in b;
    assert b != [] ==> b[0] in a;
    if a != [] && b != [] {
      FirstAgree(a, b);
      forall id ensures id in a[1..] <==> id in b[1..] {
        LessIrreflexive(a[0]);
        assert id in a[1..] <==> id in a && id != a[0];
        assert id in b[1..] <==> id in b && id != b[0];
      }
      IncreasingUnique(a[1..], b[1..]);
      assert a == [a[0]] + a[1..] && b == [b[0]] + b[1..];
    }
  }

  lemma FirstAgree(a: seq<string>, b: seq<string>)
    requires StrictlyIncreasing(a) && StrictlyIncreasing(b) && a != [] && b != []
    requires a[0] in b && b[0] in a
    ensures a[0] == b[0]
  {
    var i :| 0 <= i < |b| && b[i] == a[0];
    var j :| 0 <= j < |a| && a[j] == b[0];
    if i > 0 && j > 0 { LessAsymmetric(a[0], a[j]); }
  }

  // ---- sorted() on a list of strings ----

  function Rows(names: seq<string>): seq<(string, ())>
  {
    seq(|names|, i requires 0 <= i < |names| => (names[i], ()))
  }

  function Keys(rows: seq<(string, ())>): seq<string>
  {
    seq(|rows|, i requires 0 <= i < |rows| => rows[i].0)
  }

  function SortNames(names: seq<string>): seq<string>
  {
    Keys(Sort(Rows(names)))
  }

  lemma SortNamesKeeps(names: seq<string>)
    ensures |SortNames(names)| == |names|
    ensures forall n :: n in SortNames(names) <==> n in names
  {
    var rows := Rows(names);
    SortPermutes(rows);
    forall n ensures n in SortNames(names) <==> n in names {
      if n in names {
        var i :| 0 <= i < |names| && names[i] == n;
        assert rows[i] in multiset(Sort(rows));
        var k :| 0 <= k < |Sort(rows)| && Sort(rows)[k] == rows[i];
        assert SortNames(names)[k] == n;
      }
      if n in SortNames(names) {
        var k :| 0 <= k < |Sort(rows)| && Sort(rows)[k].0 == n;
        assert Sort(rows)[k] in multiset(rows);
        var i :| 0 <= i < |rows| && rows[i] == Sort(rows)[k];
        assert names[i] == n;
      }
    }
  }

  lemma SortNamesOne(name: string)
    ensures SortNames([name]) == [name]
  {
    SortNamesKeeps([name]);
    assert SortNames([name])[0] in SortNames([name]);
  }

  // ---- Decimal numerals ----

  predicate IsDigit(c: char) { '0' <= c <= '9' }

  function DigitChar(d: nat): (c: char)
    requires d < 10
    ensures IsDigit(c)
  {
    '0' + d as char
  }

  function DigitValue(c: char): nat
    requires IsDigit(c)
  {
    (c - '0') as nat
  }

  predicate AllDigits(s: string) { forall i :: 0 <= i < |s| ==> IsDigit(s[i]) }

  function NatText(n: nat): (s: string)
    ensures s != "" && AllDigits(s)
  {
    if n < 10 then [DigitChar(n)] else NatText(n / 10) + [DigitChar(n % 10)]
  }

  function IntText(n: int): string
  {
    if n < 0 then "-" + NatText(-n) else NatText(n)
  }

  function ParseNat(s: string): nat
    requires AllDigits(s)
  {
    if s == "" then 0 else ParseNat(s[..|s| - 1]) * 10 + DigitValue(s[|s| - 1])
  }

  lemma {:induction false} ParseNatText(n: nat)
    ensures ParseNat(NatText(n)) == n
  {
    if n >= 10 {
      ParseNatText(n / 10);
      var s := NatText(n);
      assert s[..|s| - 1] == NatText(n / 10);
    }
  }

  lemma IntTextInjective(a: int, b: int)
    requires IntText(a) == IntText(b)
    ensures a == b
  {
    ParseNatText(if a < 0 then -a else a);
    ParseNatText(if b < 0 then -b else b);
    assert IsDigit(NatText(if a < 0 then -a else a)[0]) && IsDigit(NatText(if b < 0 then -b else b)[0]);
    assert a < 0 <==> IntText(a)[0] == '-';
    assert b < 0 <==> IntText(b)[0] == '-';
    if a < 0 { assert IntText(a)[1..] == IntText(b)[1..]; }
  }

  // ---- Substrings ----

  predicate StartsWith(s: string, prefix: string)
  {
    prefix <= s
  }

  predicate Contains(s: string, sub: string)
  {
    StartsWith(s, sub) || (s != "" && Contains(s[1..], sub))
  }

  /** str.count: occurrences that do not overlap, left to right. */
  function Count(s: string, sub: string): nat
    requires sub != ""
    decreases |s|
  {
    if s == "" then 0
    else if StartsWith(s, sub) then 1 + Count(s[|sub|..], sub)
    else Count(s[1..], sub)
  }

  /** The substring stands at position i. */
  predicate Occurs(s: string, sub: string, i: nat)
  {
    i + |sub| <= |s| && s[i..i + |sub|] == sub
  }

  lemma OccursLater(s: string, sub: string, n: nat, i: nat)
    requires n <= |s|
    ensures Occurs(s[n..], sub, i) <==> Occurs(s, sub, n + i)
  {
    if n + i + |sub| <= |s| { assert s[n..][i..i + |sub|] == s[n + i..n + i + |sub|]; }
  }

  lemma {:induction false} ContainsIff(s: string, sub: string)
    ensures Contains(s, sub) <==> exists i: nat :: Occurs(s, sub, i)
  {
    assert StartsWith(s, sub) <==> Occurs(s, sub, 0);
    if s != "" && !StartsWith(s, sub) {
      ContainsIff(s[1..], sub);
      if i: nat :| Occurs(s[1..], sub, i) {
        OccursLater(s, sub, 1, i);
        assert Occurs(s, sub, 1 + i);
      }
      if i: nat :| Occurs(s, sub, i) {
        OccursLater(s, sub, 1, i - 1);
        assert Occurs(s[1..], sub, i - 1);
      }
    }
  }

  /** Occurrences one after the other, from position i on, without overlap. */
  ghost predicate Separate(s: string, sub: string, at: seq<nat>, i: nat)
  {
    && (forall k :: 0 <= k < |at| ==> i <= at[k] && Occurs(s, sub, at[k]))
    && forall k, m :: 0 <= k < m < |at| ==> at[k] + |sub| <= at[m]
  }

  lemma {:induction false} CountReached(s: string, sub: string, i: nat) returns (at: seq<nat>)
    requires sub != "" && i <= |s|
    ensures Separate(s, sub, at, i) && |at| == Count(s[i..], sub)
    decreases |s| - i
  {
    var rest := s[i..];
    OccursLater(s, sub, i, 0);
    if rest == "" {
      at := [];
    } else if StartsWith(rest, sub) {
      assert rest[|sub|..] == s[i + |sub|..];
      var more := CountReached(s, sub, i + |sub|);
      at := [i] + more;
    } else {
      assert rest[1..] == s[i + 1..];
      at := CountReached(s, sub, i + 1);
    }
  }

  lemma {:induction false} CountBounds(s: string, sub: string, i: nat, at: seq<nat>)
    requires sub != "" && i <= |s| && Separate(s, sub, at, i)
    ensures |at| <= Count(s[i..], sub)
    decreases |s| - i
  {
    var rest := s[i..];
    OccursLater(s, sub, i, 0);
    if at == [] {
    } else if StartsWith(rest, sub) {
      assert rest[|sub|..] == s[i + |sub|..];
      assert forall k :: 0 <= k < |at| - 1 ==> at[1..][k] == at[k + 1] && at[0] + |sub| <= at[k + 1];
      CountBounds(s, sub, i + |sub|, at[1..]);
    } else {
      assert Occurs(s, sub, at[0]) && at[0] != i;
      assert rest[1..] == s[i + 1..];
      CountBounds(s, sub, i + 1, at);
    }
  }

  /** The count is the greatest number of occurrences that do not overlap. */
  lemma CountIsMost(s: string, sub: string, n: nat)
    requires sub != ""
    ensures Count(s, sub) >= n <==> exists at: seq<nat> :: |at| == n && Separate(s, sub, at, 0)
  {
    assert s[0..] == s;
    var most := CountReached(s, sub, 0);
    if |most| >= n { assert |most[..n]| == n && Separate(s, sub, most[..n], 0); }
    if at: seq<nat> :| |at| == n && Separate(s, sub, at, 0) { CountBounds(s, sub, 0, at); }
  }

  predicate IsHex(c: char) { '0' <= c <= '9' || 'a' <= c <= 'f' }

  /** ^[0-9a-f]{64}$ */
  predicate Hex64(s: string)
  {
    |s| == 64 && forall i :: 0 <= i < 64 ==> IsHex(s[i])
  }
}
