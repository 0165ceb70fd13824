/** One-to-one matchings between two finite sets of names, and Hall's condition for one to exist. */
module Matching {

  /** pairs gives each name of from a partner of its own in to. */
  ghost predicate Matches(pairs: map<string, string>, from: set<string>, to: set<string>,
                          fits: (string, string) -> bool)
  {
    && pairs.Keys == from
    && (forall p :: p in pairs ==> pairs[p] in to && fits(p, pairs[p]))
    && (forall p, q :: p in pairs && q in pairs && p != q ==> pairs[p] != pairs[q])
  }

  ghost function Partners(from: set<string>, to: set<string>, fits: (string, string) -> bool): set<string>
  {
    set t | t in to && exists p :: p in from && fits(p, t)
  }

  ghost predicate EnoughFor(part: set<string>, to: set<string>, fits: (string, string) -> bool)
  {
    |part| <= |Partners(part, to, fits)|
  }

  /** Every part of from has at least as many partners as members. */
  ghost predicate Enough(from: set<string>, to: set<string>, fits: (string, string) -> bool)
  {
    forall part {:trigger EnoughFor(part, to, fits)} :: part <= from ==> EnoughFor(part, to, fits)
  }

  lemma {:induction false} SubsetSize(a: set<string>, b: set<string>)
    requires a <= b
    ensures |a| <= |b| && (|a| == |b| ==> a == b)
    decreases |b|
  {
    if b != {} {
      var x :| x in b;
      SubsetSize(a - {x}, b - {x});
      assert x in a ==> a == (a - {x}) + {x};
      assert x !in a ==> a == a - {x};
      assert b == (b - {x}) + {x};
    }
  }

  lemma {:induction false} ImageSize(pairs: map<string, string>, part: set<string>, to: set<string>)
    requires part <= pairs.Keys && forall p :: p in part ==> pairs[p] in to
    requires forall p, q :: p in part && q in part && p != q ==> pairs[p] != pairs[q]
    ensures |part| <= |to|
    decreases |part|
  {
    if part != {} {
      var p :| p in part;
      ImageSize(pairs, part - {p}, to - {pairs[p]});
    }
  }

  lemma MatchedIsEnough(pairs: map<string, string>, from: set<string>, to: set<string>, fits: (string, string) -> bool)
    requires Matches(pairs, from, to, fits)
    ensures Enough(from, to, fits)
  {
    forall part | part <= from ensures EnoughFor(part, to, fits) {
      ImageSize(pairs, part, Partners(part, to, fits));
    }
  }

  // A part with exactly as many partners as members, neither empty nor all of from.
  ghost predicate Tightest(part: set<string>, from: set<string>, to: set<string>, fits: (string, string) -> bool)
  {
    part < from && part != {} && |Partners(part, to, fits)| == |part|
  }

  lemma TightPart(part: set<string>, from: set<string>, to: set<string>, fits: (string, string) -> bool)
    requires Enough(from, to, fits) && part <= from
    ensures Enough(part, Partners(part, to, fits), fits)
  {
    forall less | less <= part ensures EnoughFor(less, Partners(part, to, fits), fits) {
      assert EnoughFor(less, to, fits);
      assert Partners(less, Partners(part, to, fits), fits) == Partners(less, to, fits);
    }
  }

  lemma OtherPart(part: set<string>, from: set<string>, to: set<string>, fits: (string, string) -> bool)
    requires Enough(from, to, fits) && Tightest(part, from, to, fits)
    ensures Enough(from - part, to - Partners(part, to, fits), fits)
  {
    var taken := Partners(part, to, fits);
    forall more | more <= from - part ensures EnoughFor(more, to - taken, fits) {
      assert EnoughFor(part + more, to, fits);
      assert Partners(part + more, to, fits) == taken + Partners(more, to - taken, fits);
      assert |part + more| == |part| + |more|;
      assert |taken + Partners(more, to - taken, fits)| == |taken| + |Partners(more, to - taken, fits)|;
    }
  }

  lemma OneLess(from: set<string>, to: set<string>, fits: (string, string) -> bool, p: string, t: string)
    requires Enough(from, to, fits) && p in from && forall part :: !Tightest(part, from, to, fits)
    ensures Enough(from - {p}, to - {t}, fits)
  {
    forall part | part <= from - {p} ensures EnoughFor(part, to - {t}, fits) {
      assert EnoughFor(part, to, fits);
      assert Partners(part, to - {t}, fits) == Partners(part, to, fits) - {t};
      assert part < from;
      assert part != {} ==> !Tightest(part, from, to, fits);
    }
  }

  lemma MatchesBoth(inner: map<string, string>, part: set<string>, taken: set<string>,
                    outer: map<string, string>, from: set<string>, to: set<string>, fits: (string, string) -> bool)
    requires Matches(inner, part, taken, fits) && Matches(outer, from - part, to - taken, fits)
    requires part <= from && taken <= to
    ensures Matches(inner + outer, from, to, fits)
  {
    var pairs := inner + outer;
    assert pairs.Keys == from;
    forall p | p in pairs ensures pairs[p] == if p in part then inner[p] else outer[p] {
    }
  }

  lemma MatchesMore(rest: map<string, string>, from: set<string>, to: set<string>, fits: (string, string) -> bool,
                    p: string, t: string)
    requires Matches(rest, from, to, fits) && p !in from && t !in to && fits(p, t)
    ensures Matches(rest[p := t], from + {p}, to + {t}, fits)
  {
  }

  lemma SomePartner(from: set<string>, to: set<string>, fits: (string, string) -> bool, p: string) returns (t: string)
    requires Enough(from, to, fits) && p in from
    ensures t in to && fits(p, t)
  {
    assert EnoughFor({p}, to, fits);
    t :| t in Partners({p}, to, fits);
  }

  lemma {:induction false} MatchParts(part: set<string>, taken: set<string>, from: set<string>, to: set<string>,
                                      fits: (string, string) -> bool) returns (pairs: map<string, string>)
    requires Enough(part, taken, fits) && Enough(from - part, to - taken, fits)
    requires part < from && part != {} && taken <= to
    ensures Matches(pairs, from, to, fits)
    decreases |from|, 0
  {
    Smaller(part, from);
    var inner := EnoughMatches(part, taken, fits);
    var outer := EnoughMatches(from - part, to - taken, fits);
    MatchesBoth(inner, part, taken, outer, from, to, fits);
    pairs := inner + outer;
  }

  lemma Smaller(part: set<string>, from: set<string>)
    requires part < from && part != {}
    ensures |part| < |from| && |from - part| < |from|
  {
    SubsetSize(part, from);
    SubsetSize(from - part, from);
    var x :| x in part;
    assert x !in from - part;
  }

  lemma {:induction false} MatchOne(p: string, from: set<string>, to: set<string>, fits: (string, string) -> bool)
    returns (pairs: map<string, string>)
    requires Enough(from, to, fits) && p in from && forall part :: !Tightest(part, from, to, fits)
    ensures Matches(pairs, from, to, fits)
    decreases |from|, 0
  {
    var t := SomePartner(from, to, fits, p);
    OneLess(from, to, fits, p, t);
    var rest := EnoughMatches(from - {p}, to - {t}, fits);
    MatchesMore(rest, from - {p}, to - {t}, fits, p, t);
    assert (from - {p}) + {p} == from && (to - {t}) + {t} == to;
    pairs := rest[p := t];
  }

  /** Hall's condition gives a matching: split at a tight part, or pair any name with any partner. */
  lemma {:induction false} EnoughMatches(from: set<string>, to: set<string>, fits: (string, string) -> bool)
    returns (pairs: map<string, string>)
    requires Enough(from, to, fits)
    ensures Matches(pairs, from, to, fits)
    decreases |from|, 1
  {
    if from == {} {
      pairs := map[];
    } else if part :| Tightest(part, from, to, fits) {
      TightPart(part, from, to, fits);
      OtherPart(part, from, to, fits);
      pairs := MatchParts(part, Partners(part, to, fits), from, to, fits);
    } else {
      var p :| p in from;
      pairs := MatchOne(p, from, to, fits);
    }
  }

  /** Hall's theorem: a matching exists exactly when every part has enough partners. */
  lemma MatchingIff(from: set<string>, to: set<string>, fits: (string, string) -> bool)
    ensures (exists pairs :: Matches(pairs, from, to, fits)) <==> Enough(from, to, fits)
  {
    if pairs :| Matches(pairs, from, to, fits) { MatchedIsEnough(pairs, from, to, fits); }
    if Enough(from, to, fits) { var pairs := EnoughMatches(from, to, fits); }
  }
}
