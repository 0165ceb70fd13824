/** Runtime benchmark evidence: nearest-rank percentiles, the summary of raw samples, and
    the SLO verdict.  Durations and rates are exact reals. */
module Benchmark {
  import opened Outcome
  import opened Text

  // ---- Sorting and counting ----

  function InsertReal(x: real, xs: seq<real>): (r: seq<real>)
    ensures |r| == |xs| + 1
  {
    if xs == [] || x <= xs[0] then [x] + xs else [xs[0]] + InsertReal(x, xs[1..])
  }

  function SortReals(xs: seq<real>): (r: seq<real>)
    ensures |r| == |xs|
  {
    if xs == [] then [] else InsertReal(xs[0], SortReals(xs[1..]))
  }

  ghost predicate Ascending(xs: seq<real>)
  {
    forall i, j :: 0 <= i < j < |xs| ==> xs[i] <= xs[j]
  }

  lemma {:induction false} InsertRealPermutes(x: real, xs: seq<real>)
    ensures multiset(InsertReal(x, xs)) == multiset(xs) + multiset{x}
  {
    if xs != [] && x > xs[0] {
      InsertRealPermutes(x, xs[1..]);
      assert xs == [xs[0]] + xs[1..];
    }
  }

  lemma {:induction false} InsertRealSorts(x: real, xs: seq<real>)
    requires Ascending(xs)
    ensures Ascending(InsertReal(x, xs))
  {
    if xs != [] && x > xs[0] {
      InsertRealSorts(x, xs[1..]);
      InsertedAbove(x, xs[1..], xs[0]);
      assert InsertReal(x, xs) == [xs[0]] + InsertReal(x, xs[1..]);
    }
  }

  lemma {:induction false} InsertedAbove(x: real, xs: seq<real>, low: real)
    requires low <= x && forall i :: 0 <= i < |xs| ==> low <= xs[i]
    ensures forall i :: 0 <= i < |xs| + 1 ==> low <= InsertReal(x, xs)[i]
  {
    if xs != [] && x > xs[0] { InsertedAbove(x, xs[1..], low); }
  }

  lemma {:induction false} SortRealsSorts(xs: seq<real>)
    ensures Ascending(SortReals(xs))
    ensures multiset(SortReals(xs)) == multiset(xs)
  {
    if xs != [] {
      SortRealsSorts(xs[1..]);
      InsertRealSorts(xs[0], SortReals(xs[1..]));
      InsertRealPermutes(xs[0], SortReals(xs[1..]));
      assert xs == [xs[0]] + xs[1..];
    }
  }

  /** How many samples are at or below v. */
  function AtMost(xs: seq<real>, v: real): nat
  {
    if xs == [] then 0 else (if xs[0] <= v then 1 else 0) + AtMost(xs[1..], v)
  }

  lemma {:induction false} AtMostAppends(a: seq<real>, b: seq<real>, v: real)
    ensures AtMost(a + b, v) == AtMost(a, v) + AtMost(b, v)
  {
    if a == [] {
      assert a + b == b;
    } else {
      assert (a + b)[1..] == a[1..] + b;
      AtMostAppends(a[1..], b, v);
    }
  }

  lemma {:induction false} InsertCounts(x: real, xs: seq<real>, v: real)
    ensures AtMost(InsertReal(x, xs), v) == (if x <= v then 1 else 0) + AtMost(xs, v)
  {
    if xs != [] && x > xs[0] {
      InsertCounts(x, xs[1..], v);
    } else {
      assert ([x] + xs)[1..] == xs;
    }
  }

  lemma {:induction false} SortKeepsCounts(xs: seq<real>, v: real)
    ensures AtMost(SortReals(xs), v) == AtMost(xs, v)
  {
    if xs != [] {
      SortKeepsCounts(xs[1..], v);
      InsertCounts(xs[0], SortReals(xs[1..]), v);
    }
  }

  /** In ascending order the k-th value (from 0) is at most v exactly when more than k samples are. */
  lemma {:induction false} RankAndCount(xs: seq<real>, k: nat, v: real)
    requires Ascending(xs) && k < |xs|
    ensures xs[k] <= v <==> AtMost(xs, v) > k
  {
    if xs[0] > v {
      AllAbove(xs, v);
    } else if k > 0 {
      RankAndCount(xs[1..], k - 1, v);
    }
  }

  lemma {:induction false} AllAbove(xs: seq<real>, v: real)
    requires forall i :: 0 <= i < |xs| ==> xs[i] > v
    ensures AtMost(xs, v) == 0
  {
    if xs != [] { AllAbove(xs[1..], v); }
  }

  // ---- Percentiles ----

  function Ceiling(x: real): (n: int)
    ensures n as real >= x && (n as real) < x + 1.0
  {
    -((-x).Floor)
  }

  function Rank(n: nat, quantile: real): (k: int)
  {
    Ceiling(quantile * n as real)
  }

  lemma RankInRange(n: nat, quantile: real)
    requires n > 0 && 0.0 < quantile <= 1.0
    ensures 1 <= Rank(n, quantile) <= n
  {
    assert quantile * n as real > 0.0;
    assert quantile * n as real <= n as real;
  }

  function Percentile(sorted: seq<real>, quantile: real): Result<real>
  {
    var _ :- Require(sorted != [], "cannot compute percentile over an empty sample");
    var _ :- Require(0.0 < quantile <= 1.0, "percentile quantile must be in (0, 1]");
    var k := Rank(|sorted|, quantile) - 1;
    RankInRange(|sorted|, quantile);
    Ok(sorted[if k < 0 then 0 else k])
  }

  /** The nearest-rank percentile is the least value with at least ceil(q * n) samples at or
      below it, and it is one of the samples. */
  lemma PercentileIsLeast(xs: seq<real>, quantile: real, v: real)
    requires xs != [] && 0.0 < quantile <= 1.0
    ensures Percentile(SortReals(xs), quantile).Ok?
    ensures var p := Percentile(SortReals(xs), quantile).value;
      && p in xs
      && (p <= v <==> AtMost(xs, v) >= Rank(|xs|, quantile))
  {
    var sorted, k := SortReals(xs), Rank(|xs|, quantile) - 1;
    SortRealsSorts(xs);
    RankInRange(|xs|, quantile);
    assert sorted[k] in multiset(sorted);
    RankAndCount(sorted, k, v);
    SortKeepsCounts(xs, v);
  }

  lemma RankAscends(n: nat, q: real, r: real)
    requires q <= r
    ensures Rank(n, q) <= Rank(n, r)
  {
    assert q * n as real <= r * n as real;
  }

  lemma PercentileAt(sorted: seq<real>, quantile: real)
    requires sorted != [] && 0.0 < quantile <= 1.0
    ensures 1 <= Rank(|sorted|, quantile) <= |sorted|
    ensures Percentile(sorted, quantile) == Ok(sorted[Rank(|sorted|, quantile) - 1])
  {
    RankInRange(|sorted|, quantile);
  }

  lemma PercentilesAscend(sorted: seq<real>, q: real, r: real)
    requires sorted != [] && Ascending(sorted) && 0.0 < q <= r <= 1.0
    ensures Percentile(sorted, q).Ok? && Percentile(sorted, r).Ok?
    ensures sorted[0] <= Percentile(sorted, q).value <= Percentile(sorted, r).value <= sorted[|sorted| - 1]
  {
    PercentileAt(sorted, q);
    PercentileAt(sorted, r);
    RankAscends(|sorted|, q, r);
    AscendingAt(sorted, Rank(|sorted|, q) - 1, Rank(|sorted|, r) - 1);
  }

  lemma AscendingAt(xs: seq<real>, i: nat, j: nat)
    requires Ascending(xs) && i <= j < |xs|
    ensures xs[0] <= xs[i] <= xs[j] <= xs[|xs| - 1]
  {
  }

  // ---- Summaries ----

  datatype Sample = Sample(duration: real, ok: bool)

  datatype Summary = Summary(
    sampleCount: nat, errorCount: nat, errorRate: real, minMs: real, meanMs: real,
    p50: real, p95: real, p99: real, maxMs: real, rate: real)

  function Durations(samples: seq<Sample>): seq<real>
  {
    if samples == [] then [] else [samples[0].duration] + Durations(samples[1..])
  }

  function Errors(samples: seq<Sample>): nat
  {
    if samples == [] then 0 else (if samples[0].ok then 0 else 1) + Errors(samples[1..])
  }

  function Total(xs: seq<real>): real
  {
    if xs == [] then 0.0 else xs[0] + Total(xs[1..])
  }

  predicate Measured(samples: seq<Sample>)
  {
    forall s | s in samples :: s.duration >= 0.0
  }

  function ObservedRate(count: nat, totalMs: real): real
  {
    if totalMs > 0.0 then count as real / (totalMs / 1000.0) else 0.0
  }

  lemma {:induction false} DurationsLength(samples: seq<Sample>)
    ensures |Durations(samples)| == |samples|
    ensures forall i :: 0 <= i < |samples| ==> Durations(samples)[i] == samples[i].duration
  {
    if samples != [] { DurationsLength(samples[1..]); }
  }

  function SummaryOf(samples: seq<Sample>): Result<Summary>
  {
    var _ :- Require(samples != [], "benchmark scenario has no samples");
    var _ :- Require(Measured(samples), "benchmark sample duration_ms must be non-negative");
    var n := |samples|;
    var durations := Durations(samples);
    var ordered, total, errors := SortReals(durations), Total(durations), Errors(samples);
    DurationsLength(samples);
    SortRealsSorts(durations);
    var p50 :- Percentile(ordered, 0.50);
    var p95 :- Percentile(ordered, 0.95);
    var p99 :- Percentile(ordered, 0.99);
    Ok(Summary(n, errors, errors as real / n as real, ordered[0], total / n as real, p50, p95, p99, ordered[n - 1],
               ObservedRate(n, total)))
  }

  lemma {:induction false} DurationsAppend(a: seq<Sample>, s: Sample)
    ensures Durations(a + [s]) == Durations(a) + [s.duration]
    ensures Errors(a + [s]) == Errors(a) + if s.ok then 0 else 1
  {
    if a == [] {
      assert [s][1..] == [];
    } else {
      assert (a + [s])[1..] == a[1..] + [s];
      DurationsAppend(a[1..], s);
    }
  }

  method SummarizeSamples(samples: seq<Sample>) returns (r: Result<Summary>)
    ensures r == SummaryOf(samples)
    ensures r.Ok? <==> samples != [] && Measured(samples)
  {
    if samples == [] { return Err("benchmark scenario has no samples"); }
    var durations: seq<real>, errors: nat := [], 0;
    for i := 0 to |samples|
      invariant durations == Durations(samples[..i]) && errors == Errors(samples[..i])
      invariant forall s :: s in samples[..i] ==> s.duration >= 0.0
    {
      if samples[i].duration < 0.0 { return Err("benchmark sample duration_ms must be non-negative"); }
      assert samples[..i + 1] == samples[..i] + [samples[i]];
      DurationsAppend(samples[..i], samples[i]);
      durations := durations + [samples[i].duration];
      if !samples[i].ok { errors := errors + 1; }
    }
    assert samples[..|samples|] == samples;
    SummaryDefined(samples);
    return SummaryOf(samples);
  }

  lemma SummaryDefined(samples: seq<Sample>)
    requires samples != [] && Measured(samples)
    ensures SummaryOf(samples).Ok?
    ensures var s := SummaryOf(samples).value; var ordered := SortReals(Durations(samples));
      && s.sampleCount == |samples| == |ordered| && s.errorCount == Errors(samples)
      && s.errorRate == Errors(samples) as real / |samples| as real
      && s.p50 == Percentile(ordered, 0.50).value && s.p95 == Percentile(ordered, 0.95).value
      && s.p99 == Percentile(ordered, 0.99).value
      && s.minMs == ordered[0] && s.maxMs == ordered[|ordered| - 1]
      && s.meanMs == Total(Durations(samples)) / |samples| as real
      && s.rate == ObservedRate(|samples|, Total(Durations(samples)))
  {
    DurationsLength(samples);
    SortRealsSorts(Durations(samples));
  }

  lemma {:induction false} TotalBounds(xs: seq<real>, low: real, high: real)
    requires forall i :: 0 <= i < |xs| ==> low <= xs[i] <= high
    ensures low * |xs| as real <= Total(xs) <= high * |xs| as real
  {
    if xs != [] {
      TotalBounds(xs[1..], low, high);
      assert low * |xs| as real == low + low * |xs[1..]| as real;
      assert high * |xs| as real == high + high * |xs[1..]| as real;
    }
  }

  lemma SortedEndsBound(xs: seq<real>)
    requires xs != []
    ensures forall i :: 0 <= i < |xs| ==> SortReals(xs)[0] <= xs[i] <= SortReals(xs)[|xs| - 1]
  {
    SortRealsSorts(xs);
    forall i | 0 <= i < |xs| ensures SortReals(xs)[0] <= xs[i] <= SortReals(xs)[|xs| - 1] {
      assert xs[i] in multiset(SortReals(xs));
    }
  }

  lemma MeanIsBetween(xs: seq<real>, low: real, high: real)
    requires xs != [] && forall i :: 0 <= i < |xs| ==> low <= xs[i] <= high
    ensures low <= Total(xs) / |xs| as real <= high
  {
    var n := |xs| as real;
    TotalBounds(xs, low, high);
    DivideBounds(Total(xs), n, low, high);
  }

  lemma PercentilesOrdered(sorted: seq<real>)
    requires sorted != [] && Ascending(sorted)
    ensures Percentile(sorted, 0.50).Ok? && Percentile(sorted, 0.95).Ok? && Percentile(sorted, 0.99).Ok?
    ensures sorted[0] <= Percentile(sorted, 0.50).value <= Percentile(sorted, 0.95).value
                      <= Percentile(sorted, 0.99).value <= sorted[|sorted| - 1]
  {
    PercentilesAscend(sorted, 0.50, 0.95);
    PercentilesAscend(sorted, 0.95, 0.99);
  }

  /** min <= p50 <= p95 <= p99 <= max and min <= mean <= max; min and max bound every sample. */
  lemma SummaryIsOrdered(samples: seq<Sample>)
    requires SummaryOf(samples).Ok?
    ensures var s := SummaryOf(samples).value;
      && s.minMs <= s.p50 <= s.p95 <= s.p99 <= s.maxMs
      && s.minMs <= s.meanMs <= s.maxMs
      && (forall i :: 0 <= i < |samples| ==> s.minMs <= samples[i].duration <= s.maxMs)
  {
    var xs := Durations(samples);
    SummaryDefined(samples);
    DurationsLength(samples);
    SortRealsSorts(xs);
    PercentilesOrdered(SortReals(xs));
    SortedEndsBound(xs);
    MeanIsBetween(xs, SortReals(xs)[0], SortReals(xs)[|xs| - 1]);
  }

  lemma DivideBounds(total: real, n: real, low: real, high: real)
    requires n > 0.0 && low * n <= total <= high * n
    ensures low <= total / n <= high
  {
    assert total == total / n * n;
  }

  // ---- Order does not matter ----

  lemma {:induction false} CountsFollowMultiset(a: seq<real>, b: seq<real>, v: real)
    requires multiset(a) == multiset(b)
    ensures AtMost(a, v) == AtMost(b, v) && |a| == |b|
  {
    if a == [] {
      assert |multiset(b)| == |b|;
    } else {
      assert a[0] in multiset(b);
      var j :| 0 <= j < |b| && b[j] == a[0];
      TakeOut(a, b, j);
      CountsFollowMultiset(a[1..], b[..j] + b[j + 1..], v);
      AtMostAppends(b[..j], b[j + 1..], v);
      AtMostAppends(b[..j], [a[0]] + b[j + 1..], v);
      assert ([a[0]] + b[j + 1..])[1..] == b[j + 1..];
    }
  }

  lemma SortFollowsMultiset(a: seq<real>, b: seq<real>)
    requires multiset(a) == multiset(b)
    ensures SortReals(a) == SortReals(b)
  {
    var x, y := SortReals(a), SortReals(b);
    SortRealsSorts(a);
    SortRealsSorts(b);
    CountsFollowMultiset(x, y, 0.0);
    forall k | 0 <= k < |x| ensures x[k] == y[k] {
      CountsFollowMultiset(x, y, x[k]);
      CountsFollowMultiset(x, y, y[k]);
      RankAndCount(x, k, x[k]);
      RankAndCount(y, k, x[k]);
      RankAndCount(x, k, y[k]);
      RankAndCount(y, k, y[k]);
    }
  }

  lemma {:induction false} InsertKeepsTotal(x: real, xs: seq<real>)
    ensures Total(InsertReal(x, xs)) == x + Total(xs)
  {
    if xs != [] && x > xs[0] { InsertKeepsTotal(x, xs[1..]); }
  }

  lemma {:induction false} SortKeepsTotal(xs: seq<real>)
    ensures Total(SortReals(xs)) == Total(xs)
  {
    if xs != [] {
      SortKeepsTotal(xs[1..]);
      InsertKeepsTotal(xs[0], SortReals(xs[1..]));
    }
  }

  /** The summary depends on the collection of durations and the error count, not on their order. */
  lemma SummaryIgnoresOrder(a: seq<Sample>, b: seq<Sample>)
    requires SummaryOf(a).Ok? && SummaryOf(b).Ok?
    requires multiset(Durations(a)) == multiset(Durations(b)) && Errors(a) == Errors(b)
    ensures SummaryOf(a) == SummaryOf(b)
  {
    var x, y := Durations(a), Durations(b);
    SummaryDefined(a);
    SummaryDefined(b);
    SortFollowsMultiset(x, y);
    SortKeepsTotal(x);
    SortKeepsTotal(y);
  }

  // ---- The SLO verdict ----

  datatype Thresholds = Thresholds(minimumSamples: real, maxErrorRate: real, maxP95: real, maxP99: real, minRate: real)

  datatype Checks = Checks(minimumSamples: bool, maxErrorRate: bool, maxP95: bool, maxP99: bool, minRate: bool)
  {
    predicate All() { minimumSamples && maxErrorRate && maxP95 && maxP99 && minRate }
  }

  /** The record bundled for a scenario: the verdict, each check, and the thresholds used. */
  datatype Slo = Slo(pass: bool, checks: Checks, thresholds: Thresholds)

  function ChecksOf(s: Summary, t: Thresholds): Checks
  {
    Checks(s.sampleCount as real >= t.minimumSamples, s.errorRate <= t.maxErrorRate, s.p95 <= t.maxP95,
           s.p99 <= t.maxP99, s.rate >= t.minRate)
  }

  predicate Passes(s: Summary, t: Thresholds)
  {
    ChecksOf(s, t).All()
  }

  function EvaluateSlo(scenario: string, s: Summary, policy: map<string, Thresholds>): Result<Slo>
  {
    var _ :- Require(scenario in policy, "SLO policy has no scenario");
    Ok(Slo(Passes(s, policy[scenario]), ChecksOf(s, policy[scenario]), policy[scenario]))
  }

  /** Sample by sample no slower, and successful wherever the original was. */
  ghost predicate Improves(better: seq<Sample>, samples: seq<Sample>)
  {
    && |better| == |samples| && Measured(better)
    && forall i :: 0 <= i < |samples| ==>
         better[i].duration <= samples[i].duration && (samples[i].ok ==> better[i].ok)
  }

  lemma {:induction false} PointwiseDominates(ys: seq<real>, xs: seq<real>, v: real)
    requires |ys| == |xs| && forall i :: 0 <= i < |xs| ==> ys[i] <= xs[i]
    ensures AtMost(ys, v) >= AtMost(xs, v)
    ensures Total(ys) <= Total(xs)
  {
    if xs != [] { PointwiseDominates(ys[1..], xs[1..], v); }
  }

  /** Sorted pointwise domination: lowering samples lowers every percentile. */
  lemma PercentileDominated(ys: seq<real>, xs: seq<real>, quantile: real)
    requires |ys| == |xs| > 0 && 0.0 < quantile <= 1.0
    requires forall i :: 0 <= i < |xs| ==> ys[i] <= xs[i]
    ensures Percentile(SortReals(ys), quantile).Ok? && Percentile(SortReals(xs), quantile).Ok?
    ensures Percentile(SortReals(ys), quantile).value <= Percentile(SortReals(xs), quantile).value
  {
    PercentileIsLeast(xs, quantile, 0.0);
    var p := Percentile(SortReals(xs), quantile).value;
    PercentileIsLeast(xs, quantile, p);
    PointwiseDominates(ys, xs, p);
    PercentileIsLeast(ys, quantile, p);
  }

  lemma {:induction false} FewerErrors(better: seq<Sample>, samples: seq<Sample>)
    requires |better| == |samples| && forall i :: 0 <= i < |samples| ==> (samples[i].ok ==> better[i].ok)
    ensures Errors(better) <= Errors(samples)
  {
    if samples != [] { FewerErrors(better[1..], samples[1..]); }
  }

  lemma DivideMonotone(a: real, b: real, n: real)
    requires n > 0.0 && a <= b
    ensures a / n <= b / n
  {
  }

  lemma RateRises(count: nat, less: real, more: real)
    requires 0.0 < less <= more
    ensures ObservedRate(count, less) >= ObservedRate(count, more)
  {
    var n, x, y := count as real, less / 1000.0, more / 1000.0;
    assert n / y * x <= n / y * y == n;
    assert n / x * x == n;
  }

  lemma {:induction false} TotalNonNegative(samples: seq<Sample>)
    requires Measured(samples)
    ensures Total(Durations(samples)) >= 0.0
  {
    if samples != [] { TotalNonNegative(samples[1..]); }
  }

  /** Improving a passing scenario keeps it passing exactly when some time was still measured or
      no minimum rate is demanded: at total duration zero the observed rate is set to zero. */
  lemma ImprovementKeepsPassing(better: seq<Sample>, samples: seq<Sample>, t: Thresholds)
    requires Improves(better, samples)
    requires SummaryOf(samples).Ok? && Passes(SummaryOf(samples).value, t)
    ensures SummaryOf(better).Ok?
    ensures Passes(SummaryOf(better).value, t) <==> Total(Durations(better)) > 0.0 || t.minRate <= 0.0
  {
    var ys, xs, n := Durations(better), Durations(samples), |samples|;
    SummaryDefined(samples);
    SummaryDefined(better);
    DurationsLength(better);
    DurationsLength(samples);
    PercentileDominated(ys, xs, 0.95);
    PercentileDominated(ys, xs, 0.99);
    PointwiseDominates(ys, xs, 0.0);
    FewerErrors(better, samples);
    DivideMonotone(Errors(better) as real, Errors(samples) as real, n as real);
    TotalNonNegative(better);
    if Total(ys) > 0.0 { RateRises(n, Total(ys), Total(xs)); }
  }

  function Instant(samples: seq<Sample>): (r: seq<Sample>)
    ensures |r| == |samples|
  {
    seq(|samples|, i requires 0 <= i < |samples| => Sample(0.0, samples[i].ok))
  }

  lemma {:induction false} InstantTotal(samples: seq<Sample>)
    requires forall i :: 0 <= i < |samples| ==> samples[i].duration == 0.0
    ensures Total(Durations(samples)) == 0.0
  {
    if samples != [] { InstantTotal(samples[1..]); }
  }

  /** The failing improvements: cut every duration of a passing scenario to zero, and a positive
      minimum rate is missed. */
  lemma InstantScenarioFails(samples: seq<Sample>, t: Thresholds)
    requires SummaryOf(samples).Ok? && Passes(SummaryOf(samples).value, t) && t.minRate > 0.0
    ensures Improves(Instant(samples), samples)
    ensures SummaryOf(Instant(samples)).Ok? && !Passes(SummaryOf(Instant(samples)).value, t)
  {
    forall i | 0 <= i < |samples| ensures Instant(samples)[i].duration <= samples[i].duration {
      assert samples[i] in samples;
    }
    InstantTotal(Instant(samples));
    ImprovementKeepsPassing(Instant(samples), samples, t);
  }

  /** One sample of one second meets a rate of one a second; in no time at all it does not. */
  lemma OneInstantSampleFails()
    ensures var slow, t := [Sample(1000.0, true)], Thresholds(1.0, 0.0, 1000.0, 1000.0, 1.0);
      && SummaryOf(slow).Ok? && Passes(SummaryOf(slow).value, t) && Instant(slow) == [Sample(0.0, true)]
      && SummaryOf([Sample(0.0, true)]).Ok? && !Passes(SummaryOf([Sample(0.0, true)]).value, t)
  {
    var slow, t := [Sample(1000.0, true)], Thresholds(1.0, 0.0, 1000.0, 1000.0, 1.0);
    SummaryDefined(slow);
    DurationsLength(slow);
    assert slow[1..] == [] && Durations(slow) == [1000.0] && [1000.0][1..] == [];
    PercentileAt(SortReals(Durations(slow)), 0.95);
    PercentileAt(SortReals(Durations(slow)), 0.99);
    assert Instant(slow) == [Sample(0.0, true)];
    InstantScenarioFails(slow, t);
  }

  // ---- The bundle over all scenarios ----

  type Measurements = map<string, seq<Sample>>

  type Policy = map<string, Thresholds>

  datatype Scenario = Scenario(summary: Summary, slo: Slo)

  predicate Measurable(raw: Measurements, policy: Policy, name: string)
  {
    name in raw && name in policy && raw[name] != [] && Measured(raw[name])
  }

  function ScenarioOf(raw: Measurements, policy: Policy, name: string): Scenario
    requires Measurable(raw, policy, name)
  {
    SummaryDefined(raw[name]);
    var summary := SummaryOf(raw[name]).value;
    Scenario(summary, EvaluateSlo(name, summary, policy).value)
  }

  /** The bundled scenario is the one its raw samples give. */
  ghost predicate Recomputed(raw: Measurements, policy: Policy, name: string, scenario: Scenario)
  {
    Measurable(raw, policy, name) && scenario == ScenarioOf(raw, policy, name)
  }

  ghost predicate Recomputes(raw: Measurements, policy: Policy, scenarios: map<string, Scenario>)
  {
    && scenarios.Keys == raw.Keys
    && forall name {:trigger Recomputed(raw, policy, name, scenarios[name])} :: name in raw ==>
         Recomputed(raw, policy, name, scenarios[name])
  }

  /** The aggregate verdict: at least one scenario, and all of them pass. */
  ghost predicate AllPass(scenarios: map<string, Scenario>)
  {
    scenarios != map[] && forall name :: name in scenarios ==> scenarios[name].slo.pass
  }

  method RecomputeScenario(raw: Measurements, policy: Policy, name: string) returns (r: Result<Scenario>)
    requires name in raw
    ensures r.Ok? <==> Measurable(raw, policy, name)
    ensures r.Ok? ==> Recomputed(raw, policy, name, r.value)
  {
    var summary := SummarizeSamples(raw[name]);
    if summary.Err? { return Err(summary.reason); }
    var slo := EvaluateSlo(name, summary.value, policy);
    if slo.Err? { return Err(slo.reason); }
    return Ok(Scenario(summary.value, slo.value));
  }

  // What the loop has recomputed after the first i names.
  ghost predicate Progress(raw: Measurements, policy: Policy, names: seq<string>, scenarios: map<string, Scenario>,
                           verdicts: seq<bool>)
  {
    && (forall name :: name in scenarios <==> name in names)
    && (forall name {:trigger Recomputed(raw, policy, name, scenarios[name])} :: name in scenarios ==>
          Recomputed(raw, policy, name, scenarios[name]))
    && Verdicts(names, scenarios, verdicts)
  }

  lemma MoreVerdicts(names: seq<string>, scenarios: map<string, Scenario>, verdicts: seq<bool>, next: string,
                     scenario: Scenario)
    requires Verdicts(names, scenarios, verdicts) && next !in names
    ensures Verdicts(names + [next], scenarios[next := scenario], verdicts + [scenario.slo.pass])
  {
    forall k | 0 <= k < |names| ensures names[k] != next {
      assert names[k] in names;
    }
  }

  lemma MoreProgress(raw: Measurements, policy: Policy, names: seq<string>, scenarios: map<string, Scenario>,
                     verdicts: seq<bool>, next: string, scenario: Scenario)
    requires Progress(raw, policy, names, scenarios, verdicts) && next !in names
    requires Recomputed(raw, policy, next, scenario)
    ensures Progress(raw, policy, names + [next], scenarios[next := scenario], verdicts + [scenario.slo.pass])
  {
    var more := scenarios[next := scenario];
    MoreVerdicts(names, scenarios, verdicts, next, scenario);
    forall name | name in more ensures Recomputed(raw, policy, name, more[name]) {
      assert name != next ==> Recomputed(raw, policy, name, scenarios[name]);
    }
  }

  lemma NewName(s: set<string>, i: nat)
    requires i < |SortedKeys(s)|
    ensures SortedKeys(s)[i] !in SortedKeys(s)[..i]
  {
    SortedKeysIncrease(s);
    LessIrreflexive(SortedKeys(s)[i]);
  }

  lemma NextProgress(raw: Measurements, policy: Policy, names: seq<string>, i: nat, scenarios: map<string, Scenario>,
                     verdicts: seq<bool>, scenario: Scenario)
    requires i < |names| && names[i] !in names[..i] && Progress(raw, policy, names[..i], scenarios, verdicts)
    requires Recomputed(raw, policy, names[i], scenario)
    ensures Progress(raw, policy, names[..i + 1], scenarios[names[i] := scenario], verdicts + [scenario.slo.pass])
  {
    assert names[..i + 1] == names[..i] + [names[i]];
    MoreProgress(raw, policy, names[..i], scenarios, verdicts, names[i], scenario);
  }

  /** The loop over sorted scenarios, with the list of verdicts. */
  method RecomputeAll(raw: Measurements, policy: Policy) returns (r: Result<(map<string, Scenario>, seq<bool>)>)
    ensures r.Ok? <==> forall name :: name in raw ==> Measurable(raw, policy, name)
    ensures r.Ok? ==> Progress(raw, policy, SortedKeys(raw.Keys), r.value.0, r.value.1)
  {
    var names := SortedKeys(raw.Keys);
    var recomputed: map<string, Scenario>, verdicts: seq<bool> := map[], [];
    for i := 0 to |names|
      invariant Progress(raw, policy, names[..i], recomputed, verdicts)
    {
      var name := names[i];
      assert name in names;
      var scenario := RecomputeScenario(raw, policy, name);
      if scenario.Err? { return Err(scenario.reason); }
      NewName(raw.Keys, i);
      NextProgress(raw, policy, names, i, recomputed, verdicts, scenario.value);
      recomputed := recomputed[name := scenario.value];
      verdicts := verdicts + [scenario.value.slo.pass];
    }
    assert names[..|names|] == names;
    ProgressMeasures(raw, policy, names, recomputed, verdicts);
    return Ok((recomputed, verdicts));
  }

  lemma ProgressMeasures(raw: Measurements, policy: Policy, names: seq<string>, scenarios: map<string, Scenario>,
                         verdicts: seq<bool>)
    requires Progress(raw, policy, names, scenarios, verdicts)
    ensures forall name :: name in names ==> Measurable(raw, policy, name)
  {
    forall name | name in names ensures Measurable(raw, policy, name) {
      assert Recomputed(raw, policy, name, scenarios[name]);
    }
  }

  ghost predicate Verdicts(names: seq<string>, scenarios: map<string, Scenario>, verdicts: seq<bool>)
  {
    |names| == |verdicts| && forall k :: 0 <= k < |names| ==>
      names[k] in scenarios && verdicts[k] == scenarios[names[k]].slo.pass
  }

  /** Recomputes every scenario from the raw samples and compares; accepts exactly when the
      bundled scenarios and the bundled verdict are the recomputed ones. */
  method VerifyMeasurements(bundled: map<string, Scenario>, verdict: bool, raw: Measurements, policy: Policy)
    returns (r: Result<()>)
    ensures r.Ok? <==> Recomputes(raw, policy, bundled) && (verdict <==> AllPass(bundled))
  {
    var all := RecomputeAll(raw, policy);
    RecomputesNeedsSamples(raw, policy, bundled);
    if all.Err? { return Err(all.reason); }
    var recomputed, verdicts := all.value.0, all.value.1;
    assert recomputed.Keys == raw.Keys;
    RecomputedOnce(raw, policy, bundled, recomputed);
    if bundled != recomputed { return Err("summaries do not match raw measurements"); }
    var expected := verdicts != [] && forall v | v in verdicts :: v;
    AggregateIs(SortedKeys(raw.Keys), recomputed, verdicts);
    if verdict != expected { return Err("aggregate verdict mismatch"); }
    return Ok(());
  }

  lemma RecomputesNeedsSamples(raw: Measurements, policy: Policy, scenarios: map<string, Scenario>)
    ensures Recomputes(raw, policy, scenarios) ==> forall name :: name in raw ==> Measurable(raw, policy, name)
  {
    if Recomputes(raw, policy, scenarios) {
      forall name | name in raw ensures Measurable(raw, policy, name) {
        assert Recomputed(raw, policy, name, scenarios[name]);
      }
    }
  }

  lemma RecomputedOnce(raw: Measurements, policy: Policy, a: map<string, Scenario>, b: map<string, Scenario>)
    requires Recomputes(raw, policy, b)
    ensures Recomputes(raw, policy, a) <==> a == b
  {
    if Recomputes(raw, policy, a) {
      forall name | name in raw ensures a[name] == b[name] {
        assert Recomputed(raw, policy, name, a[name]) && Recomputed(raw, policy, name, b[name]);
      }
    }
  }

  lemma AggregateIs(names: seq<string>, recomputed: map<string, Scenario>, verdicts: seq<bool>)
    requires Verdicts(names, recomputed, verdicts) && forall name :: name in recomputed <==> name in names
    ensures AllPass(recomputed) <==> verdicts != [] && forall v | v in verdicts :: v
  {
    if verdicts != [] && forall v | v in verdicts :: v {
      assert names[0] in recomputed;
      forall name | name in recomputed ensures recomputed[name].slo.pass {
        var k :| 0 <= k < |names| && names[k] == name;
        assert verdicts[k] in verdicts;
      }
    }
    if AllPass(recomputed) {
      var name :| name in recomputed;
      assert name in names;
      forall v | v in verdicts ensures v {
        var k :| 0 <= k < |verdicts| && verdicts[k] == v;
      }
    }
  }

  /** Time was still measured for the scenario, or no minimum rate is demanded of it. */
  predicate RateHolds(better: Measurements, policy: Policy, name: string)
  {
    name in better && name in policy && (Total(Durations(better[name])) > 0.0 || policy[name].minRate <= 0.0)
  }

  lemma ImprovedScenarioPasses(raw: Measurements, better: Measurements, policy: Policy, name: string, s: Scenario,
                               t: Scenario)
    requires Recomputed(raw, policy, name, s) && Recomputed(better, policy, name, t) && s.slo.pass
    requires Improves(better[name], raw[name])
    ensures t.slo.pass <==> RateHolds(better, policy, name)
  {
    SummaryDefined(raw[name]);
    ImprovementKeepsPassing(better[name], raw[name], policy[name]);
  }

  /** Improving every scenario of a passing bundle keeps the bundle passing exactly when no
      scenario with a positive minimum rate loses its whole measured time. */
  lemma ImprovedBundlePasses(raw: Measurements, better: Measurements, policy: Policy,
                             scenarios: map<string, Scenario>, improved: map<string, Scenario>)
    requires Recomputes(raw, policy, scenarios) && AllPass(scenarios) && Recomputes(better, policy, improved)
    requires better.Keys == raw.Keys && forall name :: name in raw ==> Improves(better[name], raw[name])
    ensures AllPass(improved) <==> forall name :: name in raw ==> RateHolds(better, policy, name)
  {
    forall name | name in raw ensures improved[name].slo.pass <==> RateHolds(better, policy, name) {
      assert Recomputed(raw, policy, name, scenarios[name]) && Recomputed(better, policy, name, improved[name]);
      ImprovedScenarioPasses(raw, better, policy, name, scenarios[name], improved[name]);
    }
    var some :| some in scenarios;
    assert some in improved;
  }
}
