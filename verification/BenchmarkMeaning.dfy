/** What a summary and each service-level check say about the samples themselves. */
module BenchmarkMeaning {
  import opened Benchmark

  /** The samples that took at most v, and those that failed, by position. */
  function Within(samples: seq<Sample>, v: real): set<nat>
  {
    set i: nat | i < |samples| && samples[i].duration <= v
  }

  function Failed(samples: seq<Sample>): set<nat>
  {
    set i: nat | i < |samples| && !samples[i].ok
  }

  lemma {:induction false} WithinCounts(samples: seq<Sample>, v: real)
    ensures |Within(samples, v)| == AtMost(Durations(samples), v)
  {
    if samples != [] {
      var n := |samples| - 1;
      var front, last := samples[..n], samples[n];
      assert samples == front + [last];
      WithinCounts(front, v);
      DurationsAppend(front, last);
      AtMostAppends(Durations(front), [last.duration], v);
      assert [last.duration][1..] == [];
      assert Within(samples, v) == Within(front, v) + if last.duration <= v then {n} else {};
    }
  }

  lemma {:induction false} FailedCounts(samples: seq<Sample>)
    ensures |Failed(samples)| == Errors(samples)
  {
    if samples != [] {
      var n := |samples| - 1;
      var front, last := samples[..n], samples[n];
      assert samples == front + [last];
      FailedCounts(front);
      DurationsAppend(front, last);
      assert Failed(samples) == Failed(front) + if last.ok then {} else {n};
    }
  }

  /** p is the duration of some sample, and the least with the fraction q of all samples within it. */
  ghost predicate IsQuantile(samples: seq<Sample>, q: real, p: real)
  {
    && (exists i :: 0 <= i < |samples| && samples[i].duration == p)
    && forall v :: p <= v <==> |Within(samples, v)| as real >= q * |samples| as real
  }

  lemma CountReaches(count: nat, x: real)
    ensures count >= Ceiling(x) <==> count as real >= x
  {
  }

  lemma QuantileOf(samples: seq<Sample>, q: real)
    requires samples != [] && 0.0 < q <= 1.0
    ensures Percentile(SortReals(Durations(samples)), q).Ok?
    ensures IsQuantile(samples, q, Percentile(SortReals(Durations(samples)), q).value)
  {
    var xs := Durations(samples);
    DurationsLength(samples);
    PercentileIsLeast(xs, q, 0.0);
    var p := Percentile(SortReals(xs), q).value;
    var i :| 0 <= i < |xs| && xs[i] == p;
    assert samples[i].duration == p;
    forall v ensures p <= v <==> |Within(samples, v)| as real >= q * |samples| as real {
      PercentileIsLeast(xs, q, v);
      WithinCounts(samples, v);
      CountReaches(|Within(samples, v)|, q * |samples| as real);
    }
  }

  /** The least, or greatest, duration of a sample. */
  predicate IsLeast(samples: seq<Sample>, v: real)
  {
    (exists s | s in samples :: s.duration == v) && forall s | s in samples :: v <= s.duration
  }

  predicate IsGreatest(samples: seq<Sample>, v: real)
  {
    (exists s | s in samples :: s.duration == v) && forall s | s in samples :: s.duration <= v
  }

  /** The rate is the samples per thousand milliseconds of measured time, and zero without any. */
  predicate IsRate(count: nat, totalMs: real, rate: real)
  {
    if totalMs > 0.0 then rate * totalMs == 1000.0 * count as real else rate == 0.0
  }

  /** x is this part of so many. */
  predicate IsShare(x: real, part: real, count: nat)
  {
    x * count as real == part
  }

  predicate AveragesMean(s: Summary, samples: seq<Sample>)
  {
    && s.sampleCount == |samples| && s.errorCount == |Failed(samples)|
    && IsShare(s.errorRate, |Failed(samples)| as real, |samples|)
    && IsShare(s.meanMs, Total(Durations(samples)), |samples|)
    && IsRate(|samples|, Total(Durations(samples)), s.rate)
  }

  ghost predicate LatenciesMean(s: Summary, samples: seq<Sample>)
  {
    && IsLeast(samples, s.minMs) && IsGreatest(samples, s.maxMs)
    && IsQuantile(samples, 0.50, s.p50) && IsQuantile(samples, 0.95, s.p95) && IsQuantile(samples, 0.99, s.p99)
  }

  lemma EndsAreExtremes(samples: seq<Sample>)
    requires samples != []
    ensures |SortReals(Durations(samples))| == |samples|
    ensures IsLeast(samples, SortReals(Durations(samples))[0])
    ensures IsGreatest(samples, SortReals(Durations(samples))[|samples| - 1])
  {
    var xs := Durations(samples);
    var sorted := SortReals(xs);
    DurationsLength(samples);
    SortRealsSorts(xs);
    SortedEndsBound(xs);
    Taken(samples, sorted, 0);
    Taken(samples, sorted, |samples| - 1);
    forall s | s in samples ensures sorted[0] <= s.duration <= sorted[|samples| - 1] {
      var i :| 0 <= i < |samples| && samples[i] == s;
      assert xs[i] == s.duration;
    }
  }

  // A value of the sorted durations is the duration of a sample.
  lemma Taken(samples: seq<Sample>, sorted: seq<real>, k: nat)
    requires multiset(sorted) == multiset(Durations(samples)) && k < |sorted|
    ensures exists s | s in samples :: s.duration == sorted[k]
  {
    DurationsLength(samples);
    assert sorted[k] in multiset(Durations(samples));
    var i :| 0 <= i < |samples| && Durations(samples)[i] == sorted[k];
    assert samples[i] in samples;
  }

  lemma QuotientTimes(a: real, n: real)
    requires n > 0.0
    ensures a / n * n == a
  {
  }

  lemma QuotientIsShare(part: real, count: nat)
    requires count > 0
    ensures IsShare(part / count as real, part, count)
  {
    QuotientTimes(part, count as real);
  }

  lemma RateIs(count: nat, totalMs: real)
    ensures IsRate(count, totalMs, ObservedRate(count, totalMs))
  {
    if totalMs > 0.0 { QuotientTimes(count as real, totalMs / 1000.0); }
  }

  lemma SummaryAverages(samples: seq<Sample>)
    requires SummaryOf(samples).Ok?
    ensures AveragesMean(SummaryOf(samples).value, samples)
  {
    SummaryDefined(samples);
    FailedCounts(samples);
    QuotientIsShare(Errors(samples) as real, |samples|);
    QuotientIsShare(Total(Durations(samples)), |samples|);
    RateIs(|samples|, Total(Durations(samples)));
  }

  lemma SummaryLatencies(samples: seq<Sample>)
    requires SummaryOf(samples).Ok?
    ensures LatenciesMean(SummaryOf(samples).value, samples)
  {
    SummaryDefined(samples);
    EndsAreExtremes(samples);
    QuantileOf(samples, 0.50);
    QuantileOf(samples, 0.95);
    QuantileOf(samples, 0.99);
  }

  /** Every number of a summary, in terms of the samples. */
  lemma SummaryMeans(samples: seq<Sample>)
    requires SummaryOf(samples).Ok?
    ensures var s := SummaryOf(samples).value; AveragesMean(s, samples) && LatenciesMean(s, samples)
  {
    SummaryAverages(samples);
    SummaryLatencies(samples);
  }

  // ---- The service-level checks ----

  /** The fraction q of the samples took at most v. */
  predicate FractionWithin(samples: seq<Sample>, q: real, v: real)
  {
    |Within(samples, v)| as real >= q * |samples| as real
  }

  /** At most this share of so many. */
  predicate AtMostShare(part: nat, limit: real, count: nat)
  {
    part as real <= limit * count as real
  }

  /** So many in this time are at least this many a second; without measured time only if none are asked. */
  predicate FastEnough(count: nat, totalMs: real, limit: real)
  {
    if totalMs > 0.0 then 1000.0 * count as real >= limit * totalMs else limit <= 0.0
  }

  lemma AtMostTimes(a: real, b: real, n: real)
    requires n > 0.0
    ensures a <= b <==> a * n <= b * n
  {
  }

  lemma ShareCheck(x: real, part: nat, count: nat, limit: real)
    requires count > 0 && IsShare(x, part as real, count)
    ensures x <= limit <==> AtMostShare(part, limit, count)
  {
    AtMostTimes(x, limit, count as real);
  }

  lemma RateCheck(count: nat, totalMs: real, rate: real, limit: real)
    requires IsRate(count, totalMs, rate)
    ensures rate >= limit <==> FastEnough(count, totalMs, limit)
  {
    if totalMs > 0.0 { AtMostTimes(limit, rate, totalMs); }
  }

  /** Each check, as a condition on the samples. */
  predicate ChecksMean(c: Checks, samples: seq<Sample>, t: Thresholds)
  {
    && (c.minimumSamples <==> |samples| as real >= t.minimumSamples)
    && (c.maxErrorRate <==> AtMostShare(|Failed(samples)|, t.maxErrorRate, |samples|))
    && (c.maxP95 <==> FractionWithin(samples, 0.95, t.maxP95))
    && (c.maxP99 <==> FractionWithin(samples, 0.99, t.maxP99))
    && (c.minRate <==> FastEnough(|samples|, Total(Durations(samples)), t.minRate))
  }

  lemma AverageChecks(s: Summary, samples: seq<Sample>, t: Thresholds)
    requires samples != [] && AveragesMean(s, samples)
    ensures s.errorRate <= t.maxErrorRate <==> AtMostShare(|Failed(samples)|, t.maxErrorRate, |samples|)
    ensures s.rate >= t.minRate <==> FastEnough(|samples|, Total(Durations(samples)), t.minRate)
  {
    ShareCheck(s.errorRate, |Failed(samples)|, |samples|, t.maxErrorRate);
    RateCheck(|samples|, Total(Durations(samples)), s.rate, t.minRate);
  }

  lemma LatencyChecks(s: Summary, samples: seq<Sample>, t: Thresholds)
    requires LatenciesMean(s, samples)
    ensures s.p95 <= t.maxP95 <==> FractionWithin(samples, 0.95, t.maxP95)
    ensures s.p99 <= t.maxP99 <==> FractionWithin(samples, 0.99, t.maxP99)
  {
  }

  lemma ChecksOfMean(samples: seq<Sample>, t: Thresholds)
    requires SummaryOf(samples).Ok?
    ensures ChecksMean(ChecksOf(SummaryOf(samples).value, t), samples, t)
  {
    var s := SummaryOf(samples).value;
    SummaryMeans(samples);
    AverageChecks(s, samples, t);
    LatencyChecks(s, samples, t);
  }

  /** A scenario passes exactly when there are enough samples, few enough of them failed, 95 and 99
      per cent were fast enough, and the measured time was short enough for so many. */
  lemma ScenarioPassesIff(raw: Measurements, policy: Policy, name: string, scenario: Scenario)
    requires Recomputed(raw, policy, name, scenario)
    ensures scenario.slo.thresholds == policy[name] && ChecksMean(scenario.slo.checks, raw[name], policy[name])
    ensures AveragesMean(scenario.summary, raw[name]) && LatenciesMean(scenario.summary, raw[name])
    ensures scenario.slo.pass <==>
      var samples, t := raw[name], policy[name];
      && |samples| as real >= t.minimumSamples && AtMostShare(|Failed(samples)|, t.maxErrorRate, |samples|)
      && FractionWithin(samples, 0.95, t.maxP95) && FractionWithin(samples, 0.99, t.maxP99)
      && FastEnough(|samples|, Total(Durations(samples)), t.minRate)
  {
    SummaryDefined(raw[name]);
    SummaryMeans(raw[name]);
    ChecksOfMean(raw[name], policy[name]);
  }
}
