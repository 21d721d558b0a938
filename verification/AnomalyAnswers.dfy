/** The whole answer of the detector (robothor/engine/analytics.py): what each metric reads, when it is reported, and
    what the report says. */
module AnomalyAnswers {
  import opened Sequences
  import opened Anomalies

  /** The column a metric reads; a missing average counts as zero, a day without runs as one run. */
  predicate IsReading(m: Metric, r: Row, v: real) {
    match m
    case ErrorRate => v * (if r.totalRuns < 1 then 1 else r.totalRuns) as real == r.failed as real
    case AvgDurationMs => Some(v) == (if r.avgDuration == None then Some(0.0) else r.avgDuration)
    case AvgCostUsd => Some(v) == (if r.avgCost == None then Some(0.0) else r.avgCost)
    case AvgTokens => Some(v) == (if r.avgTokens == None then Some(0.0) else r.avgTokens)
  }

  lemma ReadingAnswer(m: Metric, r: Row)
    ensures IsReading(m, r, Extract(m)(r))
  {
    if m == ErrorRate {
      QuotientTimes(r.failed as real, (if r.totalRuns == 0 then 1 else r.totalRuns) as real);
    }
  }

  /** The mean and the spread of a baseline, and the root the code takes of it. */
  predicate Moments(v: seq<real>, mean: real, variance: real, stddev: real) {
    && mean * |v| as real == SumOf(v, x => x)
    && variance * |v| as real == SumOf(v, SquareFrom(mean))
    && stddev >= 0.0 && stddev * stddev == variance
  }

  lemma MomentsAre(v: seq<real>, stddev: real)
    requires v != [] && IsRoot(stddev, Variance(v))
    ensures Moments(v, Mean(v), Variance(v), stddev)
  {
    MeanTimesCount(v);
    SameSums(v, Identity(), x => x);
    AverageTimes(SumOf(v, SquareFrom(Mean(v))), |v|);
  }

  lemma {:induction false} SameSums(v: seq<real>, f: real -> real, g: real -> real)
    requires forall x :: f(x) == g(x)
    ensures SumOf(v, f) == SumOf(v, g)
  {
    if v != [] {
      SameSums(v[1..], f, g);
    }
  }

  /** Outside ten per cent of a positive constant. */
  predicate OffByTenth(c: real, x: real) {
    c > 0.0 && (10.0 * x > 11.0 * c || 10.0 * x < 9.0 * c)
  }

  lemma QuotientAbove(x: real, y: real, q: real)
    requires y > 0.0
    ensures x / y > q <==> x > q * y
  {
    QuotientTimes(x, y);
    CompareScaled(q, x / y, y);
  }

  lemma TenthIff(c: real, x: real, sigma: real)
    ensures Exceeds(c, x, sigma, 0.0) <==> OffByTenth(c, x)
  {
    if c > 0.0 {
      QuotientAbove(Abs(x - c), c, 0.1);
      assert Abs(x - c) > 0.1 * c <==> OffByTenth(c, x);
    }
  }

  lemma AboveIff(mean: real, x: real, sigma: real, stddev: real)
    requires stddev > 0.0
    ensures Exceeds(mean, x, sigma, stddev) <==> x > mean + sigma * stddev
  {
    QuotientAbove(x - mean, stddev, sigma);
  }

  lemma {:induction false} ConstantSum(v: seq<real>, c: real)
    requires forall k :: 0 <= k < |v| ==> v[k] == c
    ensures SumOf(v, Identity()) == c * |v| as real
  {
    if v != [] {
      ConstantSum(v[1..], c);
      Distribute(c, 1.0, |v[1..]| as real);
    }
  }

  lemma ConstantMean(v: seq<real>)
    requires v != [] && AllEqual(v)
    ensures Mean(v) == v[0]
  {
    ConstantSum(v, v[0]);
    MeanTimesCount(v);
    CompareScaled(Mean(v), v[0], |v| as real);
  }

  lemma FlaggedIff(m: Metric, rows: seq<Row>, recent: Row, sigma: real, sqrt: real -> real)
    requires |rows| >= 2
    ensures var v := Values(rows, Extract(m));
            Verdict(m, rows, recent, sigma, sqrt).Some? <==> Exceeds(Mean(v), Extract(m)(recent), sigma, StdDev(v, sqrt))
  {
  }

  /** When a metric is reported: a constant baseline if the recent value is more than a tenth off, any other if it is
      more than sigma deviations above the mean; never from fewer than two days. */
  lemma VerdictIff(m: Metric, rows: seq<Row>, recent: Row, sigma: real, sqrt: real -> real)
    requires |rows| >= 2 ==> IsRoot(StdDev(Values(rows, Extract(m)), sqrt), Variance(Values(rows, Extract(m))))
    ensures var v, x := Values(rows, Extract(m)), Extract(m)(recent);
            if |rows| < 2 then Verdict(m, rows, recent, sigma, sqrt).None?
            else
              var mean, stddev := Mean(v), StdDev(v, sqrt);
              && Moments(v, mean, Variance(v), stddev)
              && (Verdict(m, rows, recent, sigma, sqrt).Some? <==>
                    if AllEqual(v) then OffByTenth(v[0], x) else x > mean + sigma * stddev)
  {
    if |rows| >= 2 {
      var v, x := Values(rows, Extract(m)), Extract(m)(recent);
      MomentsAre(v, StdDev(v, sqrt));
      ZeroBranchIff(v, StdDev(v, sqrt));
      FlaggedIff(m, rows, recent, sigma, sqrt);
      if AllEqual(v) {
        ConstantMean(v);
        TenthIff(v[0], x, sigma);
      } else {
        AboveIff(Mean(v), x, sigma, StdDev(v, sqrt));
      }
    }
  }

  /** What a report says: the metric, its moments, the recent value, and how many deviations that is off. */
  lemma ReportAnswer(m: Metric, rows: seq<Row>, recent: Row, sigma: real, sqrt: real -> real)
    requires Verdict(m, rows, recent, sigma, sqrt).Some?
    requires IsRoot(StdDev(Values(rows, Extract(m)), sqrt), Variance(Values(rows, Extract(m))))
    ensures var a, v := Verdict(m, rows, recent, sigma, sqrt).value, Values(rows, Extract(m));
            && a.metric == m && Moments(v, a.mean, Variance(v), a.stddev) && a.recent == Extract(m)(recent)
            && (a.deviation == None <==> AllEqual(v))
            && (a.deviation.Some? ==> a.deviation.value * a.stddev == a.recent - a.mean)
            && (a.higher <==> a.recent > a.mean)
  {
    var v := Values(rows, Extract(m));
    MomentsAre(v, StdDev(v, sqrt));
    ReportIsTrue(m, rows, recent, sigma, sqrt);
    if StdDev(v, sqrt) != 0.0 {
      QuotientTimes(Extract(m)(recent) - Mean(v), StdDev(v, sqrt));
    }
  }

  /** The four metrics are tried in this order, and each is reported once at most. */
  lemma DetectAnswer(rows: seq<Row>, recent: Row, sigma: real, sqrt: real -> real)
    ensures Collect(METRICS, Verdicts(rows, recent, sigma, sqrt))
         == OptionSeq(Verdict(ErrorRate, rows, recent, sigma, sqrt)) + OptionSeq(Verdict(AvgDurationMs, rows, recent, sigma, sqrt))
            + OptionSeq(Verdict(AvgCostUsd, rows, recent, sigma, sqrt)) + OptionSeq(Verdict(AvgTokens, rows, recent, sigma, sqrt))
  {
    CollectFour(ErrorRate, AvgDurationMs, AvgCostUsd, AvgTokens, Verdicts(rows, recent, sigma, sqrt));
    assert METRICS == [ErrorRate, AvgDurationMs, AvgCostUsd, AvgTokens];
  }

  lemma CollectTwo<A, B>(a: A, b: A, f: A -> Option<B>)
    ensures Collect([a, b], f) == OptionSeq(f(a)) + OptionSeq(f(b))
  {
    CollectCons(a, [b], f);
    CollectCons(b, [], f);
    assert [a] + [b] == [a, b] && [b] + [] == [b];
  }

  lemma CollectFour<A, B>(a: A, b: A, c: A, d: A, f: A -> Option<B>)
    ensures Collect([a, b, c, d], f) == OptionSeq(f(a)) + OptionSeq(f(b)) + OptionSeq(f(c)) + OptionSeq(f(d))
  {
    CollectTwo(a, b, f);
    CollectTwo(c, d, f);
    CollectConcat([a, b], [c, d], f);
    assert [a, b] + [c, d] == [a, b, c, d];
    ConcatAssociates(OptionSeq(f(a)) + OptionSeq(f(b)), OptionSeq(f(c)), OptionSeq(f(d)));
  }
}
