/** The per-metric anomaly test (robothor/engine/analytics.py), in exact real arithmetic; the
    standard deviation is the non-negative root of the variance. */
module Anomalies {
  import opened Sequences

  // ---- Sums ----

  function SumOf(s: seq<real>, f: real -> real): real {
    if s == [] then 0.0 else f(s[0]) + SumOf(s[1..], f)
  }

  function Identity(): real -> real { x => x }

  function SquareFrom(m: real): real -> real { x => (x - m) * (x - m) }

  function OffsetFrom(m: real): real -> real { x => x - m }

  function Average(total: real, n: nat): real
    requires n > 0
  {
    total / n as real
  }

  function Mean(s: seq<real>): real
    requires s != []
  {
    Average(SumOf(s, Identity()), |s|)
  }

  function Variance(s: seq<real>): real
    requires s != []
  {
    Average(SumOf(s, SquareFrom(Mean(s))), |s|)
  }

  predicate IsRoot(root: real, v: real) {
    root >= 0.0 && root * root == v
  }

  // ---- The test ----

  function Abs(x: real): real { if x < 0.0 then -x else x }

  /** The two branches of the test for one metric; every metric is one where higher is worse. */
  predicate Exceeds(mean: real, recent: real, sigma: real, stddev: real) {
    if stddev == 0.0 then mean > 0.0 && Abs(recent - mean) / mean > 0.1
    else (recent - mean) / stddev > sigma
  }

  predicate Flagged(baseline: seq<real>, recent: real, sigma: real, stddev: real)
    requires baseline != []
  {
    Exceeds(Mean(baseline), recent, sigma, stddev)
  }

  datatype Row = Row(totalRuns: nat, failed: nat, avgDuration: Option<real>, avgCost: Option<real>, avgTokens: Option<real>)

  datatype Metric = ErrorRate | AvgDurationMs | AvgCostUsd | AvgTokens

  const METRICS: seq<Metric> := [ErrorRate, AvgDurationMs, AvgCostUsd, AvgTokens]

  function OrZero(v: Option<real>): real { if v.Some? then v.value else 0.0 }

  function Extract(m: Metric): Row -> real {
    match m
    case ErrorRate => (r: Row) => r.failed as real / (if r.totalRuns == 0 then 1 else r.totalRuns) as real
    case AvgDurationMs => (r: Row) => OrZero(r.avgDuration)
    case AvgCostUsd => (r: Row) => OrZero(r.avgCost)
    case AvgTokens => (r: Row) => OrZero(r.avgTokens)
  }

  function Values(rows: seq<Row>, f: Row -> real): (v: seq<real>)
    ensures |v| == |rows|
  {
    seq(|rows|, k requires 0 <= k < |rows| => f(rows[k]))
  }

  /** `deviation` is absent in the zero-variance branch. */
  datatype Anomaly = Anomaly(metric: Metric, mean: real, stddev: real, recent: real, deviation: Option<real>, higher: bool)

  function StdDev(baseline: seq<real>, sqrt: real -> real): real
    requires baseline != []
  {
    if Variance(baseline) > 0.0 then sqrt(Variance(baseline)) else 0.0
  }

  function Verdict(m: Metric, rows: seq<Row>, recent: Row, sigma: real, sqrt: real -> real): Option<Anomaly> {
    var baseline, value := Values(rows, Extract(m)), Extract(m)(recent);
    if |baseline| < 2 then None
    else
      var mean, stddev := Mean(baseline), StdDev(baseline, sqrt);
      if !Flagged(baseline, value, sigma, stddev) then None
      else if stddev == 0.0 then Some(Anomaly(m, mean, 0.0, value, None, value > mean))
      else Some(Anomaly(m, mean, stddev, value, Some((value - mean) / stddev), (value - mean) / stddev > 0.0))
  }

  function Verdicts(rows: seq<Row>, recent: Row, sigma: real, sqrt: real -> real): Metric -> Option<Anomaly> {
    (m: Metric) => Verdict(m, rows, recent, sigma, sqrt)
  }

  /** The body of the loop over the metrics. */
  method CheckMetric(metric: Metric, rows: seq<Row>, recent: Row, sigma: real, sqrt: real -> real) returns (found: Option<Anomaly>)
    ensures found == Verdict(metric, rows, recent, sigma, sqrt)
  {
    var baseline := Values(rows, Extract(metric));
    var value := Extract(metric)(recent);
    if |baseline| < 2 {
      return None;
    }
    var mean := Mean(baseline);
    var stddev := StdDev(baseline, sqrt);
    if stddev == 0.0 {
      return if mean > 0.0 && Abs(value - mean) / mean > 0.1 then Some(Anomaly(metric, mean, 0.0, value, None, value > mean)) else None;
    }
    var deviation := (value - mean) / stddev;
    return if deviation > sigma then Some(Anomaly(metric, mean, stddev, value, Some(deviation), deviation > 0.0)) else None;
  }

  method DetectAnomalies(rows: seq<Row>, recent: Row, sigma: real, sqrt: real -> real) returns (anomalies: seq<Anomaly>)
    ensures anomalies == if rows == [] || recent.totalRuns == 0 then []
                         else Collect(METRICS, Verdicts(rows, recent, sigma, sqrt))
  {
    if rows == [] || recent.totalRuns == 0 {
      return [];
    }
    anomalies := [];
    for i := 0 to |METRICS|
      invariant anomalies == Collect(METRICS[..i], Verdicts(rows, recent, sigma, sqrt))
    {
      CollectSnoc(METRICS, Verdicts(rows, recent, sigma, sqrt), i);
      var found := CheckMetric(METRICS[i], rows, recent, sigma, sqrt);
      if found.Some? {
        anomalies := anomalies + [found.value];
      }
    }
    assert METRICS[..|METRICS|] == METRICS;
  }

  // ---- Sums do not depend on order ----

  lemma {:induction false} SumOfConcat(a: seq<real>, b: seq<real>, f: real -> real)
    ensures SumOf(a + b, f) == SumOf(a, f) + SumOf(b, f)
  {
    if a == [] {
      assert a + b == b;
    } else {
      SumOfConcat(a[1..], b, f);
      assert (a + b)[1..] == a[1..] + b && (a + b)[0] == a[0];
    }
  }

  lemma SumOfCons(x: real, s: seq<real>, f: real -> real)
    ensures SumOf([x] + s, f) == f(x) + SumOf(s, f)
  {
    assert ([x] + s)[1..] == s;
  }

  lemma SumOfMiddle(front: seq<real>, x: real, back: seq<real>, f: real -> real)
    ensures SumOf(front + ([x] + back), f) == f(x) + SumOf(front + back, f)
  {
    SumOfConcat(front, [x] + back, f);
    SumOfCons(x, back, f);
    SumOfConcat(front, back, f);
  }

  lemma {:induction false} SumOfPermutation(a: seq<real>, b: seq<real>, f: real -> real)
    requires multiset(a) == multiset(b)
    ensures |a| == |b| && SumOf(a, f) == SumOf(b, f)
  {
    assert |multiset(a)| == |a| && |multiset(b)| == |b|;
    if a != [] {
      var x, rest := a[0], a[1..];
      assert a == [x] + rest;
      assert x in multiset(b);
      var k: nat :| k < |b| && b[k] == x;
      var front, back := b[..k], b[k + 1..];
      assert b == front + ([x] + back);
      RemoveOne(x, rest, front, back);
      SumOfPermutation(rest, front + back, f);
      SumOfMiddle(front, x, back, f);
    }
  }

  lemma RemoveOne(x: real, rest: seq<real>, front: seq<real>, back: seq<real>)
    requires multiset([x] + rest) == multiset(front + ([x] + back))
    ensures multiset(rest) == multiset(front + back)
  {
    assert multiset([x] + rest) - multiset{x} == multiset(rest);
    assert multiset(front + ([x] + back)) - multiset{x} == multiset(front + back);
  }

  /** The verdict depends on the baseline's values, not on their order. */
  lemma FlagIgnoresOrder(a: seq<real>, b: seq<real>, recent: real, sigma: real, stddev: real)
    requires a != [] && multiset(a) == multiset(b)
    ensures b != [] && Mean(a) == Mean(b) && Variance(a) == Variance(b)
    ensures Flagged(a, recent, sigma, stddev) <==> Flagged(b, recent, sigma, stddev)
  {
    SumOfPermutation(a, b, Identity());
    SumOfPermutation(a, b, SquareFrom(Mean(a)));
  }

  // ---- Signs and quotients (each product is named, so that its sign is a fact about that name) ----

  lemma ZeroFactor(x: real, y: real, v: real)
    requires v == x * y && !(x > 0.0) && !(x < 0.0)
    ensures v == 0.0
  {
  }

  lemma PositiveFactors(x: real, y: real, v: real)
    requires v == x * y && x > 0.0 && y > 0.0
    ensures v > 0.0
  {
  }

  lemma NegativeFactors(x: real, y: real, v: real)
    requires v == x * y && x < 0.0 && y < 0.0
    ensures v > 0.0
  {
  }

  lemma SignOfProduct(x: real, y: real, v: real)
    requires v == x * y && y > 0.0
    ensures v > 0.0 <==> x > 0.0
    ensures v < 0.0 <==> x < 0.0
  {
  }

  lemma SignOfSquare(x: real, v: real)
    requires v == x * x
    ensures v >= 0.0
    ensures v > 0.0 <==> x != 0.0
  {
    if x > 0.0 {
      PositiveFactors(x, x, v);
    } else if x < 0.0 {
      NegativeFactors(x, x, v);
    } else {
      ZeroFactor(x, x, v);
    }
  }

  lemma Distribute(a: real, x: real, y: real)
    ensures a * (x + y) == a * x + a * y
  {
  }

  lemma DifferenceTimes(x: real, y: real, z: real)
    ensures (y - x) * z == y * z - x * z
  {
  }

  lemma CompareScaled(a: real, b: real, n: real)
    requires n > 0.0
    ensures a * n < b * n <==> a < b
    ensures a * n == b * n <==> a == b
  {
  }

  lemma DifferenceOfSquares(a: real, b: real)
    ensures (b - a) * (b + a) == b * b - a * a
  {
  }

  lemma SquareMonotone(a: real, b: real)
    requires 0.0 <= a < b
    ensures a * a < b * b
  {
    DifferenceOfSquares(a, b);
    PositiveFactors(b - a, b + a, (b - a) * (b + a));
  }

  lemma CompareBySquares(a: real, b: real)
    requires a >= 0.0 && b >= 0.0
    ensures a > b <==> a * a > b * b
  {
    if a > b {
      SquareMonotone(b, a);
    } else if a < b {
      SquareMonotone(a, b);
    }
  }

  lemma AverageTimes(total: real, n: nat)
    requires n > 0
    ensures Average(total, n) * n as real == total
  {
  }

  lemma ScaledAverage(k: real, total: real, scaledTotal: real, n: nat)
    requires n > 0 && scaledTotal == k * total
    ensures Average(scaledTotal, n) == k * Average(total, n)
  {
  }

  // ---- Scaling ----

  function Scaled(s: seq<real>, c: real): (r: seq<real>)
    ensures |r| == |s| && forall k :: 0 <= k < |s| ==> r[k] == c * s[k]
  {
    seq(|s|, k requires 0 <= k < |s| => c * s[k])
  }

  lemma AddScaled(k: real, x: real, y: real, a: real, b: real)
    requires a == k * x && b == k * y
    ensures a + b == k * (x + y)
  {
    Distribute(k, x, y);
  }

  ghost predicate Proportional(s: seq<real>, t: seq<real>, f: real -> real, g: real -> real, k: real) {
    |t| == |s| && forall i :: 0 <= i < |s| ==> g(t[i]) == k * f(s[i])
  }

  lemma {:induction false} SumOfProportional(s: seq<real>, t: seq<real>, f: real -> real, g: real -> real, k: real)
    requires Proportional(s, t, f, g, k)
    ensures SumOf(t, g) == k * SumOf(s, f)
  {
    if s != [] {
      SumOfProportional(s[1..], t[1..], f, g, k);
      AddScaled(k, f(s[0]), SumOf(s[1..], f), g(t[0]), SumOf(t[1..], g));
    }
  }

  lemma AverageOfProportional(s: seq<real>, t: seq<real>, f: real -> real, g: real -> real, k: real, n: nat)
    requires n > 0 && Proportional(s, t, f, g, k)
    ensures Average(SumOf(t, g), n) == k * Average(SumOf(s, f), n)
  {
    var x, y := SumOf(s, f), SumOf(t, g);
    assert y == k * x by {
      SumOfProportional(s, t, f, g, k);
    }
    ScaledAverage(k, x, y, n);
  }

  lemma ScaledOffset(c: real, x: real, m: real, scaledX: real, scaledMean: real)
    requires scaledX == c * x && scaledMean == c * m
    ensures (scaledX - scaledMean) * (scaledX - scaledMean) == (c * c) * ((x - m) * (x - m))
  {
    assert scaledX - scaledMean == c * (x - m);
  }

  lemma SquaresAreProportional(s: seq<real>, c: real, m: real, scaledMean: real)
    requires scaledMean == c * m
    ensures Proportional(s, Scaled(s, c), SquareFrom(m), SquareFrom(scaledMean), c * c)
  {
    forall i | 0 <= i < |s| ensures SquareFrom(scaledMean)(Scaled(s, c)[i]) == (c * c) * SquareFrom(m)(s[i]) {
      ScaledOffset(c, s[i], m, Scaled(s, c)[i], scaledMean);
    }
  }

  lemma ScaledMean(s: seq<real>, c: real)
    requires s != []
    ensures Mean(Scaled(s, c)) == c * Mean(s)
  {
    AverageOfProportional(s, Scaled(s, c), Identity(), Identity(), c, |s|);
  }

  lemma ScaledVariance(s: seq<real>, c: real)
    requires s != []
    ensures Variance(Scaled(s, c)) == (c * c) * Variance(s)
  {
    var m, scaledMean := Mean(s), Mean(Scaled(s, c));
    ScaledMean(s, c);
    SquaresAreProportional(s, c, m, scaledMean);
    AverageOfProportional(s, Scaled(s, c), SquareFrom(m), SquareFrom(scaledMean), c * c, |s|);
  }

  lemma ScaledRoot(root: real, v: real, c: real, scaledVariance: real)
    requires IsRoot(root, v) && c > 0.0 && scaledVariance == (c * c) * v
    ensures IsRoot(c * root, scaledVariance)
    ensures c * root == 0.0 <==> root == 0.0
  {
  }

  lemma AbsScaled(c: real, x: real)
    requires c > 0.0
    ensures Abs(c * x) == c * Abs(x)
  {
    SignOfProduct(x, c, c * x);
  }

  lemma CancelFactor(c: real, x: real, y: real)
    requires c != 0.0 && y != 0.0
    ensures c * y != 0.0 && (c * x) / (c * y) == x / y
  {
  }

  lemma ScaledDistance(c: real, recent: real, mean: real)
    requires c > 0.0 && mean > 0.0
    ensures c * mean > 0.0 && Abs(c * recent - c * mean) / (c * mean) == Abs(recent - mean) / mean
  {
    PositiveFactors(c, mean, c * mean);
    assert c * recent - c * mean == c * (recent - mean);
    AbsScaled(c, recent - mean);
    CancelFactor(c, Abs(recent - mean), mean);
  }

  lemma ScaledDeviation(c: real, recent: real, mean: real, stddev: real)
    requires c > 0.0 && stddev != 0.0
    ensures c * stddev != 0.0 && (c * recent - c * mean) / (c * stddev) == (recent - mean) / stddev
  {
  }

  lemma ExceedsIgnoresScale(mean: real, recent: real, sigma: real, stddev: real, c: real, scaledMean: real)
    requires c > 0.0 && (c * stddev == 0.0 <==> stddev == 0.0) && scaledMean == c * mean
    ensures Exceeds(scaledMean, c * recent, sigma, c * stddev) <==> Exceeds(mean, recent, sigma, stddev)
  {
    if stddev != 0.0 {
      ScaledDeviation(c, recent, mean, stddev);
    } else if mean > 0.0 {
      ScaledDistance(c, recent, mean);
    } else {
      SignOfProduct(mean, c, scaledMean);
    }
  }

  /** Changing the unit of a metric changes no verdict. */
  lemma FlagIgnoresScale(s: seq<real>, recent: real, sigma: real, stddev: real, c: real)
    requires s != [] && c > 0.0 && IsRoot(stddev, Variance(s))
    ensures IsRoot(c * stddev, Variance(Scaled(s, c)))
    ensures Flagged(Scaled(s, c), c * recent, sigma, c * stddev) <==> Flagged(s, recent, sigma, stddev)
  {
    ScaledMean(s, c);
    ScaledVariance(s, c);
    ScaledRoot(stddev, Variance(s), c, Variance(Scaled(s, c)));
    ExceedsIgnoresScale(Mean(s), recent, sigma, stddev, c, Mean(Scaled(s, c)));
  }

  // ---- The zero-variance branch ----

  lemma {:induction false} SquaresAreNonNegative(s: seq<real>, m: real)
    ensures SumOf(s, SquareFrom(m)) >= 0.0
  {
    if s != [] {
      SquaresAreNonNegative(s[1..], m);
      SignOfSquare(s[0] - m, SquareFrom(m)(s[0]));
    }
  }

  lemma TwoZeros(x: real, square: real, rest: real)
    requires square == x * x && rest >= 0.0 && square + rest <= 0.0
    ensures rest <= 0.0 && x == 0.0
  {
    SignOfSquare(x, square);
  }

  lemma {:induction false} ZeroSquares(s: seq<real>, m: real, k: nat)
    requires SumOf(s, SquareFrom(m)) <= 0.0 && k < |s|
    ensures s[k] == m
  {
    SquaresAreNonNegative(s[1..], m);
    TwoZeros(s[0] - m, SquareFrom(m)(s[0]), SumOf(s[1..], SquareFrom(m)));
    if k > 0 {
      ZeroSquares(s[1..], m, k - 1);
    }
  }

  predicate AllAre(s: seq<real>, c: real) {
    forall k :: 0 <= k < |s| ==> s[k] == c
  }

  predicate AllEqual(s: seq<real>) {
    forall j, k :: 0 <= j < |s| && 0 <= k < |s| ==> s[j] == s[k]
  }

  lemma {:induction false} EqualValuesSum(s: seq<real>, c: real)
    requires AllAre(s, c)
    ensures SumOf(s, Identity()) == c * |s| as real
  {
    if s != [] {
      EqualValuesSum(s[1..], c);
      Distribute(c, 1.0, |s[1..]| as real);
    }
  }

  lemma {:induction false} EqualValuesSpread(s: seq<real>, m: real)
    requires AllAre(s, m)
    ensures SumOf(s, SquareFrom(m)) <= 0.0
  {
    if s != [] {
      EqualValuesSpread(s[1..], m);
      ZeroFactor(s[0] - m, s[0] - m, SquareFrom(m)(s[0]));
    }
  }

  lemma SpreadIsZeroIff(s: seq<real>, m: real)
    requires s != [] && m * |s| as real == SumOf(s, Identity())
    ensures SumOf(s, SquareFrom(m)) <= 0.0 <==> AllEqual(s)
  {
    if SumOf(s, SquareFrom(m)) <= 0.0 {
      forall k | 0 <= k < |s| ensures s[k] == m {
        ZeroSquares(s, m, k);
      }
      assert AllEqual(s);
    }
    if AllEqual(s) {
      var c := s[0];
      assert AllAre(s, c);
      EqualValuesSum(s, c);
      CompareScaled(m, c, |s| as real);
      EqualValuesSpread(s, m);
    }
  }

  lemma MeanTimesCount(s: seq<real>)
    requires s != []
    ensures Mean(s) * |s| as real == SumOf(s, Identity())
  {
    AverageTimes(SumOf(s, Identity()), |s|);
  }

  lemma SignOfAverage(total: real, n: nat)
    requires n > 0
    ensures Average(total, n) > 0.0 <==> total > 0.0
    ensures Average(total, n) < 0.0 <==> total < 0.0
  {
  }

  lemma ZeroVarianceIff(s: seq<real>)
    requires s != []
    ensures Variance(s) >= 0.0
    ensures Variance(s) == 0.0 <==> AllEqual(s)
  {
    var m := Mean(s);
    MeanTimesCount(s);
    SpreadIsZeroIff(s, m);
    SquaresAreNonNegative(s, m);
    SignOfAverage(SumOf(s, SquareFrom(m)), |s|);
  }

  /** The zero-variance branch is taken exactly when all baseline values are equal. */
  lemma ZeroBranchIff(s: seq<real>, stddev: real)
    requires s != [] && IsRoot(stddev, Variance(s))
    ensures stddev == 0.0 <==> AllEqual(s)
  {
    ZeroVarianceIff(s);
    SignOfSquare(stddev, Variance(s));
  }

  lemma SignOfQuotient(x: real, y: real)
    requires y > 0.0
    ensures x / y > 0.0 <==> x > 0.0
  {
    SignOfProduct(x / y, y, x);
  }

  /** What is reported about a metric: the direction is that of the recent value from the mean, and the
      deviation is missing exactly when the baseline is constant. */
  lemma ReportIsTrue(m: Metric, rows: seq<Row>, recent: Row, sigma: real, sqrt: real -> real)
    requires Verdict(m, rows, recent, sigma, sqrt).Some?
    requires var baseline := Values(rows, Extract(m)); IsRoot(StdDev(baseline, sqrt), Variance(baseline))
    ensures var a := Verdict(m, rows, recent, sigma, sqrt).value;
            && a.recent == Extract(m)(recent) && a.mean == Mean(Values(rows, Extract(m)))
            && (a.higher <==> a.recent > a.mean)
            && (a.deviation.None? <==> AllEqual(Values(rows, Extract(m))))
  {
    var baseline, value := Values(rows, Extract(m)), Extract(m)(recent);
    var stddev := StdDev(baseline, sqrt);
    ZeroBranchIff(baseline, stddev);
    if stddev > 0.0 {
      SignOfQuotient(value - Mean(baseline), stddev);
    }
  }

  // ---- How far inside the baseline's range a flag can be ----

  lemma CauchyStep(m: real, sum: real, squares: real, a: real)
    requires m > 0.0 && sum * sum <= m * squares
    ensures (a + sum) * (a + sum) <= (m + 1.0) * (a * a + squares)
  {
    // (m + 1)(a^2 + q) - (a + s)^2  =  (m q - s^2) + (q - 2 a s + m a^2)
    assert (m + 1.0) * (a * a + squares) - (a + sum) * (a + sum)
        == (m * squares - sum * sum) + (squares - 2.0 * a * sum + m * a * a);
    Discriminant(m, sum, squares, a);
  }

  lemma Discriminant(m: real, sum: real, squares: real, a: real)
    requires m > 0.0 && sum * sum <= m * squares
    ensures squares - 2.0 * a * sum + m * a * a >= 0.0
  {
    var d := squares - 2.0 * a * sum + m * a * a;
    var t := m * a - sum;
    SignOfSquare(t, t * t);
    assert t * t == m * (m * a * a) - m * (2.0 * a * sum) + sum * sum;
    assert d * m == m * squares - m * (2.0 * a * sum) + m * (m * a * a);
    SignOfProduct(d, m, d * m);
  }

  ghost predicate Squares(g: real -> real, f: real -> real) {
    forall x :: g(x) == f(x) * f(x)
  }

  lemma CauchyBase(x: real, square: real, sum: real, squares: real, n: real)
    requires square == x * x && sum == x && squares == square && n == 1.0
    ensures sum * sum <= n * squares
  {
  }

  lemma CauchyEmpty(sum: real, squares: real, n: real)
    requires sum == 0.0 && n == 0.0
    ensures sum * sum <= n * squares
  {
  }

  /** Cauchy's inequality for a list of numbers f(x) with squares g(x). */
  lemma {:induction false} SquareOfSum(s: seq<real>, f: real -> real, g: real -> real)
    requires Squares(g, f)
    ensures SumOf(s, f) * SumOf(s, f) <= |s| as real * SumOf(s, g)
  {
    if s == [] {
      CauchyEmpty(SumOf(s, f), SumOf(s, g), 0.0);
    } else {
      var x, rest := s[0], s[1..];
      if rest == [] {
        SumOfNone(rest, f);
        SumOfNone(rest, g);
        CauchyBase(f(x), g(x), SumOf(s, f), SumOf(s, g), |s| as real);
      } else {
        SquareOfSum(rest, f, g);
        CauchyExtended(f(x), g(x), SumOf(rest, f), SumOf(rest, g), |rest| as real,
                       SumOf(s, f), SumOf(s, g), |s| as real);
      }
    }
  }

  lemma SumOfNone(s: seq<real>, f: real -> real)
    requires s == []
    ensures SumOf(s, f) == 0.0
  {
  }

  lemma CauchyExtended(x: real, square: real, sum: real, squares: real, m: real, total: real, totalSquares: real, n: real)
    requires square == x * x && m > 0.0 && sum * sum <= m * squares
    requires total == x + sum && totalSquares == square + squares && n == m + 1.0
    ensures total * total <= n * totalSquares
  {
    CauchyStep(m, sum, squares, x);
    SameSquare(total, x + sum);
    SameProduct(n, totalSquares, m + 1.0, x * x + squares);
  }

  lemma SameSquare(a: real, b: real)
    requires a == b
    ensures a * a == b * b
  {
  }

  lemma SameProduct(a: real, b: real, c: real, d: real)
    requires a == c && b == d
    ensures a * b == c * d
  {
  }

  lemma {:induction false} OffsetsSum(s: seq<real>, m: real)
    ensures SumOf(s, OffsetFrom(m)) == SumOf(s, Identity()) - m * |s| as real
  {
    if s != [] {
      OffsetsSum(s[1..], m);
      Distribute(m, 1.0, |s[1..]| as real);
    }
  }

  lemma OffsetsCancel(s: seq<real>)
    requires s != []
    ensures SumOf(s, OffsetFrom(Mean(s))) == 0.0
  {
    OffsetsSum(s, Mean(s));
    MeanTimesCount(s);
  }

  /** One offset against all the others, which cancel it. */
  lemma OneAgainstTheRest(n: real, offset: real, square: real, others: real, othersSquared: real, rest: real, bound: real,
                          total: real, average: real)
    requires n >= 1.0 && square == offset * offset && offset + others == 0.0 && total == square + rest
    requires othersSquared == others * others && bound == (n - 1.0) * rest && othersSquared <= bound && average * n == total
    ensures square <= (n - 1.0) * average
  {
    SameSquare(others, -offset);
    assert square <= (n - 1.0) * rest;
    assert (n - 1.0) * total == (n - 1.0) * square + (n - 1.0) * rest;
    assert n * square <= (n - 1.0) * total;
    assert (n - 1.0) * total == ((n - 1.0) * average) * n;
    CompareScaled((n - 1.0) * average, square, n);
  }

  /** The same for one element of a list whose offsets cancel. */
  lemma OneOfMany(front: seq<real>, x: real, back: seq<real>, offset: real -> real, square: real -> real,
                  n: real, average: real)
    requires Squares(square, offset) && n == |front + back| as real + 1.0
    requires SumOf(front + ([x] + back), offset) == 0.0 && average * n == SumOf(front + ([x] + back), square)
    ensures square(x) <= (n - 1.0) * average
  {
    var others, rest := SumOf(front + back, offset), SumOf(front + back, square);
    SumOfMiddle(front, x, back, offset);
    SumOfMiddle(front, x, back, square);
    SquareOfSum(front + back, offset, square);
    OneAgainstTheRest(n, offset(x), square(x), others, others * others, rest, (n - 1.0) * rest, square(x) + rest, average);
  }

  lemma OffsetsSquared(m: real)
    ensures Squares(SquareFrom(m), OffsetFrom(m))
  {
  }

  lemma ValueNear(s: seq<real>, k: nat, m: real, n: real, average: real)
    requires k < |s| && n == |s| as real && SumOf(s, OffsetFrom(m)) == 0.0 && average * n == SumOf(s, SquareFrom(m))
    ensures SquareFrom(m)(s[k]) <= (n - 1.0) * average
  {
    var front, x, back := s[..k], s[k], s[k + 1..];
    assert s == front + ([x] + back);
    OffsetsSquared(m);
    OneOfMany(front, x, back, OffsetFrom(m), SquareFrom(m), n, average);
  }

  /** A single value lies within sqrt(n - 1) standard deviations of the mean. */
  lemma ValueNearMean(s: seq<real>, k: nat)
    requires k < |s|
    ensures (s[k] - Mean(s)) * (s[k] - Mean(s)) <= (|s| as real - 1.0) * Variance(s)
  {
    OffsetsCancel(s);
    AverageTimes(SumOf(s, SquareFrom(Mean(s))), |s|);
    ValueNear(s, k, Mean(s), |s| as real, Variance(s));
  }

  /** The arithmetic of the bound: a deviation above sigma that x itself reaches. */
  lemma DeviationBound(n: real, x: real, dev: real, sigma: real, stddev: real, v: real)
    requires v == stddev * stddev && stddev > 0.0 && dev > sigma >= 0.0
    requires dev * stddev <= x && x * x <= (n - 1.0) * v
    ensures n - 1.0 > sigma * sigma
  {
    var t := sigma * stddev;
    SignOfProduct(sigma, stddev, t);
    CompareScaled(sigma, dev, stddev);
    SquareMonotone(t, x);
    assert t * t == (sigma * sigma) * v;
    SignOfSquare(stddev, v);
    CompareScaled(sigma * sigma, n - 1.0, v);
  }

  lemma QuotientTimes(x: real, y: real)
    requires y != 0.0
    ensures (x / y) * y == x
  {
  }

  /** A recent value no larger than some baseline value is flagged only if n - 1 > sigma^2: with few
      baseline days no value inside the observed range can be an anomaly. */
  lemma FlagInsideRangeNeedsManyDays(s: seq<real>, k: nat, recent: real, sigma: real, stddev: real)
    requires k < |s| && IsRoot(stddev, Variance(s)) && stddev != 0.0 && sigma >= 0.0
    requires recent <= s[k] && Flagged(s, recent, sigma, stddev)
    ensures |s| as real - 1.0 > sigma * sigma
  {
    var m := Mean(s);
    QuotientTimes(recent - m, stddev);
    ValueNearMean(s, k);
    DeviationBound(|s| as real, s[k] - m, (recent - m) / stddev, sigma, stddev, Variance(s));
  }

  // ---- The bound is sharp ----

  function Zeros(n: nat): (r: seq<real>)
    ensures |r| == n && forall k :: 0 <= k < n ==> r[k] == 0.0
  {
    seq(n, _ => 0.0)
  }

  lemma {:induction false} SumsOfZeros(n: nat, m: real)
    ensures SumOf(Zeros(n), Identity()) == 0.0
    ensures SumOf(Zeros(n), SquareFrom(m)) == n as real * (m * m)
  {
    if n > 0 {
      SumsOfZeros(n - 1, m);
      assert Zeros(n) == [0.0] + Zeros(n - 1);
      SumOfCons(0.0, Zeros(n - 1), Identity());
      SumOfCons(0.0, Zeros(n - 1), SquareFrom(m));
      assert n as real * (m * m) == (n - 1) as real * (m * m) + m * m;
    }
  }

  /** One day at 1 and n - 1 days at 0. */
  function Spike(n: nat): (r: seq<real>)
    requires n >= 1
    ensures |r| == n && r[0] == 1.0 && forall k :: 1 <= k < n ==> r[k] == 0.0
  {
    [1.0] + Zeros(n - 1)
  }

  lemma SpikeMoments(n: nat)
    requires n >= 2
    ensures Mean(Spike(n)) == 1.0 / n as real
    ensures var m := 1.0 / n as real; Variance(Spike(n)) == (n as real - 1.0) * (m * m)
  {
    var r, m := n as real, 1.0 / n as real;
    SumsOfZeros(n - 1, m);
    SumOfCons(1.0, Zeros(n - 1), Identity());
    assert Mean(Spike(n)) == m;
    SumOfCons(1.0, Zeros(n - 1), SquareFrom(m));
    SpikeVariance(r, m);
  }

  lemma SpikeVariance(r: real, m: real)
    requires r >= 2.0 && m == 1.0 / r
    ensures ((1.0 - m) * (1.0 - m) + (r - 1.0) * (m * m)) / r == (r - 1.0) * (m * m)
  {
  }

  lemma SpikeDeviation(r: real, m: real, dev: real, stddev: real)
    requires r >= 2.0 && m > 0.0 && stddev * stddev == (r - 1.0) * (m * m) && stddev > 0.0
    requires dev * stddev == (r - 1.0) * m
    ensures dev > 0.0 && dev * dev == r - 1.0
  {
    var v := stddev * stddev;
    SignOfSquare(stddev, v);
    PositiveFactors(r - 1.0, m, (r - 1.0) * m);
    SignOfProduct(dev, stddev, (r - 1.0) * m);
    assert (dev * dev) * v == (dev * stddev) * (dev * stddev);
    assert ((r - 1.0) * m) * ((r - 1.0) * m) == (r - 1.0) * v;
    CompareScaled(dev * dev, r - 1.0, v);
  }

  /** One day at 1 and n - 1 days at 0: the value 1 is flagged exactly when n - 1 > sigma^2. */
  lemma BoundIsSharp(n: nat, sigma: real, stddev: real)
    requires n >= 2 && sigma >= 0.0 && IsRoot(stddev, Variance(Spike(n)))
    ensures stddev != 0.0
    ensures Flagged(Spike(n), 1.0, sigma, stddev) <==> n as real - 1.0 > sigma * sigma
  {
    var r, m := n as real, 1.0 / n as real;
    SpikeMoments(n);
    ZeroBranchIff(Spike(n), stddev);
    assert Spike(n)[0] != Spike(n)[1];
    var dev := (1.0 - m) / stddev;
    QuotientTimes(1.0 - m, stddev);
    QuotientTimes(1.0, r);
    DifferenceTimes(1.0, r, m);
    SpikeDeviation(r, m, dev, stddev);
    CompareBySquares(dev, sigma);
  }
}
