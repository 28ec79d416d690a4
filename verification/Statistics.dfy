/**
 The arithmetic of the `histogram_trend` rule, over exact reals. The query returns the average,
 the count and the sum of squares of a sample that already contains the value under test.
 */
module Statistics {

  datatype Summary = Summary(avg: real, count: nat, sumSq: real)

  function Sum(xs: seq<real>): real {
    if xs == [] then 0.0 else Sum(xs[..|xs| - 1]) + xs[|xs| - 1]
  }

  function Square(x: real): real {
    x * x
  }

  function Squares(xs: seq<real>): seq<real> {
    seq(|xs|, i requires 0 <= i < |xs| => Square(xs[i]))
  }

  function Deviations(xs: seq<real>, c: real): seq<real> {
    seq(|xs|, i requires 0 <= i < |xs| => xs[i] - c)
  }

  /** What the SQL aggregate returns for a non-empty sample. */
  function Summarize(xs: seq<real>): Summary
    requires xs != []
  {
    Summary(Sum(xs) / |xs| as real, |xs|, Sum(Squares(xs)))
  }

  function Variance(s: Summary): real
    requires s.count > 0
  {
    s.sumSq / s.count as real - s.avg * s.avg
  }

  /** The rule's test as written, with the square root supplied by the caller. */
  predicate Anomalous(value: real, s: Summary, sd: real, threshold: real)
    requires s.count > 0 && sd >= 0.0 && sd * sd == Variance(s)
  {
    s.count > 5 && sd > 0.0 && (if value >= s.avg then value - s.avg else s.avg - value) / sd > threshold
  }

  /** The same test without a square root. */
  predicate Deviates(value: real, s: Summary, threshold: real) {
    && s.count > 5
    && Variance(s) > 0.0
    && (threshold < 0.0 || (value - s.avg) * (value - s.avg) > threshold * threshold * Variance(s))
  }

  lemma ProductSign(a: real, b: real)
    requires a > 0.0
    ensures b > 0.0 <==> a * b > 0.0
    ensures b >= 0.0 <==> a * b >= 0.0
  {
  }

  lemma SquareIsEven(x: real)
    ensures Square(x) == Square(-x)
  {
  }

  function Times(x: real, y: real): real {
    x * y
  }

  lemma PositiveTimes(x: real, y: real)
    requires x > 0.0 && y > 0.0
    ensures Times(x, y) > 0.0
  {
  }

  lemma SquareOfPositive(x: real)
    requires x > 0.0
    ensures Square(x) > 0.0
  {
    PositiveTimes(x, x);
  }

  lemma SquareSign(x: real)
    ensures Square(x) >= 0.0
    ensures x != 0.0 ==> Square(x) > 0.0
    ensures x == 0.0 ==> Square(x) == 0.0
  {
    if x > 0.0 {
      SquareOfPositive(x);
    } else if x < 0.0 {
      SquareIsEven(x);
      SquareOfPositive(-x);
    }
  }

  lemma SquareOrder(a: real, b: real)
    requires a >= 0.0 && b >= 0.0
    ensures a > b <==> a * a > b * b
  {
    var sum, gap := a + b, a - b;
    assert a * a - b * b == sum * gap;
    if sum > 0.0 {
      ProductSign(sum, gap);
    }
  }

  lemma Fronts(xs: seq<real>, c: real)
    requires xs != []
    ensures Squares(xs)[..|xs| - 1] == Squares(xs[..|xs| - 1])
    ensures Deviations(xs, c)[..|xs| - 1] == Deviations(xs[..|xs| - 1], c)
  {
  }

  lemma DeviatesIsAnomalous(value: real, s: Summary, sd: real, threshold: real)
    requires s.count > 0 && sd >= 0.0 && sd * sd == Variance(s)
    ensures Anomalous(value, s, sd, threshold) <==> Deviates(value, s, threshold)
  {
    if sd > 0.0 {
      var gap := if value >= s.avg then value - s.avg else s.avg - value;
      assert gap * gap == (value - s.avg) * (value - s.avg);
      assert sd * sd > 0.0;
      RatioOrder(gap, sd, threshold);
      if threshold >= 0.0 {
        SquareOrder(gap, threshold * sd);
        assert (threshold * sd) * (threshold * sd) == threshold * threshold * (sd * sd);
      } else {
        assert threshold * sd < 0.0;
      }
    }
  }

  lemma RatioOrder(gap: real, sd: real, t: real)
    requires sd > 0.0
    ensures gap / sd > t <==> gap > t * sd
  {
    var q := gap / sd;
    assert gap == q * sd;
    if q > t {
      assert (q - t) * sd > 0.0;
    } else {
      assert (t - q) * sd >= 0.0;
    }
  }

  lemma {:induction false} SumSquaresNonNegative(xs: seq<real>)
    ensures Sum(Squares(xs)) >= 0.0
    ensures (exists k :: 0 <= k < |xs| && xs[k] != 0.0) ==> Sum(Squares(xs)) > 0.0
  {
    if xs != [] {
      var front, x := xs[..|xs| - 1], xs[|xs| - 1];
      SumSquaresNonNegative(front);
      Fronts(xs, 0.0);
      SquareSign(x);
      if k :| 0 <= k < |xs| && xs[k] != 0.0 {
        if k < |front| {
          assert front[k] != 0.0;
        }
      }
    }
  }

  /** The sum of squared deviations from c, given the sum s and sum of squares q of n values. */
  function Shifted(n: real, c: real, s: real, q: real): real {
    q - 2.0 * c * s + n * (c * c)
  }

  lemma ShiftedStep(n: real, c: real, s: real, q: real, x: real)
    ensures Shifted(n + 1.0, c, s + x, q + Square(x)) == Shifted(n, c, s, q) + Square(x - c)
  {
  }

  lemma {:induction false} DeviationSum(xs: seq<real>, c: real)
    ensures Sum(Deviations(xs, c)) == Sum(xs) - |xs| as real * c
  {
    if xs != [] {
      var n := |xs| - 1;
      DeviationSum(xs[..n], c);
      Fronts(xs, c);
      assert |xs| as real == n as real + 1.0;
    }
  }

  lemma {:induction false} SquaredDeviationSum(xs: seq<real>, c: real)
    ensures Sum(Squares(Deviations(xs, c))) == Shifted(|xs| as real, c, Sum(xs), Sum(Squares(xs)))
  {
    if xs != [] {
      var n := |xs| - 1;
      SquaredDeviationSum(xs[..n], c);
      Fronts(xs, c);
      Fronts(Deviations(xs, c), c);
      assert |xs| as real == n as real + 1.0;
      ShiftedStep(n as real, c, Sum(xs[..n]), Sum(Squares(xs[..n])), xs[n]);
    }
  }

  lemma VarianceAlgebra(n: real, s: real, q: real, avg: real, v: real, d: real)
    requires n > 0.0 && avg == s / n && v == q / n - avg * avg
    requires d == Shifted(n, avg, s, q) && d >= 0.0
    ensures s - n * avg == 0.0
    ensures v * n == d && v >= 0.0
  {
    assert avg * n == s;
    var mean := q / n;
    assert mean * n == q;
    assert v * n == mean * n - avg * avg * n;
    assert avg * s == avg * avg * n;
    ProductSign(n, v);
  }

  /** sum_sq/n - avg^2 is the mean squared deviation, so it is never negative. */
  lemma VarianceIsMeanSquare(xs: seq<real>)
    requires xs != []
    ensures var s := Summarize(xs);
      && Variance(s) * |xs| as real == Sum(Squares(Deviations(xs, s.avg)))
      && Sum(Deviations(xs, s.avg)) == 0.0
      && Variance(s) >= 0.0
  {
    var avg := Sum(xs) / |xs| as real;
    var d := Sum(Squares(Deviations(xs, avg)));
    DeviationSum(xs, avg);
    SquaredDeviationSum(xs, avg);
    SumSquaresNonNegative(Deviations(xs, avg));
    VarianceAlgebra(|xs| as real, Sum(xs), Sum(Squares(xs)), avg, Variance(Summarize(xs)), d);
  }

  predicate Bounded(s: real, q: real, n: nat) {
    s * s <= n as real * q
  }

  /** Cauchy-Schwarz against the constant sequence. */
  lemma {:induction false} SquareOfSum(xs: seq<real>)
    ensures Bounded(Sum(xs), Sum(Squares(xs)), |xs|)
  {
    if xs != [] {
      var n := |xs| - 1;
      SquareOfSum(xs[..n]);
      SumSquaresNonNegative(xs[..n]);
      assert Squares(xs)[..n] == Squares(xs[..n]);
      SquareOfSumStep(Sum(xs[..n]), Sum(Squares(xs[..n])), n, xs[n]);
    }
  }

  lemma SquareOfSumStep(s: real, q: real, n: nat, x: real)
    requires Bounded(s, q, n) && q >= 0.0
    ensures Bounded(s + x, q + Square(x), n + 1)
  {
    if n == 0 {
      assert s * s <= 0.0;
      SquareSign(s);
    } else {
      CauchyStep(s, q, n as real, x);
    }
  }

  /** r (q + r x^2 - 2 s x) >= s^2 - 2 (r x) s + (r x)^2 >= 0. */
  lemma CauchyGap(s: real, q: real, r: real, x: real)
    requires s * s <= r * q && r > 0.0
    ensures q + r * (x * x) - 2.0 * (s * x) >= 0.0
  {
    var gap := q + r * (x * x) - 2.0 * (s * x);
    var rx := r * x;
    SquareSign(s - rx);
    assert (s - rx) * (s - rx) == s * s - 2.0 * (s * rx) + rx * rx;
    assert r * (s * x) == s * rx && r * (r * (x * x)) == rx * rx;
    assert r * gap == r * q + r * (r * (x * x)) - 2.0 * (r * (s * x));
    ProductSign(r, gap);
  }

  lemma CauchyStep(s: real, q: real, r: real, x: real)
    requires s * s <= r * q && r > 0.0
    ensures (s + x) * (s + x) <= (r + 1.0) * (q + x * x)
  {
    CauchyGap(s, q, r, x);
    assert (s + x) * (s + x) == s * s + 2.0 * (s * x) + x * x;
    assert (r + 1.0) * (q + x * x) == r * q + q + r * (x * x) + x * x;
  }

  lemma {:induction false} SumConcat(a: seq<real>, b: seq<real>)
    ensures Sum(a + b) == Sum(a) + Sum(b)
  {
    if b == [] {
      assert a + b == a;
    } else {
      assert (a + b)[..|a + b| - 1] == a + b[..|b| - 1];
      SumConcat(a, b[..|b| - 1]);
    }
  }

  lemma SumWithout(xs: seq<real>, k: nat)
    requires k < |xs|
    ensures Sum(Without(xs, k)) == Sum(xs) - xs[k]
  {
    SumConcat(xs[..k], xs[k + 1..]);
    SumConcat(xs[..k + 1], xs[k + 1..]);
    assert xs == xs[..k + 1] + xs[k + 1..];
    assert xs[..k + 1][..k] == xs[..k];
  }

  function Without(xs: seq<real>, k: nat): seq<real>
    requires k < |xs|
  {
    xs[..k] + xs[k + 1..]
  }

  lemma SumsWithout(d: seq<real>, k: nat)
    requires k < |d|
    ensures Sum(Without(d, k)) == Sum(d) - d[k]
    ensures Sum(Squares(Without(d, k))) == Sum(Squares(d)) - Square(d[k])
  {
    SumWithout(d, k);
    SumWithout(Squares(d), k);
    SquaresWithout(d, k);
  }

  lemma SquaresWithout(d: seq<real>, k: nat)
    requires k < |d|
    ensures Squares(Without(d, k)) == Without(Squares(d), k)
  {
    var a, b := Squares(Without(d, k)), Without(Squares(d), k);
    forall i | 0 <= i < |a| ensures a[i] == b[i] {
      assert a[i] == Square(Without(d, k)[i]);
    }
  }

  lemma OthersBounded(d: seq<real>, k: nat) returns (s: real, q: real)
    requires k < |d|
    ensures s == Sum(d) - d[k] && q == Sum(Squares(d)) - Square(d[k])
    ensures Bounded(s, q, |d| - 1)
  {
    var rest := Without(d, k);
    SumsWithout(d, k);
    SquareOfSum(rest);
    s, q := Sum(rest), Sum(Squares(rest));
    assert |rest| == |d| - 1;
  }

  lemma SamuelsonCentred(d: seq<real>, k: nat, v: real)
    requires k < |d| && Sum(d) == 0.0 && Sum(Squares(d)) == v * |d| as real
    ensures Square(d[k]) <= (|d| - 1) as real * v
  {
    var s, q := OthersBounded(d, k);
    SamuelsonAlgebra(d[k], s, q, |d|, v, Sum(Squares(d)));
  }

  /** Samuelson's inequality: no member of the sample is more than sqrt(n-1) standard deviations away. */
  lemma Samuelson(xs: seq<real>, k: nat)
    requires k < |xs|
    ensures var s := Summarize(xs);
      Square(xs[k] - s.avg) <= (|xs| - 1) as real * Variance(s)
  {
    var s := Summarize(xs);
    VarianceIsMeanSquare(xs);
    SamuelsonCentred(Deviations(xs, s.avg), k, Variance(s));
  }

  lemma SamuelsonAlgebra(x: real, s: real, q: real, n: nat, v: real, total: real)
    requires n >= 1 && s == 0.0 - x && q == total - Square(x) && total == v * n as real
    requires Bounded(s, q, n - 1)
    ensures Square(x) <= (n - 1) as real * v
  {
    var r, m, p := n as real, (n - 1) as real, Square(x);
    assert m == r - 1.0;
    SquareIsEven(x);
    assert s * s == p;
    assert m * q == r * (m * v) - r * p + p;
    var gap := m * v - p;
    assert r * gap >= 0.0;
    ProductSign(r, gap);
  }

  lemma NeverDeviates(xs: seq<real>, k: nat, threshold: real)
    requires k < |xs| && threshold >= 0.0 && (|xs| - 1) as real <= threshold * threshold
    ensures !Deviates(xs[k], Summarize(xs), threshold)
  {
    var s := Summarize(xs);
    Samuelson(xs, k);
    VarianceIsMeanSquare(xs);
    assert (threshold * threshold - (|xs| - 1) as real) * Variance(s) >= 0.0;
  }

  /** n - 1 equal values and one outlier. */
  function Spike(n: nat): seq<real>
    requires n > 0
  {
    seq(n - 1, i => 0.0) + [1.0]
  }

  lemma {:induction false} SumZeros(n: nat)
    ensures Sum(seq(n, i => 0.0)) == 0.0
    ensures Squares(seq(n, i => 0.0)) == seq(n, i => 0.0)
  {
    if n > 0 {
      SumZeros(n - 1);
      assert seq(n, i => 0.0)[..n - 1] == seq(n - 1, i => 0.0);
    }
  }

  lemma SpikeDeviates(n: nat, threshold: real)
    requires n > 5 && threshold >= 0.0 && (n - 1) as real > threshold * threshold
    ensures Deviates(1.0, Summarize(Spike(n)), threshold)
  {
    var xs := Spike(n);
    var s := Summarize(xs);
    var r := n as real;
    SumZeros(n - 1);
    assert xs[..n - 1] == seq(n - 1, i => 0.0);
    assert Squares(xs)[..n - 1] == Squares(xs[..n - 1]);
    assert Sum(xs) == 1.0 && s.sumSq == 1.0;
    var u := 1.0 / r;
    assert s.avg == u && Variance(s) == u - u * u && r * u == 1.0;
    assert 0.0 < u < 1.0;
    assert u - u * u == u * (1.0 - u) > 0.0;
    // (1-u)^2 = (n-1) * u(1-u) > threshold^2 * u(1-u)
    var v := u * (1.0 - u);
    assert (r - 1.0) * u == 1.0 - u;
    assert (1.0 - u) * (1.0 - u) == (r - 1.0) * v;
    assert (n - 1) as real == r - 1.0;
    assert (r - 1.0 - threshold * threshold) * v > 0.0;
  }

  /** Some member of the sample; the value under test is always one. */
  ghost predicate SomeSampleDenied(n: nat, threshold: real) {
    exists xs: seq<real>, k: nat :: |xs| == n && k < n && Deviates(xs[k], Summarize(xs), threshold)
  }

  /**
   A non-negative threshold can deny some action on an n-row history exactly when n exceeds both
   five and threshold^2 + 1: on shorter histories the rule is inert whatever the amounts are.
   */
  lemma HistogramCanDenyIff(n: nat, threshold: real)
    requires threshold >= 0.0
    ensures SomeSampleDenied(n, threshold) <==> n > 5 && (n - 1) as real > threshold * threshold
  {
    if n > 5 && (n - 1) as real > threshold * threshold {
      SpikeDeviates(n, threshold);
      assert Spike(n)[n - 1] == 1.0;
    }
    if SomeSampleDenied(n, threshold) && n > 5 && (n - 1) as real <= threshold * threshold {
      var xs: seq<real>, k: nat :| |xs| == n && k < n && Deviates(xs[k], Summarize(xs), threshold);
      NeverDeviates(xs, k, threshold);
    }
  }
}
