// statistics.cpp: interpolated quantiles and the summary of a sample list.  The
// summary keeps the variance, the value under the square root.

module Statistics {
  import opened Samples
  import opened Medians

  function Ceiling(x: real): int {
    if x == x.Floor as real then x.Floor else x.Floor + 1
  }

  function Position(n: nat, q: real): real {
    q * (n as real - 1.0)
  }

  lemma PositionRange(n: nat, q: real)
    requires n > 0 && 0.0 <= q <= 1.0
    ensures 0.0 <= Position(n, q) <= n as real - 1.0
    ensures 0 <= Position(n, q).Floor <= Ceiling(Position(n, q)) < n
  {
    ProductNonNegative(q, n as real - 1.0);
    ProductNonNegative(1.0 - q, n as real - 1.0);
  }

  function Interpolate(a: real, b: real, w: real): real {
    a * (1.0 - w) + b * w
  }

  function Quantile(sorted: seq<real>, q: real): real
    requires 0.0 <= q <= 1.0
  {
    if sorted == [] then 0.0
    else if |sorted| == 1 then sorted[0]
    else
      PositionRange(|sorted|, q);
      var position := Position(|sorted|, q);
      var lower, upper := position.Floor, Ceiling(position);
      if lower == upper then sorted[lower]
      else Interpolate(sorted[lower], sorted[upper], position - lower as real)
  }

  lemma InterpolateMonotone(a: real, b: real, v: real, c: real, d: real, w: real)
    requires a <= b && a <= c && b <= d && 0.0 <= v <= w <= 1.0
    ensures a <= Interpolate(a, b, v) <= Interpolate(c, d, w) <= (if c <= d then d else c)
    ensures Interpolate(a, b, v) <= b
  {
    ProductNonNegative(v, b - a);
    ProductNonNegative(1.0 - v, b - a);
    ProductNonNegative(w - v, b - a);
    ProductNonNegative(1.0 - w, c - a);
    ProductNonNegative(w, d - b);
    if c <= d {
      ProductNonNegative(1.0 - w, d - c);
    } else {
      ProductNonNegative(w, c - d);
    }
  }

  // A quantile lies between the two samples around its position.
  lemma QuantileBetween(t: seq<real>, q: real)
    requires Sorted(t) && |t| >= 2 && 0.0 <= q <= 1.0
    ensures var p := Position(|t|, q);
            0 <= p.Floor <= Ceiling(p) < |t| && t[p.Floor] <= Quantile(t, q) <= t[Ceiling(p)]
  {
    PositionRange(|t|, q);
    var p := Position(|t|, q);
    if p.Floor != Ceiling(p) {
      var a, b, w := t[p.Floor], t[Ceiling(p)], p - p.Floor as real;
      InterpolateMonotone(a, b, w, a, b, w);
    }
  }

  // A larger q never gives a smaller quantile.
  lemma QuantileMonotone(t: seq<real>, q: real, r: real)
    requires Sorted(t) && 0.0 <= q <= r <= 1.0
    ensures Quantile(t, q) <= Quantile(t, r)
  {
    if |t| >= 2 {
      PositionRange(|t|, q);
      PositionRange(|t|, r);
      var p, p' := Position(|t|, q), Position(|t|, r);
      ProductNonNegative(r - q, |t| as real - 1.0);
      assert p <= p';
      if p.Floor == p'.Floor && Ceiling(p) == Ceiling(p') {
        if p.Floor != Ceiling(p) {
          var a, b := t[p.Floor], t[Ceiling(p)];
          InterpolateMonotone(a, b, p - p.Floor as real, a, b, p' - p.Floor as real);
        }
      } else {
        QuantileBetween(t, q);
        QuantileBetween(t, r);
        if p.Floor == p'.Floor {
          assert p == p.Floor as real;
        } else {
          assert Ceiling(p) <= p'.Floor;
        }
      }
    }
  }

  // Raising samples never lowers a quantile.
  lemma QuantileRises(a: seq<real>, b: seq<real>, q: real)
    requires |a| == |b| && 0.0 <= q <= 1.0
    requires forall i :: 0 <= i < |a| ==> a[i] <= b[i]
    ensures Quantile(Sort(a), q) <= Quantile(Sort(b), q)
  {
    if |a| > 0 {
      PositionRange(|a|, q);
      var p := Position(|a|, q);
      SortMonotone(a, b, 0);
      SortMonotone(a, b, p.Floor);
      SortMonotone(a, b, Ceiling(p));
      if |a| >= 2 && p.Floor != Ceiling(p) {
        var w := p - p.Floor as real;
        InterpolateMonotone(Sort(a)[p.Floor], Sort(a)[Ceiling(p)], w, Sort(b)[p.Floor], Sort(b)[Ceiling(p)], w);
      }
    }
  }

  lemma HalfPosition(n: nat)
    requires n >= 2
    ensures var p := Position(n, 0.5);
            if n % 2 == 0 then p.Floor == n / 2 - 1 && Ceiling(p) == n / 2 && p - p.Floor as real == 0.5
            else p.Floor == Ceiling(p) == n / 2
  {
    var m, p := n / 2, Position(n, 0.5);
    if n % 2 == 0 {
      assert n == 2 * m;
      assert p == (m - 1) as real + 0.5;
    } else {
      assert n == 2 * m + 1;
      assert p == m as real;
    }
  }

  // The half quantile is the evaluation lab's median, for both parities.
  lemma QuantileHalfIsMedian(s: seq<real>)
    ensures Quantile(Sort(s), 0.5) == MedianOf(s)
  {
    if |s| >= 2 {
      HalfPosition(|s|);
      PositionRange(|s|, 0.5);
      hide Position, Ceiling, Sort;
    }
  }

  lemma InterpolateLine(a: real, b: real, w: real)
    ensures Interpolate(a, b, w) == a + w * (b - a)
  {
  }

  // Between two neighbouring samples the quantile moves along a straight line.
  lemma QuantileIsLinear(t: seq<real>, q: real, k: nat, w: real)
    requires 0.0 <= q <= 1.0 && k + 1 < |t| && 0.0 <= w <= 1.0
    requires q * (|t| - 1) as real == k as real + w
    ensures Quantile(t, q) == t[k] + w * (t[k + 1] - t[k])
  {
    PositionRange(|t|, q);
    var p := Position(|t|, q);
    assert p == k as real + w;
    if w == 0.0 {
      assert p.Floor == Ceiling(p) == k;
    } else if w == 1.0 {
      assert p == (k + 1) as real;
      assert p.Floor == Ceiling(p) == k + 1;
    } else {
      assert p.Floor == k && Ceiling(p) == k + 1;
      InterpolateLine(t[k], t[k + 1], w);
    }
  }

  ghost predicate IsProgression(t: seq<real>, a: real, b: real) {
    forall i :: 0 <= i < |t| ==> t[i] == a + b * i as real
  }

  lemma OneStepFurther(a: real, b: real, k: real, w: real)
    ensures (a + b * k) + w * ((a + b * (k + 1.0)) - (a + b * k)) == a + b * (k + w)
  {
    Spread(b, k, 1.0);
    Spread(b, k, w);
    assert (a + b * (k + 1.0)) - (a + b * k) == b;
  }

  // On evenly spaced samples the quantile is the point that far along them.
  lemma QuantileOfProgression(t: seq<real>, a: real, b: real, q: real)
    requires t != [] && IsProgression(t, a, b) && 0.0 <= q <= 1.0
    ensures Quantile(t, q) == a + b * ((|t| - 1) as real * q)
  {
    if |t| == 1 {
      assert t[0] == a + b * 0.0;
    } else {
      PositionRange(|t|, q);
      var p := Position(|t|, q);
      var k, w := p.Floor, p - p.Floor as real;
      assert p == (|t| - 1) as real * q;
      if k == |t| - 1 {
        assert p == k as real && Ceiling(p) == k;
        assert t[k] == a + b * k as real;
      } else {
        QuantileIsLinear(t, q, k, w);
        assert t[k] == a + b * k as real && t[k + 1] == a + b * (k + 1) as real;
        OneStepFurther(a, b, k as real, w);
      }
    }
  }

  // --- the summary ----------------------------------------------------------

  datatype Summary = Summary(
    count: nat, mean: real, median: real, p95: real, p99: real, variance: real, min: real, max: real)

  function Variance(s: seq<real>, mean: real): real {
    if |s| < 2 then 0.0 else SumSquares(s, mean) / (|s| - 1) as real
  }

  function Summarize(s: seq<real>): Summary {
    if s == [] then Summary(0, 0.0, 0.0, 0.0, 0.0, 0.0, 0.0, 0.0)
    else
      var t := Sort(s);
      Summary(|s|, Mean(s), Quantile(t, 0.5), Quantile(t, 0.95), Quantile(t, 0.99),
              Variance(s, Mean(s)), t[0], t[|t| - 1])
  }

  method Accumulate(samples: seq<real>, f: real -> real) returns (sum: real)
    ensures sum == SumOf(f, samples)
  {
    sum := 0.0;
    for i := 0 to |samples|
      invariant sum + SumOf(f, samples[i..]) == SumOf(f, samples)
    {
      assert samples[i..][1..] == samples[i + 1..];
      sum := sum + f(samples[i]);
    }
  }

  // The program's two accumulation loops compute the summary.
  method SummarizeImpl(samples: seq<real>) returns (r: Summary)
    ensures r == Summarize(samples) && r.count == |samples|
    ensures samples == [] ==> r == Summary(0, 0.0, 0.0, 0.0, 0.0, 0.0, 0.0, 0.0)
  {
    if |samples| == 0 {
      return Summary(0, 0.0, 0.0, 0.0, 0.0, 0.0, 0.0, 0.0);
    }
    var sorted := Sort(samples);
    var sum := Accumulate(samples, Itself());
    var mean := sum / |samples| as real;
    var variance := 0.0;
    if |samples| >= 2 {
      var squared := Accumulate(samples, SquaredFrom(mean));
      variance := squared / (|samples| - 1) as real;
    }
    r := Summary(|samples|, mean, Quantile(sorted, 0.5), Quantile(sorted, 0.95), Quantile(sorted, 0.99),
                 variance, sorted[0], sorted[|sorted| - 1]);
  }

  lemma ScaleStrict(n: real, a: real, b: real)
    requires n > 0.0 && a < b
    ensures n * a < n * b
  {
  }

  // The mean of values in [lo, hi] lies in [lo, hi].
  lemma MeanBounds(s: seq<real>, lo: real, hi: real)
    requires s != [] && forall i :: 0 <= i < |s| ==> lo <= s[i] <= hi
    ensures lo <= Mean(s) <= hi
  {
    SumBounds(s, lo, hi);
    MeanTimesCount(s);
    var n, mean := |s| as real, Mean(s);
    hide *;
    if mean < lo {
      ScaleStrict(n, mean, lo);
    } else if mean > hi {
      ScaleStrict(n, hi, mean);
    }
  }

  lemma EndQuantiles(t: seq<real>)
    requires t != []
    ensures Quantile(t, 0.0) == t[0] && Quantile(t, 1.0) == t[|t| - 1]
  {
    assert Position(|t|, 1.0) == (|t| - 1) as real;
    assert Position(|t|, 0.0) == 0.0;
  }

  lemma SummaryOrder(s: seq<real>)
    requires s != []
    ensures var r := Summarize(s);
            r.min <= r.median <= r.p95 <= r.p99 <= r.max && r.min <= r.mean <= r.max
  {
    var t := Sort(s);
    QuantileMonotone(t, 0.5, 0.95);
    QuantileMonotone(t, 0.95, 0.99);
    QuantileMonotone(t, 0.99, 1.0);
    QuantileMonotone(t, 0.0, 0.5);
    EndQuantiles(t);
    forall i | 0 <= i < |s| ensures t[0] <= s[i] <= t[|t| - 1] {
      SortBounds(s, i);
    }
    MeanBounds(s, t[0], t[|t| - 1]);
  }

  lemma SummaryFields(s: seq<real>)
    requires s != []
    ensures var r, t := Summarize(s), Sort(s);
            && r.count == |s| && r.mean == Mean(s) && r.variance == Variance(s, Mean(s))
            && r.median == Quantile(t, 0.5) && r.p95 == Quantile(t, 0.95) && r.p99 == Quantile(t, 0.99)
            && r.min == t[0] && r.max == t[|s| - 1]
  {
    hide Sort, Mean, Quantile, Variance;
  }

  // The extremes are samples, and bound all of them; the mean is their share of
  // the sum; none is left out of the count.
  lemma SummaryExtremes(s: seq<real>)
    requires s != []
    ensures var r := Summarize(s);
            && r.count == |s| && |s| as real * r.mean == Sum(s)
            && r.min in s && r.max in s && forall i :: 0 <= i < |s| ==> r.min <= s[i] <= r.max
  {
    hide *;
    SummaryFields(s);
    var lowest := SortedMember(s, 0);
    var highest := SortedMember(s, |s| - 1);
    MeanTimesCount(s);
    forall i | 0 <= i < |s| ensures Sort(s)[0] <= s[i] <= Sort(s)[|s| - 1] {
      SortBounds(s, i);
    }
  }

  lemma ProgressionEnds(t: seq<real>, a: real, b: real)
    requires t != [] && IsProgression(t, a, b)
    ensures t[0] == a && t[|t| - 1] == a + b * (|t| - 1) as real
  {
    assert t[0] == a + b * 0.0;
  }

  lemma SameLength(s: seq<real>, t: seq<real>)
    requires multiset(s) == multiset(t)
    ensures |s| == |t|
  {
    assert |multiset(s)| == |s| && |multiset(t)| == |t|;
  }

  lemma ProgressionIsSorted(t: seq<real>, a: real, b: real)
    requires IsProgression(t, a, b) && b >= 0.0
    ensures Sorted(t)
  {
    forall i, j | 0 <= i < j < |t| ensures t[i] <= t[j] {
      ProductNonNegative(b, j as real - i as real);
      Spread(b, j as real, -(i as real));
    }
  }

  // The summary of evenly spaced samples, in whatever order.
  lemma SummaryOfProgression(s: seq<real>, t: seq<real>, a: real, b: real)
    requires s != [] && multiset(s) == multiset(t) && IsProgression(t, a, b) && b >= 0.0
    ensures var r, n := Summarize(s), (|s| - 1) as real;
            && r.count == |s| == |t|
            && r.min == a && r.max == a + b * n
            && r.median == a + b * (n * 0.5)
            && r.p95 == a + b * (n * 0.95)
            && r.p99 == a + b * (n * 0.99)
  {
    hide *;
    SameLength(s, t);
    ProgressionIsSorted(t, a, b);
    SortPermutes(s);
    SortedIsUnique(Sort(s), t);
    SummaryFields(s);
    ProgressionEnds(t, a, b);
    QuantileOfProgression(t, a, b, 0.5);
    QuantileOfProgression(t, a, b, 0.95);
    QuantileOfProgression(t, a, b, 0.99);
  }

  lemma ConstantProgression(s: seq<real>, c: real)
    requires forall i :: 0 <= i < |s| ==> s[i] == c
    ensures IsProgression(s, c, 0.0)
  {
  }

  lemma {:induction false} SquaresOfConstant(s: seq<real>, c: real)
    requires forall i :: 0 <= i < |s| ==> s[i] == c
    ensures SumSquares(s, c) == 0.0
    decreases |s|
  {
    if s != [] {
      SquaresOfConstant(s[1..], c);
    }
  }

  lemma ConstantVariance(s: seq<real>, c: real)
    requires forall i :: 0 <= i < |s| ==> s[i] == c
    ensures Variance(s, c) == 0.0
  {
    SquaresOfConstant(s, c);
    hide SumSquares, SumOf;
  }

  // Equal samples.
  lemma SummaryOfConstant(s: seq<real>, c: real)
    requires s != [] && forall i :: 0 <= i < |s| ==> s[i] == c
    ensures Summarize(s) == Summary(|s|, c, c, c, c, 0.0, c, c)
  {
    hide *;
    ConstantProgression(s, c);
    SummaryFields(s);
    SummaryOfProgression(s, s, c, 0.0);
    MeanBounds(s, c, c);
    ConstantVariance(s, c);
  }

  // Every field of the summary is independent of the order of the samples.
  lemma SummaryIgnoresOrder(a: seq<real>, b: seq<real>)
    requires multiset(a) == multiset(b)
    ensures Summarize(a) == Summarize(b)
  {
    SortIgnoresOrder(a, b);
    assert |a| == |Sort(a)| == |b|;
    SortKeepsSums(Itself(), AtMost(0.0), a);
    SortKeepsSums(Itself(), AtMost(0.0), b);
    assert Sum(a) == Sum(b);
    assert Mean(a) == Mean(b);
    SortKeepsSums(SquaredFrom(Mean(a)), AtMost(0.0), a);
    SortKeepsSums(SquaredFrom(Mean(a)), AtMost(0.0), b);
  }

  lemma MeanRises(a: seq<real>, b: seq<real>)
    requires |a| == |b| && a != []
    requires forall i :: 0 <= i < |a| ==> a[i] <= b[i]
    ensures Mean(a) <= Mean(b)
  {
    SumRises(a, b);
    MeanTimesCount(a);
    MeanTimesCount(b);
    var n, mean, mean' := |a| as real, Mean(a), Mean(b);
    hide *;
    if mean > mean' {
      ScaleStrict(n, mean', mean);
    }
  }

  // Raising samples lowers no field of the summary but the variance.
  lemma SummaryRises(a: seq<real>, b: seq<real>)
    requires |a| == |b| && a != []
    requires forall i :: 0 <= i < |a| ==> a[i] <= b[i]
    ensures var r, r' := Summarize(a), Summarize(b);
            && r.min <= r'.min && r.median <= r'.median && r.p95 <= r'.p95 && r.p99 <= r'.p99 && r.max <= r'.max
            && r.mean <= r'.mean
  {
    MeanRises(a, b);
    QuantileRises(a, b, 0.5);
    QuantileRises(a, b, 0.95);
    QuantileRises(a, b, 0.99);
    SortMonotone(a, b, 0);
    SortMonotone(a, b, |a| - 1);
  }

  // --- spread ---------------------------------------------------------------

  ghost predicate BoxedBy(squares: real, sum: real, n: real, lo: real, hi: real, m: real) {
    squares <= (hi + lo - 2.0 * m) * (sum - n * m) + n * ((hi - m) * (m - lo))
  }

  lemma BoxOfOne(x: real, lo: real, hi: real, m: real)
    requires lo <= x <= hi
    ensures SquaredGap(x, m) <= (hi + lo - 2.0 * m) * (x - m) + (hi - m) * (m - lo)
  {
    ProductNonNegative(hi - x, x - lo);
    assert (hi - x) * (x - lo) == -((x - m) * (x - m)) + (hi + lo - 2.0 * m) * (x - m) + (hi - m) * (m - lo);
  }

  lemma BoxedOneMore(x: real, squares: real, sum: real, n: real, lo: real, hi: real, m: real)
    requires lo <= x <= hi && BoxedBy(squares, sum, n, lo, hi, m)
    ensures BoxedBy(SquaredGap(x, m) + squares, x + sum, n + 1.0, lo, hi, m)
  {
    var a, box := hi + lo - 2.0 * m, (hi - m) * (m - lo);
    BoxOfOne(x, lo, hi, m);
    Spread(a, sum - n * m, x - m);
    assert (x + sum) - (n + 1.0) * m == (sum - n * m) + (x - m);
    assert (n + 1.0) * box == n * box + box;
  }

  // The sum over all samples of (hi - x)(x - lo), which is never negative.
  lemma {:induction false} BoxSum(s: seq<real>, lo: real, hi: real, m: real)
    requires forall i :: 0 <= i < |s| ==> lo <= s[i] <= hi
    ensures BoxedBy(SumSquares(s, m), Sum(s), |s| as real, lo, hi, m)
    decreases |s|
  {
    if s != [] {
      var rest := s[1..];
      assert SumSquares(s, m) == SquaredGap(s[0], m) + SumSquares(rest, m);
      assert Sum(s) == s[0] + Sum(rest);
      assert |s| as real == |rest| as real + 1.0;
      hide BoxedBy, SumOf, SumSquares, Sum, SquaredGap;
      BoxSum(rest, lo, hi, m);
      BoxedOneMore(s[0], SumSquares(rest, m), Sum(rest), |rest| as real, lo, hi, m);
    }
  }

  // Half the product of a split is largest in the middle.
  lemma SplitProduct(a: real, b: real)
    ensures a * b <= (a + b) * (a + b) / 4.0
  {
    assert (a - b) * (a - b) >= 0.0;
    assert (a + b) * (a + b) - 4.0 * (a * b) == (a - b) * (a - b);
  }

  // sum of squares <= n * (max - mean) * (mean - min)
  ghost predicate WithinBox(s: seq<real>, mean: real, lo: real, hi: real) {
    SumSquares(s, mean) <= |s| as real * ((hi - mean) * (mean - lo))
  }

  // n * (max - mean) * (mean - min) <= n * (max - min)^2 / 4
  ghost predicate BoxWithinRange(n: nat, mean: real, lo: real, hi: real) {
    n as real * ((hi - mean) * (mean - lo)) <= n as real * ((hi - lo) * (hi - lo) / 4.0)
  }

  lemma NoSkew(squares: real, sum: real, n: real, lo: real, hi: real, m: real)
    requires BoxedBy(squares, sum, n, lo, hi, m) && n * m == sum
    ensures squares <= n * ((hi - m) * (m - lo))
  {
    assert sum - n * m == 0.0;
  }

  lemma SquaresInBox(s: seq<real>, mean: real, lo: real, hi: real)
    requires |s| as real * mean == Sum(s)
    requires forall i :: 0 <= i < |s| ==> lo <= s[i] <= hi
    ensures WithinBox(s, mean, lo, hi)
  {
    BoxSum(s, lo, hi, mean);
    NoSkew(SumSquares(s, mean), Sum(s), |s| as real, lo, hi, mean);
    hide SumSquares, SumOf, Sum, BoxedBy;
  }

  lemma BoxInRange(n: nat, mean: real, lo: real, hi: real)
    ensures BoxWithinRange(n, mean, lo, hi)
  {
    var a, b := hi - mean, mean - lo;
    SplitProduct(a, b);
    assert a + b == hi - lo;
    ProductNonNegative(n as real, (hi - lo) * (hi - lo) / 4.0 - a * b);
  }

  lemma CentreInExtremes(s: seq<real>, mean: real)
    requires s != [] && |s| as real * mean == Sum(s)
    ensures WithinBox(s, mean, Sort(s)[0], Sort(s)[|s| - 1])
  {
    hide WithinBox, Sort, Sum, SumOf;
    var t := Sort(s);
    forall i | 0 <= i < |s| ensures t[0] <= s[i] <= t[|s| - 1] {
      SortBounds(s, i);
    }
    SquaresInBox(s, mean, t[0], t[|s| - 1]);
  }

  lemma SquaresInExtremes(s: seq<real>)
    requires s != []
    ensures WithinBox(s, Mean(s), Sort(s)[0], Sort(s)[|s| - 1])
  {
    hide WithinBox, Mean, Sort, Sum, SumOf;
    MeanTimesCount(s);
    CentreInExtremes(s, Mean(s));
  }

  // How far the fields of one summary can lie apart: the mean from the median,
  // the squares from the extremes, and the extremes from each other.
  lemma SummarySpread(s: seq<real>)
    requires s != []
    ensures var r := Summarize(s);
            && WithinDeviation(s, r.mean, r.median)
            && WithinBox(s, r.mean, r.min, r.max)
            && BoxWithinRange(|s|, r.mean, r.min, r.max)
  {
    var r := Summarize(s);
    QuantileHalfIsMedian(s);
    hide WithinDeviation, WithinBox, BoxWithinRange, Mean, Sort, Quantile;
    MeanNearMedian(s);
    SquaresInExtremes(s);
    BoxInRange(|s|, r.mean, r.min, r.max);
  }

  function Scaled(n: nat, x: real): real { n as real * x }

  lemma DivideBack(n: nat, x: real)
    requires n > 0
    ensures Scaled(n, x / n as real) == x
  {
  }

  // The squares are the variance times n - 1.
  lemma VarianceOfSquares(s: seq<real>)
    requires |s| >= 2
    ensures SumSquares(s, Mean(s)) == Scaled(|s| - 1, Summarize(s).variance)
  {
    DivideBack(|s| - 1, SumSquares(s, Mean(s)));
    hide Scaled, SumSquares, SumOf;
  }
}
