// The median of evaluation_lab.cpp: where it lies, and what it minimizes.

module Medians {
  import opened Samples

  // The middle of an ascending list.
  function Middle(t: seq<real>): real
    requires t != []
  {
    var m := |t| / 2;
    if |t| % 2 == 0 then (t[m - 1] + t[m]) / 2.0 else t[m]
  }

  function MedianOf(s: seq<real>): real {
    if s == [] then 0.0 else Middle(Sort(s))
  }

  function LowMiddle(n: nat): (low: nat)
    requires n > 0
    ensures low < n && 2 * low < n <= 2 * low + 2
  {
    if n % 2 == 0 then n / 2 - 1 else n / 2
  }

  lemma TooLow(t: seq<real>, lo: real, hi: real, low: nat)
    requires Sorted(t) && low < |t| && t[low] < lo
    ensures Count(Within(lo, hi), t) <= |t| - low - 1
  {
    CountAfter(Within(lo, hi), t, low + 1);
  }

  lemma TooHigh(t: seq<real>, lo: real, hi: real, m: nat)
    requires Sorted(t) && m < |t| && t[m] > hi
    ensures Count(Within(lo, hi), t) <= m
  {
    CountBefore(Within(lo, hi), t, m);
  }

  lemma MiddleInMajority(t: seq<real>, lo: real, hi: real)
    requires Sorted(t) && 2 * Count(Within(lo, hi), t) > |t|
    ensures t != [] && lo <= t[LowMiddle(|t|)] && t[|t| / 2] <= hi
  {
    hide Sorted, Count, Within;
    var low, m := LowMiddle(|t|), |t| / 2;
    assert 2 * low <= 2 * m <= |t| <= 2 * low + 2;
    if t[low] < lo {
      TooLow(t, lo, hi, low);
    }
    if t[m] > hi {
      TooHigh(t, lo, hi, m);
    }
  }

  // If more than half of the samples lie in [lo, hi], so does the median,
  // whatever the others are.
  lemma MedianInMajority(s: seq<real>, lo: real, hi: real)
    requires 2 * Count(Within(lo, hi), s) > |s|
    ensures lo <= MedianOf(s) <= hi
  {
    SortKeepsSums(Itself(), Within(lo, hi), s);
    MiddleInMajority(Sort(s), lo, hi);
  }

  lemma LowHalf(t: seq<real>, i: nat)
    requires Sorted(t) && 2 * i < |t|
    ensures t[i] <= Middle(t)
  {
    var m := |t| / 2;
    if |t| % 2 == 0 {
      assert i <= m - 1;
      assert t[i] <= t[m - 1] <= t[m];
    } else {
      assert i <= m;
    }
  }

  // At least half of the samples do not exceed the median.
  lemma HalfAtMostMedian(s: seq<real>)
    ensures 2 * Count(AtMost(MedianOf(s)), s) >= |s|
  {
    if s != [] {
      var t, p, m := Sort(s), AtMost(MedianOf(s)), (|s| + 1) / 2;
      SortKeepsSums(Itself(), p, s);
      hide Sort, Sorted, Count, Middle;
      forall i | 0 <= i < m ensures p(t[i]) {
        LowHalf(t, i);
      }
      CountAtLeast(p, t, m);
    }
  }

  lemma CountAll(p: real -> bool, s: seq<real>)
    requires forall i :: 0 <= i < |s| ==> p(s[i])
    ensures Count(p, s) == |s|
  {
    CountAtLeast(p, s, |s|);
  }

  lemma MedianBounds(s: seq<real>, lo: real, hi: real)
    requires s != [] && forall i :: 0 <= i < |s| ==> lo <= s[i] <= hi
    ensures lo <= MedianOf(s) <= hi
  {
    CountAll(Within(lo, hi), s);
    MedianInMajority(s, lo, hi);
  }

  // --- the median minimizes the sum of distances -----------------------------

  lemma PeelSum(f: real -> real, t: seq<real>)
    requires |t| >= 2
    ensures SumOf(f, t) == f(t[0]) + SumOf(f, t[1..|t| - 1]) + f(t[|t| - 1])
  {
    var inner, last := t[1..|t| - 1], [t[|t| - 1]];
    assert t[1..] == inner + last;
    SumAppend(f, inner, last);
    assert last[1..] == [];
  }

  lemma EndsApart(a: real, b: real, m: real, c: real)
    requires a <= m <= b
    ensures Abs(a - m) + Abs(b - m) <= Abs(a - c) + Abs(b - c)
  {
  }

  lemma MiddleOfInner(t: seq<real>)
    requires Sorted(t) && |t| >= 3
    ensures var inner := t[1..|t| - 1];
            Middle(inner) == Middle(t) && Sorted(inner) && t[0] <= Middle(t) <= t[|t| - 1]
  {
    var inner, m := t[1..|t| - 1], |t| / 2;
    assert |inner| / 2 == m - 1;
    assert inner[m - 1] == t[m];
    if |t| % 2 == 0 {
      assert inner[m - 2] == t[m - 1];
    }
  }

  // Taking off both ends leaves the middle where it is; for any centre the two
  // ends are together at least as far away as from the middle.
  lemma {:induction false} MiddleMinimizes(t: seq<real>, c: real)
    requires Sorted(t) && t != []
    ensures SumOf(DistanceFrom(Middle(t)), t) <= SumOf(DistanceFrom(c), t)
    decreases |t|
  {
    if |t| == 1 {
      assert t[1..] == [];
      assert Middle(t) == t[0];
      assert DistanceFrom(Middle(t))(t[0]) == Abs(t[0] - Middle(t)) == 0.0;
      assert SumOf(DistanceFrom(Middle(t)), t) == 0.0;
      assert SumOf(DistanceFrom(c), t) == DistanceFrom(c)(t[0]) == Abs(t[0] - c);
    } else {
      var inner, last := t[1..|t| - 1], t[|t| - 1];
      PeelSum(DistanceFrom(Middle(t)), t);
      PeelSum(DistanceFrom(c), t);
      if |t| > 2 {
        MiddleOfInner(t);
        MiddleMinimizes(inner, c);
      } else {
        assert inner == [];
      }
      EndsApart(t[0], last, Middle(t), c);
    }
  }

  lemma MedianMinimizes(s: seq<real>, c: real)
    requires s != []
    ensures SumOf(DistanceFrom(MedianOf(s)), s) <= SumOf(DistanceFrom(c), s)
  {
    SortKeepsSums(DistanceFrom(MedianOf(s)), AtMost(0.0), s);
    SortKeepsSums(DistanceFrom(c), AtMost(0.0), s);
    MiddleMinimizes(Sort(s), c);
  }

  // |n*mean - n*c| is at most the sum of the distances from c.
  lemma {:induction false} TriangleSum(s: seq<real>, c: real)
    ensures Abs(Sum(s) - |s| as real * c) <= SumOf(DistanceFrom(c), s)
    decreases |s|
  {
    if s != [] {
      TriangleSum(s[1..], c);
      assert |s| as real * c == |s[1..]| as real * c + c;
      assert Sum(s) == s[0] + Sum(s[1..]);
      assert SumOf(DistanceFrom(c), s) == Abs(s[0] - c) + SumOf(DistanceFrom(c), s[1..]);
    }
  }

  // Every square is at least 2*h times the distance, less h squared.
  lemma {:induction false} SquaresAboveDistances(s: seq<real>, c: real, h: real)
    ensures SumSquares(s, c) >= 2.0 * h * SumOf(DistanceFrom(c), s) - |s| as real * (h * h)
    decreases |s|
  {
    if s != [] {
      SquaresAboveDistances(s[1..], c, h);
      var d := Abs(s[0] - c);
      assert (d - h) * (d - h) >= 0.0;
      assert (s[0] - c) * (s[0] - c) == d * d;
      Spread(2.0 * h, SumOf(DistanceFrom(c), s[1..]), d);
      assert |s| as real * (h * h) == |s[1..]| as real * (h * h) + h * h;
    }
  }

  lemma ScaleAbs(n: real, x: real)
    requires n >= 0.0
    ensures n * Abs(x) == Abs(n * x)
  {
    if x < 0.0 {
      assert n * -x == -(n * x);
    }
  }

  lemma GapBelow(n: real, mean: real, median: real, sum: real, best: real, distances: real)
    requires n >= 0.0 && n * mean == sum && Abs(sum - n * median) <= best <= distances
    ensures distances >= n * Abs(mean - median)
  {
    ScaleAbs(n, mean - median);
    Spread(n, mean, -median);
  }

  lemma SquareOfAbs(a: real, b: real)
    ensures Abs(a - b) * Abs(a - b) == SquaredGap(a, b)
  {
  }

  // n * (mean - c)^2 <= sum of (x - mean)^2: c is within the root of the mean
  // square of the mean.
  ghost predicate WithinDeviation(s: seq<real>, mean: real, c: real) {
    |s| as real * SquaredGap(mean, c) <= SumSquares(s, mean)
  }

  lemma CombineBounds(n: real, h: real, square: real, distances: real, squares: real)
    requires h >= 0.0 && distances >= n * h && square == h * h
    requires squares >= 2.0 * h * distances - n * (h * h)
    ensures squares >= n * square
  {
    var excess := distances - n * h;
    assert h * excess >= 0.0;
    assert 2.0 * h * distances == 2.0 * (h * excess) + 2.0 * (n * (h * h));
  }

  lemma NearMedianAt(s: seq<real>, mean: real, median: real)
    requires |s| as real * mean == Sum(s)
    requires SumOf(DistanceFrom(median), s) <= SumOf(DistanceFrom(mean), s)
    ensures WithinDeviation(s, mean, median)
  {
    var n, h, square := |s| as real, Abs(mean - median), SquaredGap(mean, median);
    TriangleSum(s, median);
    SquaresAboveDistances(s, mean, h);
    SquareOfAbs(mean, median);
    hide SumOf, Abs, DistanceFrom, SumSquares, SquaredGap;
    GapBelow(n, mean, median, Sum(s), SumOf(DistanceFrom(median), s), SumOf(DistanceFrom(mean), s));
    CombineBounds(n, h, square, SumOf(DistanceFrom(mean), s), SumSquares(s, mean));
  }

  lemma CentreNearMedian(s: seq<real>, mean: real)
    requires s != [] && |s| as real * mean == Sum(s)
    ensures WithinDeviation(s, mean, MedianOf(s))
  {
    MedianMinimizes(s, mean);
    NearMedianAt(s, mean, MedianOf(s));
  }

  // The mean and the median are at most one standard deviation apart.
  lemma MeanNearMedian(s: seq<real>)
    requires s != []
    ensures WithinDeviation(s, Mean(s), MedianOf(s))
  {
    MeanTimesCount(s);
    CentreNearMedian(s, Mean(s));
  }
}
