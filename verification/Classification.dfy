// classification_error_rate of evaluation_lab.cpp: two classes told apart by the
// midpoint of their robust means.

module Classification {
  import opened Samples
  import opened Medians
  import opened Statistics
  import opened Outliers

  const DEFAULT_THRESHOLD: real := 3.5

  function Above(v: real): real -> bool { x => x > v }

  function KeptMeanOf(s: seq<real>): real { Mean(RemoveOutliers(s, DEFAULT_THRESHOLD)) }

  function Midpoint(fixed: seq<real>, random: seq<real>): real {
    (KeptMeanOf(fixed) + KeptMeanOf(random)) / 2.0
  }

  function Errors(fixed: seq<real>, random: seq<real>): (e: nat)
    ensures e <= |fixed| + |random|
  {
    Count(Above(Midpoint(fixed, random)), fixed) + Count(AtMost(Midpoint(fixed, random)), random)
  }

  lemma PartOfWhole(part: real, whole: real)
    requires 0.0 <= part <= whole && whole > 0.0
    ensures 0.0 <= 100.0 * part / whole <= 100.0
  {
    var q := 100.0 * part / whole;
    assert q * whole == 100.0 * part;
  }

  function Percentage(part: nat, whole: nat): (r: real)
    requires part <= whole && whole > 0
    ensures 0.0 <= r <= 100.0
  {
    PartOfWhole(part as real, whole as real);
    100.0 * part as real / whole as real
  }

  // The percentage of misclassified samples; 100 when a class is empty.
  function ErrorRate(fixed: seq<real>, random: seq<real>): real {
    if fixed == [] || random == [] then 100.0 else Percentage(Errors(fixed, random), |fixed| + |random|)
  }

  lemma KeepsSome(s: seq<real>)
    ensures s == [] <==> RemoveOutliers(s, DEFAULT_THRESHOLD) == []
  {
    KeepsAtLeastHalf(s, DEFAULT_THRESHOLD);
  }

  method CountIf(samples: seq<real>, p: real -> bool) returns (n: nat)
    ensures n == Count(p, samples)
  {
    n := 0;
    for i := 0 to |samples|
      invariant n + Count(p, samples[i..]) == Count(p, samples)
    {
      assert samples[i..][1..] == samples[i + 1..];
      if p(samples[i]) { n := n + 1; }
    }
  }

  method ClassificationErrorRate(fixed: seq<real>, random: seq<real>) returns (rate: real)
    ensures rate == ErrorRate(fixed, random) && 0.0 <= rate <= 100.0
  {
    var a := ComputeRobustMetrics(fixed, DEFAULT_THRESHOLD);
    var b := ComputeRobustMetrics(random, DEFAULT_THRESHOLD);
    KeepsSome(fixed);
    KeepsSome(random);
    hide RemoveOutliers, Filters, Mean, MedianOf, Variance, Percentage;
    if a.keptCount == 0 || b.keptCount == 0 {
      return 100.0;
    }
    var threshold := (a.mean + b.mean) / 2.0;
    assert threshold == Midpoint(fixed, random);
    hide Midpoint;
    var above := CountIf(fixed, Above(threshold));
    var atMost := CountIf(random, AtMost(threshold));
    rate := Percentage(above + atMost, |fixed| + |random|);
  }

  lemma {:induction false} CountZero(p: real -> bool, s: seq<real>)
    ensures Count(p, s) == 0 <==> forall i :: 0 <= i < |s| ==> !p(s[i])
    decreases |s|
  {
    if s != [] {
      CountZero(p, s[1..]);
      assert forall i :: 1 <= i < |s| ==> s[i] == s[1..][i - 1];
      assert forall i :: 0 <= i < |s| - 1 ==> s[1..][i] == s[i + 1];
    }
  }

  // No sample is misclassified exactly when the midpoint separates the classes.
  lemma NoErrorsIff(fixed: seq<real>, random: seq<real>)
    ensures Errors(fixed, random) == 0 <==>
              && (forall i :: 0 <= i < |fixed| ==> fixed[i] <= Midpoint(fixed, random))
              && (forall i :: 0 <= i < |random| ==> Midpoint(fixed, random) < random[i])
  {
    var m := Midpoint(fixed, random);
    CountZero(Above(m), fixed);
    CountZero(AtMost(m), random);
  }

  lemma ErrorPositions(fixed: seq<real>, random: seq<real>, m: real)
    requires m == Midpoint(fixed, random)
    ensures Errors(fixed, random)
            == |set i | 0 <= i < |fixed| && fixed[i] > m| + |set i | 0 <= i < |random| && random[i] <= m|
  {
    CountPositions(Above(m), fixed);
    CountPositions(AtMost(m), random);
    assert Where(Above(m), fixed) == set i | 0 <= i < |fixed| && fixed[i] > m;
    assert Where(AtMost(m), random) == set i | 0 <= i < |random| && random[i] <= m;
    hide Count, Midpoint, Where;
  }

  lemma MidpointOfMetrics(fixed: seq<real>, random: seq<real>)
    ensures Midpoint(fixed, random) == (Metrics(fixed, 3.5).mean + Metrics(random, 3.5).mean) / 2.0
  {
    MetricsOfKept(fixed, 3.5);
    MetricsOfKept(random, 3.5);
    hide Metrics, RemoveOutliers, Mean;
  }

  lemma PercentageTimes(part: nat, whole: nat)
    requires part <= whole && whole > 0
    ensures Percentage(part, whole) * whole as real == 100.0 * part as real
  {
  }

  // The rate is the share of the misclassified samples: the fixed ones above the
  // midpoint of the robust means, and the random ones not above it.
  lemma ErrorRateIsShare(fixed: seq<real>, random: seq<real>)
    ensures fixed == [] || random == [] ==> ErrorRate(fixed, random) == 100.0
    ensures fixed != [] && random != [] ==>
              var m := (Metrics(fixed, 3.5).mean + Metrics(random, 3.5).mean) / 2.0;
              ErrorRate(fixed, random) * (|fixed| + |random|) as real
              == 100.0 * (|set i | 0 <= i < |fixed| && fixed[i] > m|
                          + |set i | 0 <= i < |random| && random[i] <= m|) as real
  {
    hide Midpoint, Errors, Percentage, Metrics;
    if fixed != [] && random != [] {
      MidpointOfMetrics(fixed, random);
      ErrorPositions(fixed, random, Midpoint(fixed, random));
      PercentageTimes(Errors(fixed, random), |fixed| + |random|);
    }
  }

  lemma NoProduct(a: real, b: real)
    requires a * b == 0.0 && b > 0.0
    ensures a == 0.0
  {
  }

  lemma PercentageIsZero(part: nat, whole: nat)
    requires part <= whole && whole > 0
    ensures Percentage(part, whole) == 0.0 <==> part == 0
  {
    PercentageTimes(part, whole);
    hide Percentage;
    if Percentage(part, whole) == 0.0 {
      assert 100.0 * part as real == 0.0;
    }
    if part == 0 {
      NoProduct(Percentage(part, whole), whole as real);
    }
  }

  // No error, no rate.
  lemma RateIsZeroIff(fixed: seq<real>, random: seq<real>)
    requires fixed != [] && random != []
    ensures ErrorRate(fixed, random) == 0.0 <==> Errors(fixed, random) == 0
  {
    hide Errors, Percentage;
    PercentageTimes(Errors(fixed, random), |fixed| + |random|);
    PercentageIsZero(Errors(fixed, random), |fixed| + |random|);
  }

  lemma TopPart(s: seq<real>, lo: real, hi: real, j: nat)
    requires s != [] && AllWithin(s, lo, hi) && LowerMedian(s) >= hi && LowMiddle(|s|) <= j < |s|
    ensures Sort(s)[j] == hi
  {
    hide Sort, LowMiddle, Sorted;
    var i := SortedMember(s, j);
    SortedAt(Sort(s), LowMiddle(|s|), j);
  }

  // If the lower median is at the top, so are more than half of the samples.
  lemma TopHalf(s: seq<real>, lo: real, hi: real)
    requires s != [] && AllWithin(s, lo, hi) && LowerMedian(s) >= hi
    ensures 2 * Count(Within(hi, hi), s) > |s|
  {
    var t, low, top := Sort(s), LowMiddle(|s|), Within(hi, hi);
    hide Sort, LowMiddle, Count, Sorted, LowerMedian, AllWithin;
    forall j | low <= j < |t| ensures top(t[j]) {
      TopPart(s, lo, hi, j);
    }
    hide *;
    SortKeepsSums(Itself(), top, s);
    CountFrom(top, t, low);
  }

  lemma KeptBelow(s: seq<real>, lo: real, hi: real, i: nat) returns (x: real)
    requires AllWithin(s, lo, hi) && i < |s| && s[i] < hi
    ensures x in RemoveOutliers(s, DEFAULT_THRESHOLD) && x < hi
  {
    LowMiddleIsKept(s, DEFAULT_THRESHOLD);
    OffKeepsAll(s, DEFAULT_THRESHOLD);
    x := if Filters(s, DEFAULT_THRESHOLD) then LowerMedian(s) else s[i];
    if x >= hi {
      TopHalf(s, lo, hi);
      MajorityAtOneValue(s, hi, DEFAULT_THRESHOLD);
    }
  }

  lemma {:induction false} SumStrict(s: seq<real>, lo: real, hi: real, x: real)
    requires AllWithin(s, lo, hi) && x in s && x < hi
    ensures Sum(s) < |s| as real * hi
    decreases |s|
  {
    var rest := s[1..];
    assert AllWithin(rest, lo, hi);
    assert |s| as real * hi == |rest| as real * hi + hi;
    SumBounds(rest, lo, hi);
    if s[0] >= hi {
      SumStrict(rest, lo, hi, x);
    }
  }

  lemma MeanStrict(s: seq<real>, lo: real, hi: real, x: real)
    requires AllWithin(s, lo, hi) && x in s && x < hi
    ensures Mean(s) < hi
  {
    SumStrict(s, lo, hi, x);
    MeanTimesCount(s);
    var n, mean := |s| as real, Mean(s);
    hide *;
    if mean >= hi {
      ProductNonNegative(n, mean - hi);
      Spread(n, mean, -hi);
    }
  }

  lemma KeptFromInput(s: seq<real>, threshold: real, x: real)
    requires x in RemoveOutliers(s, threshold)
    ensures x in s
  {
    if Filters(s, threshold) {
      FilterHolds(Near(MedianOf(s), ReachOf(threshold, Mad(s))), s, x);
    }
  }

  lemma KeptInRange(s: seq<real>, lo: real, hi: real)
    requires AllWithin(s, lo, hi)
    ensures AllWithin(RemoveOutliers(s, DEFAULT_THRESHOLD), lo, hi)
  {
    var kept := RemoveOutliers(s, DEFAULT_THRESHOLD);
    forall i | 0 <= i < |kept| ensures lo <= kept[i] <= hi {
      KeptFromInput(s, DEFAULT_THRESHOLD, kept[i]);
    }
  }

  // A sample below the top pulls the filtered mean below the top: either it is
  // kept, or the lower median is.
  lemma KeptMeanBelow(s: seq<real>, lo: real, hi: real, i: nat)
    requires AllWithin(s, lo, hi) && i < |s| && s[i] < hi
    ensures KeptMeanOf(s) < hi
  {
    var kept := RemoveOutliers(s, DEFAULT_THRESHOLD);
    var x := KeptBelow(s, lo, hi, i);
    KeptInRange(s, lo, hi);
    hide RemoveOutliers;
    MeanStrict(kept, lo, hi, x);
  }

  lemma KeptMean(s: seq<real>, lo: real, hi: real)
    requires s != [] && AllWithin(s, lo, hi)
    ensures lo <= KeptMeanOf(s) <= hi
  {
    KeepsAtLeastHalf(s, DEFAULT_THRESHOLD);
    var kept := RemoveOutliers(s, DEFAULT_THRESHOLD);
    KeptInRange(s, lo, hi);
    hide RemoveOutliers;
    MeanBounds(kept, lo, hi);
  }

  // Classes in [a, b] and [c, d] are told apart without error when the gap
  // between them is at least as wide as either class.
  lemma WideGapSeparates(fixed: seq<real>, random: seq<real>, a: real, b: real, c: real, d: real)
    requires fixed != [] && random != []
    requires AllWithin(fixed, a, b) && AllWithin(random, c, d)
    requires b < c && c - b >= b - a && c - b >= d - c
    ensures Errors(fixed, random) == 0 && ErrorRate(fixed, random) == 0.0
  {
    var p, q := KeptMeanOf(fixed), KeptMeanOf(random);
    RateIsZeroIff(fixed, random);
    KeptMean(fixed, a, b);
    KeptMean(random, c, d);
    assert Midpoint(fixed, random) == (p + q) / 2.0;
    NoErrorsIff(fixed, random);
    forall j | 0 <= j < |random| ensures (p + q) / 2.0 < random[j] {
      if random[j] < d {
        KeptMeanBelow(random, c, d, j);
      }
    }
    hide *;
  }

  // --- when every pair of classes in two ranges is told apart -----------------

  ghost predicate AlwaysSeparated(a: real, b: real, c: real, d: real) {
    forall fixed: seq<real>, random: seq<real> ::
      fixed != [] && random != [] && AllWithin(fixed, a, b) && AllWithin(random, c, d)
      ==> ErrorRate(fixed, random) == 0.0
  }

  lemma MisplacedFixed(fixed: seq<real>, random: seq<real>, i: nat)
    requires i < |fixed| && 2.0 * fixed[i] > KeptMeanOf(fixed) + KeptMeanOf(random)
    ensures Errors(fixed, random) != 0
  {
    NoErrorsIff(fixed, random);
    hide Errors, RemoveOutliers, Mean;
  }

  lemma MisplacedRandom(fixed: seq<real>, random: seq<real>, i: nat)
    requires i < |random| && 2.0 * random[i] <= KeptMeanOf(fixed) + KeptMeanOf(random)
    ensures Errors(fixed, random) != 0
  {
    NoErrorsIff(fixed, random);
    hide Errors, RemoveOutliers, Mean;
  }

  lemma SumPrepend(x: real, s: seq<real>)
    ensures Sum([x] + s) == x + Sum(s)
  {
    assert ([x] + s)[1..] == s;
  }

  lemma MeanOfOne(x: real)
    ensures Mean([x]) == x
  {
    assert [x] + [] == [x];
    SumPrepend(x, []);
  }

  lemma SingleMean(x: real)
    ensures KeptMeanOf([x]) == x
  {
    FewKeepsAll([x], DEFAULT_THRESHOLD);
    MeanOfOne(x);
  }

  lemma SkewedKeptMean(x: real, n: nat, v: real)
    requires n >= 2
    ensures KeptMeanOf(Skewed(x, n, v)) == Mean(Skewed(x, n, v))
  {
    SkewedKeepsAll(x, n, v, DEFAULT_THRESHOLD);
    hide RemoveOutliers, Skewed, Mean;
  }

  lemma Shrink(m: real, u: real, w: real, e: real)
    requires m > 0.0 && m * u == w && Abs(w) < m * e
    ensures Abs(u) < e
  {
    if u >= e {
      ProductNonNegative(m, u - e);
    }
    if u <= -e {
      ProductNonNegative(m, -e - u);
    }
  }

  lemma MeanNear(n: real, m: real, x: real, v: real, mean: real, e: real)
    requires n >= 0.0 && m == n + 1.0 && m * mean == n * x + v && Abs(v - x) < m * e
    ensures Abs(mean - x) < e
  {
    assert m * x == n * x + x;
    Spread(m, mean, -x);
    Shrink(m, mean - x, v - x, e);
  }

  // With enough samples at x the filtered mean is within e of x.
  lemma SkewedMeanNear(x: real, n: nat, v: real, e: real)
    requires n >= 2 && Abs(v - x) < (n + 1) as real * e
    ensures Abs(KeptMeanOf(Skewed(x, n, v)) - x) < e
  {
    hide *;
    SkewedKeptMean(x, n, v);
    SkewedMean(x, n, v);
    MeanNear(n as real, (n + 1) as real, x, v, Mean(Skewed(x, n, v)), e);
  }

  lemma Dilute(w: real, e: real) returns (n: nat)
    requires w >= 0.0 && e > 0.0
    ensures n >= 2 && w < (n + 1) as real * e
  {
    var q := w / e;
    assert q * e == w && q >= 0.0;
    n := q.Floor + 2;
    ProductNonNegative((n + 1) as real - q - 1.0, e);
  }

  lemma Confused(a: real, b: real, c: real, d: real) returns (fixed: seq<real>, random: seq<real>)
    requires a <= b && c <= d && !(b < c && c - b >= b - a && c - b >= d - c)
    ensures fixed != [] && random != [] && AllWithin(fixed, a, b) && AllWithin(random, c, d)
    ensures Errors(fixed, random) != 0 && ErrorRate(fixed, random) != 0.0
  {
    if b >= c {
      fixed, random := [b], [c];
      SingleMean(b);
      SingleMean(c);
      MisplacedRandom(fixed, random, 0);
    } else if c - b < b - a {
      var e := 2.0 * b - c - a;
      var n := Dilute(b - a, e);
      fixed, random := Skewed(a, n, b), [c];
      SkewedMeanNear(a, n, b, e);
      SingleMean(c);
      MisplacedFixed(fixed, random, n);
    } else {
      var e := d + b - 2.0 * c;
      var n := Dilute(d - c, e);
      fixed, random := [b], Skewed(d, n, c);
      SkewedMeanNear(d, n, c, e);
      SingleMean(b);
      MisplacedRandom(fixed, random, n);
    }
    RateIsZeroIff(fixed, random);
  }

  // All classes in [a, b] are told apart from all classes in [c, d] exactly when
  // the gap between the ranges is positive and as wide as either range.
  lemma SeparatedIff(a: real, b: real, c: real, d: real)
    requires a <= b && c <= d
    ensures AlwaysSeparated(a, b, c, d) <==> b < c && c - b >= b - a && c - b >= d - c
  {
    if b < c && c - b >= b - a && c - b >= d - c {
      forall fixed: seq<real>, random: seq<real>
        | fixed != [] && random != [] && AllWithin(fixed, a, b) && AllWithin(random, c, d)
        ensures ErrorRate(fixed, random) == 0.0
      {
        WideGapSeparates(fixed, random, a, b, c, d);
      }
    } else {
      var fixed, random := Confused(a, b, c, d);
    }
  }

  lemma MeanOfTwo(x: real, y: real)
    ensures Mean([x, y]) == (x + y) / 2.0
  {
    assert [x] + [y] == [x, y] && [y] + [] == [y];
    SumPrepend(y, []);
    SumPrepend(x, [y]);
  }

  // Disjoint classes are not enough: 10 against 11 and 100 has its midpoint at
  // 32.75, above the 11.
  lemma DisjointClassesMayOverlapTheMidpoint()
    ensures var fixed, random := [10.0], [11.0, 100.0];
            && (forall i, j :: 0 <= i < |fixed| && 0 <= j < |random| ==> fixed[i] < random[j])
            && Errors(fixed, random) != 0 && ErrorRate(fixed, random) != 0.0
  {
    var fixed, random := [10.0], [11.0, 100.0];
    MeanOfOne(10.0);
    MeanOfTwo(11.0, 100.0);
    assert RemoveOutliers(fixed, DEFAULT_THRESHOLD) == fixed && RemoveOutliers(random, DEFAULT_THRESHOLD) == random;
    hide Mean, RemoveOutliers, Errors;
    assert Midpoint(fixed, random) == 32.75;
    NoErrorsIff(fixed, random);
    assert random[0] == 11.0;
    RateIsZeroIff(fixed, random);
  }
}
