// remove_mad_outliers and robust_metrics of evaluation_lab.cpp: rejection of
// samples far from the median, measured in median absolute deviations.

module Outliers {
  import opened Samples
  import opened Medians
  import opened Statistics

  const MAD_SCALE: real := 1.4826
  const MAD_GUARD: real := 0.000000000001

  function Deviations(s: seq<real>, m: real): (d: seq<real>)
    ensures |d| == |s| && forall i :: 0 <= i < |s| ==> d[i] == Abs(s[i] - m)
  {
    seq(|s|, i requires 0 <= i < |s| => Abs(s[i] - m))
  }

  function Mad(s: seq<real>): real { MedianOf(Deviations(s, MedianOf(s))) }

  function Near(m: real, reach: real): real -> bool { x => Abs(x - m) <= reach }

  // The filter runs only on five samples or more, a positive threshold, and a
  // deviation above the guard; otherwise the input comes back unchanged.
  predicate Filters(s: seq<real>, threshold: real) {
    |s| >= 5 && threshold > 0.0 && Mad(s) > MAD_GUARD
  }

  // How far from the median a sample may lie when the MAD is `mad`.
  function ReachOf(threshold: real, mad: real): real { threshold * (MAD_SCALE * mad) }

  function RemoveOutliers(s: seq<real>, threshold: real): seq<real> {
    if Filters(s, threshold) then Filter(Near(MedianOf(s), ReachOf(threshold, Mad(s))), s) else s
  }

  method CollectDeviations(samples: seq<real>, median: real) returns (deviations: seq<real>)
    ensures deviations == Deviations(samples, median)
  {
    deviations := [];
    for i := 0 to |samples|
      invariant deviations == Deviations(samples[..i], median)
    {
      deviations := deviations + [Abs(samples[i] - median)];
    }
    assert samples[..|samples|] == samples;
  }

  method CollectIf(samples: seq<real>, keep: real -> bool) returns (filtered: seq<real>)
    ensures filtered == Filter(keep, samples)
  {
    filtered := [];
    for i := 0 to |samples|
      invariant filtered + Filter(keep, samples[i..]) == Filter(keep, samples)
    {
      assert samples[i..] == [samples[i]] + samples[i + 1..];
      FilterStep(keep, samples[i], samples[i + 1..]);
      if keep(samples[i]) {
        filtered := filtered + [samples[i]];
      }
    }
  }

  // The program's two loops, which collect the deviations and the survivors.
  method RemoveMadOutliers(samples: seq<real>, threshold: real) returns (filtered: seq<real>)
    ensures filtered == RemoveOutliers(samples, threshold)
  {
    if |samples| < 5 || threshold <= 0.0 {
      return samples;
    }
    var median := MedianOf(samples);
    var deviations := CollectDeviations(samples, median);
    var mad := MedianOf(deviations);
    assert mad == Mad(samples);
    hide MedianOf, Deviations, Mad;
    if mad <= MAD_GUARD {
      return samples;
    }
    var scale := MAD_SCALE * mad;
    var reach := threshold * scale;
    assert reach == ReachOf(threshold, mad);
    hide ReachOf;
    filtered := CollectIf(samples, Near(median, reach));
  }

  lemma FilterIsOn(s: seq<real>, threshold: real)
    requires |s| >= 5 && threshold > 0.0 && Mad(s) > 0.000000000001
    ensures Filters(s, threshold)
    ensures RemoveOutliers(s, threshold) == Filter(Near(MedianOf(s), ReachOf(threshold, Mad(s))), s)
  {
    hide Mad, MedianOf, Filter, ReachOf;
  }

  lemma ReachIs(threshold: real, mad: real)
    ensures ReachOf(threshold, mad) == threshold * 1.4826 * mad
  {
  }

  lemma NearMeans(m: real, reach: real, x: real)
    ensures Near(m, reach)(x) <==> Abs(x - m) <= reach
  {
  }

  // On five samples or more, a positive threshold and a deviation above 1e-12,
  // exactly the samples within threshold * 1.4826 * MAD of the median survive.
  lemma KeptIff(s: seq<real>, threshold: real, x: real)
    requires |s| >= 5 && threshold > 0.0 && Mad(s) > 0.000000000001
    ensures x in RemoveOutliers(s, threshold)
            <==> x in s && Abs(x - MedianOf(s)) <= threshold * 1.4826 * Mad(s)
  {
    hide *;
    var m, reach := MedianOf(s), ReachOf(threshold, Mad(s));
    FilterIsOn(s, threshold);
    ReachIs(threshold, Mad(s));
    if x in Filter(Near(m, reach), s) {
      FilterHolds(Near(m, reach), s, x);
      NearMeans(m, reach, x);
    }
    if x in s && Abs(x - m) <= reach {
      NearMeans(m, reach, x);
      var i :| 0 <= i < |s| && s[i] == x;
      FilterContains(Near(m, reach), s, i);
    }
  }

  // Otherwise everything survives.
  lemma KeepsAllIff(s: seq<real>, threshold: real)
    ensures |s| < 5 || threshold <= 0.0 || Mad(s) <= 0.000000000001 ==> RemoveOutliers(s, threshold) == s
  {
    hide Mad, Filter, MedianOf;
  }

  // --- what the majority decides --------------------------------------------

  lemma DeviationsInMajority(s: seq<real>, lo: real, hi: real, m: real, width: real)
    requires lo <= m <= hi && width == hi - lo
    ensures Count(Within(lo, hi), s) <= Count(Within(0.0, width), Deviations(s, m))
  {
    CountTransfers(Within(lo, hi), s, Within(0.0, width), Deviations(s, m));
  }

  lemma MedianDeviation(s: seq<real>, lo: real, hi: real, m: real, width: real)
    requires 2 * Count(Within(lo, hi), s) > |s| && lo <= m <= hi && width == hi - lo
    ensures 0.0 <= MedianOf(Deviations(s, m)) <= width
  {
    DeviationsInMajority(s, lo, hi, m, width);
    MedianInMajority(Deviations(s, m), 0.0, width);
  }

  lemma MadInMajority(s: seq<real>, lo: real, hi: real)
    requires 2 * Count(Within(lo, hi), s) > |s|
    ensures lo <= MedianOf(s) <= hi && 0.0 <= Mad(s) <= hi - lo
  {
    MedianInMajority(s, lo, hi);
    MedianDeviation(s, lo, hi, MedianOf(s), hi - lo);
  }

  lemma ReachGrows(threshold: real, width: real, wider: real)
    requires threshold > 0.0 && width <= wider
    ensures ReachOf(threshold, width) <= ReachOf(threshold, wider)
  {
    ProductNonNegative(threshold, MAD_SCALE * wider - MAD_SCALE * width);
  }

  lemma KeptIsNear(m: real, reach: real, s: seq<real>, x: real)
    requires x in Filter(Near(m, reach), s)
    ensures Abs(x - m) <= reach
  {
    FilterHolds(Near(m, reach), s, x);
  }

  ghost predicate AllWithin(s: seq<real>, lo: real, hi: real) {
    forall i :: 0 <= i < |s| ==> lo <= s[i] <= hi
  }

  lemma KeptInBand(s: seq<real>, m: real, reach: real, lo: real, hi: real, slack: real)
    requires lo <= m <= hi && reach <= slack
    ensures AllWithin(Filter(Near(m, reach), s), lo - slack, hi + slack)
  {
    var kept := Filter(Near(m, reach), s);
    forall i | 0 <= i < |kept| ensures lo - slack <= kept[i] <= hi + slack {
      KeptIsNear(m, reach, s, kept[i]);
    }
  }

  lemma KeptAtScale(s: seq<real>, threshold: real, m: real, mad: real, lo: real, hi: real)
    requires lo <= m <= hi && mad <= hi - lo && threshold > 0.0
    ensures var slack := ReachOf(threshold, hi - lo);
            AllWithin(Filter(Near(m, ReachOf(threshold, mad)), s), lo - slack, hi + slack)
  {
    ReachGrows(threshold, mad, hi - lo);
    KeptInBand(s, m, ReachOf(threshold, mad), lo, hi, ReachOf(threshold, hi - lo));
  }

  lemma KeptNearMajority(s: seq<real>, threshold: real, lo: real, hi: real)
    requires 2 * Count(Within(lo, hi), s) > |s| && Filters(s, threshold)
    ensures var slack := ReachOf(threshold, hi - lo);
            AllWithin(RemoveOutliers(s, threshold), lo - slack, hi + slack)
  {
    MadInMajority(s, lo, hi);
    KeptAtScale(s, threshold, MedianOf(s), Mad(s), lo, hi);
  }

  // If more than half of the samples lie in [lo, hi], then whatever the rest
  // are the median lies there too, the MAD is at most its width, and unless a
  // guard returns the input unchanged every kept value lies within
  // threshold * 1.4826 * (hi - lo) of the interval.
  lemma OutlierResistance(s: seq<real>, threshold: real, lo: real, hi: real)
    requires 2 * Count(Within(lo, hi), s) > |s|
    ensures lo <= MedianOf(s) <= hi && 0.0 <= Mad(s) <= hi - lo
    ensures !Filters(s, threshold) ==> RemoveOutliers(s, threshold) == s
    ensures var slack := ReachOf(threshold, hi - lo);
            Filters(s, threshold) ==> AllWithin(RemoveOutliers(s, threshold), lo - slack, hi + slack)
  {
    MadInMajority(s, lo, hi);
    if Filters(s, threshold) {
      KeptNearMajority(s, threshold, lo, hi);
    }
  }

  lemma TimesAtMost(n: real, a: real, b: real)
    requires n >= 0.0 && a <= b
    ensures n * a <= n * b
  {
    ProductNonNegative(n, b - a);
  }

  lemma TooFar(n: real, mad: real, width: real, m: real, lo: real, hi: real, x: real)
    requires n >= 0.0 && mad <= width && lo <= m <= hi && (x < lo - n * width || x > hi + n * width)
    ensures Abs(x - m) > n * mad
  {
    TimesAtMost(n, mad, width);
  }

  // Under the same guard a majority in [lo, hi] decides what is rejected: nothing
  // farther than threshold * 1.4826 * (hi - lo) from it survives.
  lemma FarIsRejected(s: seq<real>, threshold: real, lo: real, hi: real, x: real)
    requires |s| >= 5 && threshold > 0.0 && Mad(s) > 0.000000000001
    requires 2 * Count(Within(lo, hi), s) > |s|
    requires x < lo - threshold * 1.4826 * (hi - lo) || x > hi + threshold * 1.4826 * (hi - lo)
    ensures x !in RemoveOutliers(s, threshold)
  {
    hide *;
    MadInMajority(s, lo, hi);
    KeptIff(s, threshold, x);
    TooFar(threshold * 1.4826, Mad(s), hi - lo, MedianOf(s), lo, hi, x);
  }

  // --- what is kept ---------------------------------------------------------

  lemma ReachCovers(threshold: real, mad: real)
    requires threshold * MAD_SCALE >= 1.0 && mad >= 0.0
    ensures ReachOf(threshold, mad) >= mad
  {
    ProductNonNegative(threshold * MAD_SCALE - 1.0, mad);
    assert threshold * (MAD_SCALE * mad) == (threshold * MAD_SCALE) * mad;
  }

  // From a threshold of 1 / 1.4826 on, in particular the default 3.5, at least
  // half of the samples survive.
  lemma KeepsAtLeastHalf(s: seq<real>, threshold: real)
    requires threshold * MAD_SCALE >= 1.0
    ensures 2 * |RemoveOutliers(s, threshold)| >= |s|
  {
    if Filters(s, threshold) {
      var m, mad, reach := MedianOf(s), Mad(s), ReachOf(threshold, Mad(s));
      ReachCovers(threshold, mad);
      assert RemoveOutliers(s, threshold) == Filter(Near(m, reach), s);
      HalfAtMostMedian(Deviations(s, m));
      hide ReachOf, MedianOf, Mad, Filters;
      CountTransfers(AtMost(mad), Deviations(s, m), Near(m, reach), s);
    }
  }

  // The result lists some of the input in its order, and exactly the samples
  // within reach of the median.
  lemma KeepsInOrder(s: seq<real>, threshold: real)
    requires Filters(s, threshold)
    ensures var p := Near(MedianOf(s), ReachOf(threshold, Mad(s)));
            KeepsExactly(p, s, 0, RemoveOutliers(s, threshold), Positions(p, s, 0))
  {
    assert s[0..] == s;
    FilterPositions(Near(MedianOf(s), ReachOf(threshold, Mad(s))), s, 0);
  }

  // The centres of what is kept are within reach of the original median.
  lemma FilteredCentre(s: seq<real>, threshold: real)
    requires Filters(s, threshold)
    ensures var kept := RemoveOutliers(s, threshold);
            kept != [] ==>
              && Abs(Mean(kept) - MedianOf(s)) <= ReachOf(threshold, Mad(s))
              && Abs(MedianOf(kept) - MedianOf(s)) <= ReachOf(threshold, Mad(s))
  {
    var m, reach := MedianOf(s), ReachOf(threshold, Mad(s));
    var kept := Filter(Near(m, reach), s);
    assert RemoveOutliers(s, threshold) == kept;
    hide Filter, Mean, MedianOf, ReachOf, Mad, Filters, RemoveOutliers;
    forall i | 0 <= i < |kept| ensures m - reach <= kept[i] <= m + reach {
      KeptIsNear(m, reach, s, kept[i]);
    }
    if kept != [] {
      MeanBounds(kept, m - reach, m + reach);
      MedianBounds(kept, m - reach, m + reach);
    }
  }

  // --- robust_metrics -------------------------------------------------------

  datatype RobustMetrics = RobustMetrics(
    inputCount: nat, keptCount: nat, rejectedCount: nat, mean: real, median: real, variance: real)

  lemma NeverGrows(s: seq<real>, threshold: real)
    ensures |RemoveOutliers(s, threshold)| <= |s|
  {
  }

  function Metrics(s: seq<real>, threshold: real): RobustMetrics {
    var kept := RemoveOutliers(s, threshold);
    NeverGrows(s, threshold);
    RobustMetrics(|s|, |kept|, |s| - |kept|, Mean(kept), MedianOf(kept), Variance(kept, Mean(kept)))
  }

  method MeanOf(samples: seq<real>) returns (mean: real)
    ensures mean == Mean(samples)
  {
    if |samples| == 0 {
      return 0.0;
    }
    var sum := Accumulate(samples, Itself());
    mean := sum / |samples| as real;
  }

  // stddev_of before its square root.
  method VarianceOf(samples: seq<real>, mean: real) returns (variance: real)
    ensures variance == Variance(samples, mean)
  {
    if |samples| < 2 {
      return 0.0;
    }
    var squared := Accumulate(samples, SquaredFrom(mean));
    variance := squared / (|samples| - 1) as real;
  }

  method ComputeRobustMetrics(samples: seq<real>, threshold: real) returns (r: RobustMetrics)
    ensures r == Metrics(samples, threshold)
    ensures r.keptCount + r.rejectedCount == r.inputCount == |samples|
  {
    var filtered := RemoveMadOutliers(samples, threshold);
    NeverGrows(samples, threshold);
    var mean := MeanOf(filtered);
    var variance := VarianceOf(filtered, mean);
    r := RobustMetrics(|samples|, |filtered|, |samples| - |filtered|, mean, MedianOf(filtered), variance);
  }

  lemma OffKeepsAll(s: seq<real>, threshold: real)
    ensures !Filters(s, threshold) ==> RemoveOutliers(s, threshold) == s
  {
  }

  lemma MetricsOfKept(s: seq<real>, threshold: real)
    ensures var r, kept := Metrics(s, threshold), RemoveOutliers(s, threshold);
            r.keptCount == |kept| && r.mean == Mean(kept) && r.median == MedianOf(kept)
  {
    hide RemoveOutliers, Mean, MedianOf, Variance;
  }

  lemma MajorityIsSome(s: seq<real>, lo: real, hi: real)
    requires 2 * Count(Within(lo, hi), s) > |s|
    ensures s != []
  {
  }

  lemma CentresWithin(s: seq<real>, lo: real, hi: real)
    requires s != [] && AllWithin(s, lo, hi)
    ensures lo <= Mean(s) <= hi && lo <= MedianOf(s) <= hi
  {
    MeanBounds(s, lo, hi);
    MedianBounds(s, lo, hi);
  }

  // The reported variance, times one less than the kept samples, is their sum of
  // squares about the reported mean.
  lemma MetricsVariance(s: seq<real>, threshold: real)
    ensures var r, kept := Metrics(s, threshold), RemoveOutliers(s, threshold);
            && r.inputCount == |s| && r.keptCount == |kept| && r.rejectedCount == |s| - |kept|
            && (|kept| >= 2 ==> (|kept| - 1) as real * r.variance == SumSquares(kept, r.mean))
            && (|kept| < 2 ==> r.variance == 0.0)
  {
    var kept := RemoveOutliers(s, threshold);
    hide RemoveOutliers, Mean, MedianOf, SumSquares;
    if |kept| >= 2 {
      DivideBack(|kept| - 1, SumSquares(kept, Mean(kept)));
    }
  }

  // Rejecting outliers keeps the reported median near any majority: with more
  // than half of the input in [lo, hi], it lies within threshold * 1.4826 *
  // (hi - lo) of [lo, hi].  So does the reported mean unless a guard has
  // switched the filter off.
  lemma MetricsResistOutliers(s: seq<real>, threshold: real, lo: real, hi: real)
    requires 2 * Count(Within(lo, hi), s) > |s| && threshold * MAD_SCALE >= 1.0
    ensures var r, slack := Metrics(s, threshold), ReachOf(threshold, hi - lo);
            && lo - slack <= r.median <= hi + slack
            && 2 * r.keptCount >= |s|
            && (Filters(s, threshold) ==> lo - slack <= r.mean <= hi + slack)
  {
    hide *;
    var kept, slack := RemoveOutliers(s, threshold), ReachOf(threshold, hi - lo);
    MetricsOfKept(s, threshold);
    KeepsAtLeastHalf(s, threshold);
    MedianInMajority(s, lo, hi);
    ReachCovers(threshold, hi - lo);
    OffKeepsAll(s, threshold);
    MajorityIsSome(s, lo, hi);
    if Filters(s, threshold) {
      KeptNearMajority(s, threshold, lo, hi);
      CentresWithin(kept, lo - slack, hi + slack);
    }
  }

  // --- where the filter is off ------------------------------------------------

  // A majority at a single value, as coarse timers produce it, has no deviation
  // to measure by: the filter is off for every threshold.
  lemma MajorityAtOneValue(s: seq<real>, x: real, threshold: real)
    requires 2 * Count(Within(x, x), s) > |s|
    ensures MedianOf(s) == x && Mad(s) == 0.0
    ensures !Filters(s, threshold) && RemoveOutliers(s, threshold) == s
  {
    MadInMajority(s, x, x);
    hide Mad, MedianOf, Count;
  }

  // n samples at x and one at v.
  function Skewed(x: real, n: nat, v: real): (s: seq<real>)
    ensures |s| == n + 1 && (forall i :: 0 <= i < n ==> s[i] == x) && s[n] == v
  {
    Repeat(x, n) + [v]
  }

  lemma SkewedMean(x: real, n: nat, v: real)
    ensures (n + 1) as real * Mean(Skewed(x, n, v)) == n as real * x + v
  {
    var s := Skewed(x, n, v);
    SumAppend(Itself(), Repeat(x, n), [v]);
    SumRepeat(x, n);
    assert [v][1..] == [];
    assert Sum(s) == n as real * x + v;
    hide Sum, Skewed;
    MeanTimesCount(s);
  }

  lemma SkewedKeepsAll(x: real, n: nat, v: real, threshold: real)
    requires n >= 2
    ensures 2 * Count(Within(x, x), Skewed(x, n, v)) > n + 1
    ensures RemoveOutliers(Skewed(x, n, v), threshold) == Skewed(x, n, v)
  {
    var s := Skewed(x, n, v);
    CountAtLeast(Within(x, x), s, n);
    MajorityAtOneValue(s, x, threshold);
  }

  lemma SameFactor(n: real, a: real, b: real)
    requires n > 0.0 && n * a == n * b
    ensures a == b
  {
    assert n * (a - b) == 0.0;
  }

  // Three samples or more, all but one of them equal, can have any reported mean.
  lemma MeanCanBeAnything(n: nat, x: real, v: real, threshold: real) returns (s: seq<real>)
    requires n >= 3
    ensures |s| == n && 2 * Count(Within(x, x), s) > n && !Filters(s, threshold)
    ensures Metrics(s, threshold).mean == v
  {
    hide *;
    var total, others := n as real * v, (n - 1) as real * x;
    s := Skewed(x, n - 1, total - others);
    SkewedKeepsAll(x, n - 1, total - others, threshold);
    MajorityAtOneValue(s, x, threshold);
    MetricsOfKept(s, threshold);
    SkewedMean(x, n - 1, total - others);
    assert n as real * Mean(s) == total;
    SameFactor(n as real, Mean(s), v);
  }

  ghost predicate MeanInBand(s: seq<real>, threshold: real, lo: real, hi: real) {
    var slack := ReachOf(threshold, hi - lo);
    lo - slack <= Metrics(s, threshold).mean <= hi + slack
  }

  // Every list of n samples on which the filter is on (or off) has its reported
  // mean near any majority interval.
  ghost predicate MeanGuaranteed(n: nat, threshold: real, filters: bool) {
    forall s: seq<real>, lo: real, hi: real ::
      |s| == n && Filters(s, threshold) == filters && 2 * Count(Within(lo, hi), s) > n
      ==> MeanInBand(s, threshold, lo, hi)
  }

  lemma FewKeepsAll(s: seq<real>, threshold: real)
    requires |s| < 5
    ensures RemoveOutliers(s, threshold) == s
  {
  }

  lemma NearIsInBand(s: seq<real>, threshold: real, lo: real, hi: real)
    requires lo <= Metrics(s, threshold).mean <= hi && ReachOf(threshold, hi - lo) >= 0.0
    ensures MeanInBand(s, threshold, lo, hi)
  {
    hide Metrics, ReachOf;
  }

  lemma FewAreAll(s: seq<real>, lo: real, hi: real)
    requires |s| <= 2 && 2 * Count(Within(lo, hi), s) > |s|
    ensures s != [] && forall i :: 0 <= i < |s| ==> lo <= s[i] <= hi
  {
    hide Count;
    CountFull(Within(lo, hi), s);
    MajorityIsSome(s, lo, hi);
  }

  lemma FewSamples(s: seq<real>, threshold: real, lo: real, hi: real)
    requires |s| <= 2 && 2 * Count(Within(lo, hi), s) > |s| && threshold * MAD_SCALE >= 1.0
    ensures MeanInBand(s, threshold, lo, hi)
  {
    hide *;
    FewAreAll(s, lo, hi);
    MeanBounds(s, lo, hi);
    FewKeepsAll(s, threshold);
    MetricsOfKept(s, threshold);
    ReachCovers(threshold, hi - lo);
    NearIsInBand(s, threshold, lo, hi);
  }

  // The reported mean is near the majority exactly when the filter is on, or the
  // list has at most two samples and so no minority.
  lemma MeanGuaranteedIff(n: nat, threshold: real, filters: bool)
    requires threshold * MAD_SCALE >= 1.0
    ensures MeanGuaranteed(n, threshold, filters) <==> filters || n <= 2
  {
    if filters || n <= 2 {
      forall s: seq<real>, lo: real, hi: real
        | |s| == n && Filters(s, threshold) == filters && 2 * Count(Within(lo, hi), s) > n
        ensures MeanInBand(s, threshold, lo, hi)
      {
        if filters {
          MetricsResistOutliers(s, threshold, lo, hi);
        } else {
          FewSamples(s, threshold, lo, hi);
        }
      }
    } else {
      var s := MeanCanBeAnything(n, 0.0, 1.0, threshold);
      assert !MeanInBand(s, threshold, 0.0, 0.0);
    }
  }

  lemma ConcatMean(a: seq<real>, b: seq<real>)
    requires a + b != []
    ensures Mean(a + b) == (Sum(a) + Sum(b)) / (|a| + |b|) as real
  {
    SumAppend(Itself(), a, b);
  }

  // Three zeros and two samples at 1000: the majority is at 0, the mean at 400.
  lemma GuardLetsOutliersThrough()
    ensures var s := Repeat(0.0, 3) + Repeat(1000.0, 2);
            2 * Count(Within(0.0, 0.0), s) > |s| && Metrics(s, 3.5).mean == 400.0
  {
    var s := Repeat(0.0, 3) + Repeat(1000.0, 2);
    assert forall i :: 0 <= i < 3 ==> Within(0.0, 0.0)(s[i]);
    hide *;
    CountAtLeast(Within(0.0, 0.0), s, 3);
    MajorityAtOneValue(s, 0.0, 3.5);
    MetricsOfKept(s, 3.5);
    SumRepeat(0.0, 3);
    SumRepeat(1000.0, 2);
    ConcatMean(Repeat(0.0, 3), Repeat(1000.0, 2));
  }

  // --- the lower middle survives ----------------------------------------------

  function LowerMedian(s: seq<real>): real
    requires s != []
  {
    Sort(s)[LowMiddle(|s|)]
  }

  lemma NoNearer(t: seq<real>, j: nat)
    requires Sorted(t) && j < |t|
    ensures Abs(t[LowMiddle(|t|)] - Middle(t)) <= Abs(t[j] - Middle(t))
  {
    var low, mid := LowMiddle(|t|), |t| / 2;
    assert low <= mid <= low + 1;
    assert t[low] <= Middle(t) <= t[mid] && Middle(t) - t[low] == t[mid] - Middle(t);
    assert j <= low ==> t[j] <= t[low];
    assert j >= mid ==> t[mid] <= t[j];
  }

  lemma DeviationAboveGap(s: seq<real>, i: nat)
    requires i < |s|
    ensures Abs(LowerMedian(s) - MedianOf(s)) <= Deviations(s, MedianOf(s))[i]
  {
    var t := Sort(s);
    var j := MemberOfSort(s, i);
    NoNearer(t, j);
    assert MedianOf(s) == Middle(t) && LowerMedian(s) == t[LowMiddle(|t|)];
    hide *;
  }

  // No sample is nearer to the median than the lower middle one.
  lemma MadAtLeastGap(s: seq<real>)
    requires s != []
    ensures Mad(s) >= Abs(LowerMedian(s) - MedianOf(s))
  {
    var gap, d := Abs(LowerMedian(s) - MedianOf(s)), Deviations(s, MedianOf(s));
    assert Mad(s) == MedianOf(d);
    hide *;
    forall i | 0 <= i < |d| ensures gap <= d[i] <= Sort(d)[|d| - 1] {
      DeviationAboveGap(s, i);
      SortBounds(d, i);
    }
    MedianBounds(d, gap, Sort(d)[|d| - 1]);
  }

  lemma LowMiddleIsKept(s: seq<real>, threshold: real)
    requires s != [] && threshold * MAD_SCALE >= 1.0
    ensures LowerMedian(s) in RemoveOutliers(s, threshold)
  {
    var i := SortedMember(s, LowMiddle(|s|));
    assert s[i] == LowerMedian(s);
    hide Sort, LowerMedian, LowMiddle, Mad, MedianOf, ReachOf, Filter;
    MadAtLeastGap(s);
    if Filters(s, threshold) {
      ReachCovers(threshold, Mad(s));
      FilterContains(Near(MedianOf(s), ReachOf(threshold, Mad(s))), s, i);
    }
  }
}
