// Sums, counts, filters and sorting of sample lists, over exact reals.

module Samples {
  function Abs(x: real): (r: real)
    ensures r >= 0.0 && (r == x || r == -x)
  {
    if x < 0.0 then -x else x
  }

  // --- sums -----------------------------------------------------------------

  function SumOf(f: real -> real, s: seq<real>): real
    decreases |s|
  {
    if s == [] then 0.0 else f(s[0]) + SumOf(f, s[1..])
  }

  function Itself(): real -> real { x => x }

  function SquaredFrom(c: real): real -> real { x => (x - c) * (x - c) }

  function DistanceFrom(c: real): real -> real { x => Abs(x - c) }

  function Sum(s: seq<real>): real { SumOf(Itself(), s) }

  function SumSquares(s: seq<real>, c: real): real { SumOf(SquaredFrom(c), s) }

  lemma {:induction false} SumAppend(f: real -> real, a: seq<real>, b: seq<real>)
    ensures SumOf(f, a + b) == SumOf(f, a) + SumOf(f, b)
    decreases |a|
  {
    if a == [] {
      assert a + b == b;
    } else {
      assert (a + b)[1..] == a[1..] + b;
      SumAppend(f, a[1..], b);
    }
  }

  // Raising samples raises their sum.
  lemma {:induction false} SumRises(a: seq<real>, b: seq<real>)
    requires |a| == |b| && forall i :: 0 <= i < |a| ==> a[i] <= b[i]
    ensures Sum(a) <= Sum(b)
    decreases |a|
  {
    if a != [] {
      SumRises(a[1..], b[1..]);
    }
  }

  // A value repeated n times.
  function Repeat(x: real, n: nat): (r: seq<real>)
    ensures |r| == n && forall i :: 0 <= i < n ==> r[i] == x
  {
    if n == 0 then [] else [x] + Repeat(x, n - 1)
  }

  lemma {:induction false} SumRepeat(x: real, n: nat)
    ensures Sum(Repeat(x, n)) == n as real * x
  {
    if n > 0 {
      SumRepeat(x, n - 1);
      assert Repeat(x, n)[1..] == Repeat(x, n - 1);
    }
  }

  lemma {:induction false} SumBounds(s: seq<real>, lo: real, hi: real)
    requires forall i :: 0 <= i < |s| ==> lo <= s[i] <= hi
    ensures |s| as real * lo <= Sum(s) <= |s| as real * hi
    decreases |s|
  {
    if s != [] {
      SumBounds(s[1..], lo, hi);
    }
  }

  function SquaredGap(a: real, b: real): real { (a - b) * (a - b) }

  function Cross(a: real, b: real): real { 2.0 * a * b }

  // Moving the centre of n samples with the sum t from c to d changes the sum of
  // squares by a linear term.
  ghost predicate Shifts(squaresD: real, squaresC: real, t: real, n: real, c: real, d: real) {
    squaresD == squaresC + Cross(c - d, t - n * c) + n * SquaredGap(c, d)
  }

  lemma Spread(a: real, b: real, c: real)
    ensures a * (b + c) == a * b + a * c
  {
  }

  lemma ShiftsOneMore(x: real, squaresD: real, squaresC: real, t: real, n: real, c: real, d: real)
    requires Shifts(squaresD, squaresC, t, n, c, d)
    ensures Shifts(SquaredGap(x, d) + squaresD, SquaredGap(x, c) + squaresC, x + t, n + 1.0, c, d)
  {
    var z := t - n * c;
    assert (x + t) - (n + 1.0) * c == z + (x - c);
    Spread(2.0 * (c - d), z, x - c);
    assert SquaredGap(x, d) == SquaredGap(x, c) + Cross(c - d, x - c) + SquaredGap(c, d);
  }

  lemma {:induction false} SquaresShift(s: seq<real>, c: real, d: real)
    ensures Shifts(SumSquares(s, d), SumSquares(s, c), Sum(s), |s| as real, c, d)
    decreases |s|
  {
    if s == [] {
      assert Cross(c - d, 0.0) == 0.0;
    } else {
      var rest := s[1..];
      assert SumSquares(s, d) == SquaredGap(s[0], d) + SumSquares(rest, d);
      assert SumSquares(s, c) == SquaredGap(s[0], c) + SumSquares(rest, c);
      assert Sum(s) == s[0] + Sum(rest);
      assert |s| as real == |rest| as real + 1.0;
      hide Shifts, SumOf, SumSquares, Sum;
      SquaresShift(rest, c, d);
      ShiftsOneMore(s[0], SumSquares(rest, d), SumSquares(rest, c), Sum(rest), |rest| as real, c, d);
    }
  }

  lemma ProductNonNegative(a: real, b: real)
    requires a >= 0.0 && b >= 0.0
    ensures a * b >= 0.0
  {
  }

  function Mean(s: seq<real>): real {
    if s == [] then 0.0 else Sum(s) / |s| as real
  }

  lemma MeanTimesCount(s: seq<real>)
    requires s != []
    ensures |s| as real * Mean(s) == Sum(s)
  {
  }

  lemma NoCross(squaresD: real, squaresC: real, t: real, n: real, c: real, d: real)
    requires Shifts(squaresD, squaresC, t, n, c, d) && n * c == t
    ensures squaresD == squaresC + n * SquaredGap(c, d)
  {
    var z := t - n * c;
    assert Cross(c - d, z) == 0.0;
  }

  lemma CentreShift(s: seq<real>, mean: real, c: real)
    requires |s| as real * mean == Sum(s)
    ensures SumSquares(s, c) == SumSquares(s, mean) + |s| as real * SquaredGap(mean, c)
  {
    var squares, squaresMean, t, n := SumSquares(s, c), SumSquares(s, mean), Sum(s), |s| as real;
    SquaresShift(s, mean, c);
    hide SumOf, SumSquares, Sum;
    NoCross(squares, squaresMean, t, n, mean, c);
  }

  // The squares about any centre exceed those about the mean by n times the
  // squared distance of the two.
  lemma MeanIsCentre(s: seq<real>, c: real)
    requires s != []
    ensures SumSquares(s, c) == SumSquares(s, Mean(s)) + |s| as real * SquaredGap(Mean(s), c)
  {
    MeanTimesCount(s);
    CentreShift(s, Mean(s), c);
  }

  lemma {:induction false} SquaresNonNegative(s: seq<real>, c: real)
    ensures SumSquares(s, c) >= 0.0
    decreases |s|
  {
    if s != [] {
      var d := s[0] - c;
      assert d * d >= 0.0;
      SquaresNonNegative(s[1..], c);
    }
  }

  // --- counting and filtering -----------------------------------------------

  function Count(p: real -> bool, s: seq<real>): (n: nat)
    ensures n <= |s|
    decreases |s|
  {
    if s == [] then 0 else (if p(s[0]) then 1 else 0) + Count(p, s[1..])
  }

  function Filter(p: real -> bool, s: seq<real>): (r: seq<real>)
    ensures |r| == Count(p, s)
    decreases |s|
  {
    if s == [] then [] else (if p(s[0]) then [s[0]] else []) + Filter(p, s[1..])
  }

  lemma {:induction false} FilterHolds(p: real -> bool, s: seq<real>, x: real)
    requires x in Filter(p, s)
    ensures p(x) && x in s
    decreases |s|
  {
    if !(p(s[0]) && x == s[0]) {
      FilterHolds(p, s[1..], x);
    }
  }

  lemma {:induction false} FilterContains(p: real -> bool, s: seq<real>, i: nat)
    requires i < |s| && p(s[i])
    ensures s[i] in Filter(p, s)
    decreases |s|
  {
    if i > 0 {
      FilterContains(p, s[1..], i - 1);
    }
  }

  lemma {:induction false} CountFull(p: real -> bool, s: seq<real>)
    requires Count(p, s) == |s|
    ensures forall i :: 0 <= i < |s| ==> p(s[i])
    decreases |s|
  {
    if s != [] {
      CountFull(p, s[1..]);
      assert forall i :: 1 <= i < |s| ==> s[i] == s[1..][i - 1];
    }
  }

  lemma FilterStep(p: real -> bool, x: real, rest: seq<real>)
    ensures Filter(p, [x] + rest) == (if p(x) then [x] else []) + Filter(p, rest)
  {
    assert ([x] + rest)[1..] == rest;
  }

  function Within(lo: real, hi: real): real -> bool { x => lo <= x <= hi }

  function AtMost(v: real): real -> bool { x => x <= v }

  // Nothing satisfies p from position m on, or before it.
  lemma {:induction false} CountBefore(p: real -> bool, s: seq<real>, m: nat)
    requires m <= |s| && forall i :: m <= i < |s| ==> !p(s[i])
    ensures Count(p, s) <= m
    decreases |s|
  {
    if s != [] {
      if m > 0 {
        CountBefore(p, s[1..], m - 1);
      } else {
        CountBefore(p, s[1..], 0);
      }
    }
  }

  lemma {:induction false} CountAfter(p: real -> bool, s: seq<real>, m: nat)
    requires m <= |s| && forall i :: 0 <= i < m ==> !p(s[i])
    ensures Count(p, s) <= |s| - m
    decreases |s|
  {
    if m > 0 {
      CountAfter(p, s[1..], m - 1);
    }
  }

  lemma {:induction false} CountAtLeast(p: real -> bool, s: seq<real>, m: nat)
    requires m <= |s| && forall i :: 0 <= i < m ==> p(s[i])
    ensures Count(p, s) >= m
    decreases |s|
  {
    if m > 0 {
      CountAtLeast(p, s[1..], m - 1);
    }
  }

  lemma {:induction false} CountFrom(p: real -> bool, s: seq<real>, m: nat)
    requires m <= |s| && forall i :: m <= i < |s| ==> p(s[i])
    ensures Count(p, s) >= |s| - m
    decreases |s|
  {
    if m > 0 {
      CountFrom(p, s[1..], m - 1);
    } else if s != [] {
      CountFrom(p, s[1..], 0);
    }
  }

  ghost function Where(p: real -> bool, s: seq<real>): set<int> {
    set i | 0 <= i < |s| && p(s[i])
  }

  lemma WhereLast(p: real -> bool, s: seq<real>)
    requires s != []
    ensures var last := |s| - 1;
            && last !in Where(p, s[..last])
            && Where(p, s) == Where(p, s[..last]) + if p(s[last]) then {last} else {}
  {
  }

  lemma {:induction false} CountLast(p: real -> bool, s: seq<real>)
    requires s != []
    ensures Count(p, s) == Count(p, s[..|s| - 1]) + if p(s[|s| - 1]) then 1 else 0
    decreases |s|
  {
    if |s| > 1 {
      CountLast(p, s[1..]);
      assert s[..|s| - 1][1..] == s[1..][..|s| - 2];
    }
  }

  // How many is how many positions.
  lemma {:induction false} CountPositions(p: real -> bool, s: seq<real>)
    ensures Count(p, s) == |Where(p, s)|
    decreases |s|
  {
    if s == [] {
      assert Where(p, s) == {};
    } else {
      hide Count, Where;
      CountPositions(p, s[..|s| - 1]);
      CountLast(p, s);
      WhereLast(p, s);
    }
  }

  // If q holds at every position of t where p holds of s, q counts at least as many.
  lemma {:induction false} CountTransfers(p: real -> bool, s: seq<real>, q: real -> bool, t: seq<real>)
    requires |s| == |t| && forall i :: 0 <= i < |s| && p(s[i]) ==> q(t[i])
    ensures Count(p, s) <= Count(q, t)
    decreases |s|
  {
    if s != [] {
      CountTransfers(p, s[1..], q, t[1..]);
    }
  }

  // The positions from `from` on that satisfy p, ascending.
  function Positions(p: real -> bool, s: seq<real>, from: nat): seq<nat>
    requires from <= |s|
    decreases |s| - from
  {
    if from == |s| then [] else (if p(s[from]) then [from] else []) + Positions(p, s, from + 1)
  }

  // kept lists the samples at the positions `at`: ascending ones, exactly those
  // from `from` on that satisfy p.
  ghost predicate KeepsExactly(p: real -> bool, s: seq<real>, from: nat, kept: seq<real>, at: seq<nat>) {
    && |at| == |kept|
    && (forall j :: 0 <= j < |at| ==> from <= at[j] < |s| && p(s[at[j]]) && kept[j] == s[at[j]])
    && (forall j, k :: 0 <= j < k < |at| ==> at[j] < at[k])
    && (forall i :: from <= i < |s| && p(s[i]) ==> i in at)
  }

  lemma KeepsOneMore(p: real -> bool, s: seq<real>, from: nat, kept: seq<real>, at: seq<nat>)
    requires from < |s| && p(s[from]) && KeepsExactly(p, s, from + 1, kept, at)
    ensures KeepsExactly(p, s, from, [s[from]] + kept, [from] + at)
  {
    assert ([from] + at)[0] == from;
  }

  lemma KeepsNoMore(p: real -> bool, s: seq<real>, from: nat, kept: seq<real>, at: seq<nat>)
    requires from < |s| && !p(s[from]) && KeepsExactly(p, s, from + 1, kept, at)
    ensures KeepsExactly(p, s, from, kept, at)
  {
  }

  lemma PositionsStep(p: real -> bool, s: seq<real>, from: nat)
    requires from < |s|
    requires KeepsExactly(p, s, from + 1, Filter(p, s[from + 1..]), Positions(p, s, from + 1))
    ensures KeepsExactly(p, s, from, Filter(p, s[from..]), Positions(p, s, from))
  {
    var kept, at := Filter(p, s[from + 1..]), Positions(p, s, from + 1);
    assert s[from..] == [s[from]] + s[from + 1..];
    FilterStep(p, s[from], s[from + 1..]);
    hide KeepsExactly, Filter;
    if p(s[from]) {
      KeepsOneMore(p, s, from, kept, at);
    } else {
      assert [] + kept == kept && [] + at == at;
      KeepsNoMore(p, s, from, kept, at);
    }
  }

  // A filter keeps exactly the positions that satisfy p, in their order.
  lemma {:induction false} FilterPositions(p: real -> bool, s: seq<real>, from: nat)
    requires from <= |s|
    ensures KeepsExactly(p, s, from, Filter(p, s[from..]), Positions(p, s, from))
    decreases |s| - from
  {
    if from < |s| {
      FilterPositions(p, s, from + 1);
      PositionsStep(p, s, from);
    }
  }

  // --- sorting --------------------------------------------------------------

  ghost predicate Sorted(s: seq<real>) {
    forall i, j :: 0 <= i < j < |s| ==> s[i] <= s[j]
  }

  function Insert(x: real, s: seq<real>): (r: seq<real>)
    ensures |r| == |s| + 1
    decreases |s|
  {
    if s == [] || x <= s[0] then [x] + s else [s[0]] + Insert(x, s[1..])
  }

  lemma SortedCons(x: real, s: seq<real>)
    requires Sorted(s) && (s == [] || x <= s[0])
    ensures Sorted([x] + s)
  {
  }

  lemma {:induction false} InsertSorted(x: real, s: seq<real>)
    requires Sorted(s)
    ensures Sorted(Insert(x, s))
    decreases |s|
  {
    if s != [] {
      if x <= s[0] {
        SortedCons(x, s);
      } else {
        InsertSorted(x, s[1..]);
        SortedCons(s[0], Insert(x, s[1..]));
      }
    }
  }

  // What std::sort leaves: the same values, ascending.
  function Sort(s: seq<real>): (r: seq<real>)
    ensures |r| == |s| && Sorted(r)
    decreases |s|
  {
    if s == [] then [] else
      InsertSorted(s[0], Sort(s[1..]));
      Insert(s[0], Sort(s[1..]))
  }

  lemma MultisetCons(x: real, s: seq<real>)
    ensures multiset([x] + s) == multiset{x} + multiset(s)
  {
  }

  lemma {:induction false} InsertPermutes(x: real, s: seq<real>)
    ensures multiset(Insert(x, s)) == multiset{x} + multiset(s)
    decreases |s|
  {
    if s == [] || x <= s[0] {
      MultisetCons(x, s);
    } else {
      InsertPermutes(x, s[1..]);
      MultisetCons(s[0], Insert(x, s[1..]));
      MultisetCons(s[0], s[1..]);
      assert s == [s[0]] + s[1..];
    }
  }

  lemma {:induction false} SortPermutes(s: seq<real>)
    ensures multiset(Sort(s)) == multiset(s)
    decreases |s|
  {
    if s != [] {
      SortPermutes(s[1..]);
      InsertPermutes(s[0], Sort(s[1..]));
      MultisetCons(s[0], s[1..]);
      assert s == [s[0]] + s[1..];
    }
  }

  lemma EndsAt(t: seq<real>, j: nat)
    requires Sorted(t) && j < |t|
    ensures t[0] <= t[j] <= t[|t| - 1]
  {
  }

  lemma SortedEnds(t: seq<real>, x: real)
    requires Sorted(t) && x in t
    ensures t != [] && t[0] <= x <= t[|t| - 1]
  {
    var j :| 0 <= j < |t| && t[j] == x;
    EndsAt(t, j);
  }

  lemma CancelMultiset(x: real, a: multiset<real>, b: multiset<real>)
    requires multiset{x} + a == multiset{x} + b
    ensures a == b
  {
    assert (multiset{x} + a) - multiset{x} == a;
    assert (multiset{x} + b) - multiset{x} == b;
  }

  lemma SharedMember(a: seq<real>, b: seq<real>, i: nat)
    requires multiset(a) == multiset(b) && i < |a|
    ensures a[i] in b
  {
    assert a[i] in multiset(a);
  }

  lemma SameHead(a: seq<real>, b: seq<real>)
    requires Sorted(a) && Sorted(b) && multiset(a) == multiset(b) && a != [] && b != []
    ensures a[0] == b[0] && multiset(a[1..]) == multiset(b[1..])
  {
    SharedMember(a, b, 0);
    SharedMember(b, a, 0);
    SortedEnds(a, b[0]);
    SortedEnds(b, a[0]);
    hide Sorted;
    MultisetCons(a[0], a[1..]);
    MultisetCons(b[0], b[1..]);
    assert a == [a[0]] + a[1..] && b == [b[0]] + b[1..];
    CancelMultiset(a[0], multiset(a[1..]), multiset(b[1..]));
  }

  // An ascending arrangement is unique, so any sorting algorithm computes Sort.
  lemma {:induction false} SortedIsUnique(a: seq<real>, b: seq<real>)
    requires Sorted(a) && Sorted(b) && multiset(a) == multiset(b)
    ensures a == b
    decreases |a|
  {
    assert |multiset(a)| == |a| && |multiset(b)| == |b|;
    if a != [] {
      SameHead(a, b);
      SortedIsUnique(a[1..], b[1..]);
    }
  }

  lemma SortIgnoresOrder(a: seq<real>, b: seq<real>)
    requires multiset(a) == multiset(b)
    ensures Sort(a) == Sort(b)
  {
    SortPermutes(a);
    SortPermutes(b);
    SortedIsUnique(Sort(a), Sort(b));
  }

  lemma {:induction false} InsertKeepsSums(f: real -> real, p: real -> bool, x: real, s: seq<real>)
    ensures SumOf(f, Insert(x, s)) == f(x) + SumOf(f, s)
    ensures Count(p, Insert(x, s)) == (if p(x) then 1 else 0) + Count(p, s)
    decreases |s|
  {
    if s == [] || x <= s[0] {
      assert ([x] + s)[1..] == s;
    } else {
      InsertKeepsSums(f, p, x, s[1..]);
      assert ([s[0]] + Insert(x, s[1..]))[1..] == Insert(x, s[1..]);
    }
  }

  lemma {:induction false} SortKeepsSums(f: real -> real, p: real -> bool, s: seq<real>)
    ensures SumOf(f, Sort(s)) == SumOf(f, s)
    ensures Count(p, Sort(s)) == Count(p, s)
    decreases |s|
  {
    if s != [] {
      SortKeepsSums(f, p, s[1..]);
      InsertKeepsSums(f, p, s[0], Sort(s[1..]));
    }
  }

  // The k-th smallest sample is at most v exactly when more than k samples are.
  lemma OrderStatistic(s: seq<real>, k: nat, v: real)
    requires k < |s|
    ensures Sort(s)[k] <= v <==> Count(AtMost(v), s) > k
  {
    var t, p := Sort(s), AtMost(v);
    SortKeepsSums(Itself(), p, s);
    if t[k] <= v {
      CountAtLeast(p, t, k + 1);
    } else {
      CountBefore(p, t, k);
    }
  }

  // Raising samples raises every order statistic.
  lemma SortMonotone(a: seq<real>, b: seq<real>, k: nat)
    requires |a| == |b| && k < |a|
    requires forall i :: 0 <= i < |a| ==> a[i] <= b[i]
    ensures Sort(a)[k] <= Sort(b)[k]
  {
    var v := Sort(b)[k];
    OrderStatistic(b, k, v);
    CountTransfers(AtMost(v), b, AtMost(v), a);
    OrderStatistic(a, k, v);
  }

  lemma MemberOfSort(s: seq<real>, i: nat) returns (j: nat)
    requires i < |s|
    ensures j < |s| && Sort(s)[j] == s[i]
  {
    SortPermutes(s);
    SharedMember(s, Sort(s), i);
    j :| 0 <= j < |s| && Sort(s)[j] == s[i];
  }

  lemma SortedMember(s: seq<real>, j: nat) returns (i: nat)
    requires j < |s|
    ensures i < |s| && s[i] == Sort(s)[j]
  {
    SortPermutes(s);
    SharedMember(Sort(s), s, j);
    i :| 0 <= i < |s| && s[i] == Sort(s)[j];
  }

  lemma SortedAt(t: seq<real>, i: nat, j: nat)
    requires Sorted(t) && i <= j < |t|
    ensures t[i] <= t[j]
  {
  }

  lemma SortBounds(s: seq<real>, i: nat)
    requires i < |s|
    ensures Sort(s)[0] <= s[i] <= Sort(s)[|s| - 1]
  {
    hide Sort, Sorted;
    var j := MemberOfSort(s, i);
    EndsAt(Sort(s), j);
  }
}
