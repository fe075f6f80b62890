// The cycle structure of the two link patterns latency_measurer.cpp builds.

module Rings {
  import opened Modular

  // Every link names a node of the buffer.
  ghost predicate Links(next: seq<nat>) {
    forall i :: 0 <= i < |next| ==> next[i] < |next|
  }

  // The node reached from x by k links.
  function Follow(next: seq<nat>, x: nat, k: nat): (y: nat)
    requires Links(next) && x < |next|
    ensures y < |next|
    decreases k
  {
    if k == 0 then x else Follow(next, next[x], k - 1)
  }

  // The nodes whose link a chase of k steps from x reads, in order.
  function ChaseTrace(next: seq<nat>, x: nat, k: nat): (t: seq<nat>)
    requires Links(next) && x < |next|
    ensures |t| == k
    decreases k
  {
    if k == 0 then [] else [x] + ChaseTrace(next, next[x], k - 1)
  }

  lemma {:induction false} ChaseReadsFollow(next: seq<nat>, x: nat, k: nat, i: nat)
    requires Links(next) && x < |next| && i < k
    ensures ChaseTrace(next, x, k)[i] == Follow(next, x, i)
    decreases k
  {
    if i > 0 {
      ChaseReadsFollow(next, next[x], k - 1, i - 1);
    }
  }

  lemma {:induction false} FollowMore(next: seq<nat>, x: nat, k: nat)
    requires Links(next) && x < |next|
    ensures Follow(next, x, k + 1) == next[Follow(next, x, k)]
    ensures ChaseTrace(next, x, k + 1) == ChaseTrace(next, x, k) + [Follow(next, x, k)]
    decreases k
  {
    if k > 0 {
      FollowMore(next, next[x], k - 1);
    }
  }

  // --- the shuffled ring ----------------------------------------------------

  // Each node of the order links to its successor, the last to the first.
  ghost predicate IsRandomRing(next: seq<nat>, order: seq<nat>) {
    && IsPermutation(order, |next|)
    && forall i :: 0 <= i < |order| ==> next[order[i]] == order[Cyclic(i + 1, |order|)]
  }

  // The k nodes of the order from position s on, cyclically.
  function Window(order: seq<nat>, s: nat, k: nat): seq<nat>
    requires |order| > 0
  {
    seq(k, i requires 0 <= i < k => order[Cyclic(s + i, |order|)])
  }

  lemma {:induction false} RandomFollow(next: seq<nat>, order: seq<nat>, s: nat, k: nat)
    requires IsRandomRing(next, order) && Links(next) && s < |order|
    ensures Follow(next, order[s], k) == order[Cyclic(s + k, |order|)]
    decreases k
  {
    hide Cyclic;
    if k == 0 {
      CyclicSmall(s, |order|);
    } else {
      RandomFollow(next, order, Cyclic(s + 1, |order|), k - 1);
      CyclicAdd(s + 1, k - 1, |order|);
    }
  }

  lemma RandomTrace(next: seq<nat>, order: seq<nat>, s: nat, k: nat)
    requires IsRandomRing(next, order) && Links(next) && s < |order|
    ensures ChaseTrace(next, order[s], k) == Window(order, s, k)
  {
    hide Cyclic;
    forall i | 0 <= i < k ensures ChaseTrace(next, order[s], k)[i] == order[Cyclic(s + i, |order|)] {
      ChaseReadsFollow(next, order[s], k, i);
      RandomFollow(next, order, s, i);
    }
  }

  // Positions less than a full turn apart are different.
  lemma CyclicApart(i: int, j: int, n: nat)
    requires i < j < i + n
    ensures Cyclic(i, n) != Cyclic(j, n)
  {
    SameMod(j, i, n);
    ModUnique(j - i, n, 0, j - i);
  }

  // Up to n positions in a row name different nodes.
  lemma WindowDistinct(order: seq<nat>, s: nat, k: nat, i: nat, j: nat)
    requires IsPermutation(order, |order|) && i < j < k <= |order|
    ensures Window(order, s, k)[i] != Window(order, s, k)[j]
  {
    CyclicApart(s + i, s + j, |order|);
    hide Cyclic;
  }

  // Whatever the shuffle, the ring is a single cycle through all n nodes: any
  // node leads to any other in fewer than n steps, and back to itself exactly
  // at the multiples of n.
  lemma RandomRingIsOneCycle(next: seq<nat>, order: seq<nat>, x: nat, y: nat, k: nat)
    requires IsRandomRing(next, order) && Links(next) && x < |next| && y < |next|
    ensures exists steps: nat :: steps < |next| && Follow(next, x, steps) == y
    ensures Follow(next, x, k) == x <==> k % |next| == 0
  {
    var n := |next|;
    var s := PermutationCovers(order, n, x);
    var t := PermutationCovers(order, n, y);
    var steps := Cyclic(t - s, n);
    SmallShift(s, k, n);
    assert Cyclic(s + k, n) == s <==> k % n == 0;
    hide Cyclic;
    RandomFollow(next, order, s, steps);
    CyclicAdd(t - s, s, n);
    CyclicSmall(t, n);
    assert Follow(next, x, steps) == y;
    RandomFollow(next, order, s, k);
  }

  // --- the stride ring ------------------------------------------------------

  const LINE := 64

  // The stride in lines, at least one.
  function StrideLines(strideBytes: nat): (d: nat)
    ensures d >= 1
  {
    if strideBytes / LINE > 1 then strideBytes / LINE else 1
  }

  function StrideRing(n: nat, d: nat): (next: seq<nat>)
    ensures |next| == n && Links(next)
  {
    seq(n, i requires 0 <= i < n => (i + d) % n)
  }

  lemma {:induction false} StrideFollow(n: nat, d: nat, i: nat, k: nat)
    requires i < n
    ensures Follow(StrideRing(n, d), i, k) == Cyclic(i + k * d, n)
    decreases k
  {
    assert StrideRing(n, d)[i] == Cyclic(i + d, n);
    hide Cyclic, StrideRing;
    if k == 0 {
      CyclicSmall(i, n);
    } else {
      StrideFollow(n, d, Cyclic(i + d, n), k - 1);
      CyclicAdd(i + d, (k - 1) * d, n);
      Distribute(k, 1, d);
    }
  }

  lemma StrideDistinct(n: nat, d: nat, i: nat, j: nat)
    requires i < j < n
    ensures StrideRing(n, d)[i] != StrideRing(n, d)[j]
  {
    if (i + d) % n == (j + d) % n {
      SameMod(j + d, i + d, n);
      ModUnique(j - i, n, 0, j - i);
      assert false;
    }
  }

  // No two nodes share a successor.
  lemma StrideRingIsPermutation(n: nat, d: nat)
    ensures IsPermutation(StrideRing(n, d), n)
  {
    var next := StrideRing(n, d);
    forall i, j | 0 <= i < j < n ensures next[i] != next[j] {
      StrideDistinct(n, d, i, j);
    }
  }

  // Every cycle of the stride ring has exactly n / gcd(n, d) nodes, however
  // large the stride.
  lemma StrideCycleLength(n: nat, d: nat, i: nat, k: nat)
    requires i < n
    ensures n / Gcd(n, d) > 0
    ensures Follow(StrideRing(n, d), i, k) == i <==> k % (n / Gcd(n, d)) == 0
  {
    StrideFollow(n, d, i, k);
    SmallShift(i, k * d, n);
    DividesProduct(n, d, k);
  }

  ghost predicate Reaches(n: nat, d: nat, i: nat, j: nat)
    requires i < n
  {
    exists k: nat :: Follow(StrideRing(n, d), i, k) == j
  }

  lemma SameRemainder(n: nat, d: nat, i: nat, j: nat, k: nat)
    requires n > 0 && j == (i + k * d) % n
    ensures i % Gcd(n, d) == j % Gcd(n, d)
  {
    var g := Gcd(n, d);
    var x, y := Bezout(n, d);
    var q, m, e := (i + k * d) / n, n / g, d / g;
    DivMod(i + k * d, n);
    DivMod(n, g);
    DivMod(d, g);
    Associate(q, m, g);
    Associate(k, e, g);
    Distribute(q * m, k * e, g);
    assert i - j == (q * m - k * e) * g;
    MultipleMod(q * m - k * e, g);
    SameMod(i, j, g);
  }

  lemma LandsOn(i: int, j: int, shift: int, gap: int, w: int, n: int)
    requires 0 <= j < n && shift == gap - w * n && gap == j - i
    ensures (i + shift) % n == j
  {
    Distribute(0, w, n);
    ModUnique(i + shift, n, -w, j);
  }

  lemma StepsAlgebra(k: int, d: int, m: int, y: int, q: int, n: int, x: int, g: int)
    requires m * y == q * n + k && x * n + y * d == g
    ensures k * d == m * g - (m * x + q * d) * n
  {
    Associate(m, y, d);
    Distribute(q * n, k, d);
    assert m * g == m * (x * n) + m * (y * d);
    Associate(m, x, n);
    Associate(q, n, d);
    Associate(q, d, n);
    assert n * d == d * n;
    Distribute(m * x, q * d, n);
  }

  lemma StepsBetween(n: nat, d: nat, i: nat, j: nat) returns (k: nat)
    requires i < n && j < n && i % Gcd(n, d) == j % Gcd(n, d)
    ensures Follow(StrideRing(n, d), i, k) == j
  {
    var g := Gcd(n, d);
    var x, y := Bezout(n, d);
    SameMod(j, i, g);
    var m := (j - i) / g;
    DivMod(j - i, g);
    k := (m * y) % n;
    DivMod(m * y, n);
    var q := (m * y) / n;
    // k*d = m*y*d - q*n*d = m*(g - x*n) - q*n*d, so i + k*d and j differ by a multiple of n
    StepsAlgebra(k, d, m, y, q, n, x, g);
    var w := m * x + q * d;
    LandsOn(i, j, k * d, m * g, w, n);
    StrideFollow(n, d, i, k);
  }

  // One node reaches another exactly when they agree modulo gcd(n, d).
  lemma StrideOrbits(n: nat, d: nat, i: nat, j: nat)
    requires i < n && j < n
    ensures Reaches(n, d, i, j) <==> i % Gcd(n, d) == j % Gcd(n, d)
  {
    var g := Gcd(n, d);
    if i % g == j % g {
      var k := StepsBetween(n, d, i, j);
      assert Follow(StrideRing(n, d), i, k) == j;
    }
    if k: nat :| Follow(StrideRing(n, d), i, k) == j {
      StrideFollow(n, d, i, k);
      SameRemainder(n, d, i, j, k);
    }
  }

  // The nodes on the cycle of node i.
  ghost function Cycle(n: nat, d: nat, i: nat): set<nat>
    requires i < n
  {
    set j: nat | j < n && Reaches(n, d, i, j)
  }

  ghost function Cycles(n: nat, d: nat): set<set<nat>> {
    set i: nat | i < n :: Cycle(n, d, i)
  }

  lemma CycleInRange(n: nat, d: nat, i: nat)
    requires i < n
    ensures forall x :: x in Cycle(n, d, i) ==> x < n
  {
  }

  lemma SameCycle(n: nat, d: nat, i: nat, j: nat)
    requires i < n && j < n
    ensures Cycle(n, d, i) == Cycle(n, d, j) <==> i % Gcd(n, d) == j % Gcd(n, d)
  {
    forall x: nat | x < n ensures
      && (x in Cycle(n, d, i) <==> i % Gcd(n, d) == x % Gcd(n, d))
      && (x in Cycle(n, d, j) <==> j % Gcd(n, d) == x % Gcd(n, d))
    {
      StrideOrbits(n, d, i, x);
      StrideOrbits(n, d, j, x);
    }
    hide Cycle, Gcd;
    if Cycle(n, d, i) == Cycle(n, d, j) {
      assert j in Cycle(n, d, j);
    } else {
      CycleInRange(n, d, i);
      CycleInRange(n, d, j);
    }
  }

  // The cycles of the first m nodes are all different while m <= gcd(n, d).
  lemma {:induction false} FirstCycles(n: nat, d: nat, m: nat) returns (first: set<set<nat>>)
    requires n > 0 && m <= Gcd(n, d) <= n
    ensures |first| == m
    ensures forall c :: c in first <==> exists i: nat :: i < m && c == Cycle(n, d, i)
    decreases m
  {
    first := {};
    if m > 0 {
      var fewer := FirstCycles(n, d, m - 1);
      var c := Cycle(n, d, m - 1);
      if c in fewer {
        var i: nat :| i < m - 1 && c == Cycle(n, d, i);
        SameCycle(n, d, i, m - 1);
        ModUnique(i, Gcd(n, d), 0, i);
        ModUnique(m - 1, Gcd(n, d), 0, m - 1);
        assert false;
      }
      first := fewer + {c};
    }
  }

  lemma GcdFits(n: nat, d: nat)
    requires n > 0
    ensures Gcd(n, d) <= n && n == n / Gcd(n, d) * Gcd(n, d)
  {
    var g := Gcd(n, d);
    var _, _ := Bezout(n, d);
    DivMod(n, g);
    assert n / g >= 1 ==> (n / g - 1) * g >= 0;
    Distribute(n / g, 1, g);
  }

  lemma CycleCount(n: nat, d: nat)
    requires n > 0
    ensures |Cycles(n, d)| == Gcd(n, d)
  {
    var g := Gcd(n, d);
    GcdFits(n, d);
    var first := FirstCycles(n, d, g);
    forall c | c in Cycles(n, d) ensures c in first {
      var i: nat :| i < n && c == Cycle(n, d, i);
      DivMod(i, g);
      var r: nat := i % g;
      ModUnique(r, g, 0, r);
      SameCycle(n, d, i, r);
    }
    forall c | c in first ensures c in Cycles(n, d) {
      var r: nat :| r < g && c == Cycle(n, d, r);
    }
    assert first == Cycles(n, d);
  }

  // The first m numbers with remainder r modulo g.
  ghost function Residues(g: nat, r: nat, m: nat): set<nat> {
    if m == 0 then {} else Residues(g, r, m - 1) + {(m - 1) * g + r}
  }

  lemma {:induction false} ResiduesCount(g: nat, r: nat, m: nat, x: nat)
    requires r < g
    ensures x in Residues(g, r, m) <==> x < m * g && x % g == r
    ensures |Residues(g, r, m)| == m
  {
    if m > 0 {
      ResiduesCount(g, r, m - 1, x);
      var last := (m - 1) * g + r;
      ResiduesCount(g, r, m - 1, last);
      Distribute(m, 1, g);
      ModUnique(last, g, m - 1, r);
      if (m - 1) * g <= x < m * g {
        ModUnique(x, g, m - 1, x - (m - 1) * g);
      }
    }
  }

  lemma CycleSize(n: nat, d: nat, i: nat)
    requires i < n
    ensures |Cycle(n, d, i)| == n / Gcd(n, d)
  {
    var g := Gcd(n, d);
    var r, m := i % g, n / g;
    GcdFits(n, d);
    DivMod(i, g);
    ResiduesCount(g, r, m, 0);
    forall x: nat ensures x in Cycle(n, d, i) <==> x in Residues(g, r, m) {
      ResiduesCount(g, r, m, x);
      if x < n {
        StrideOrbits(n, d, i, x);
      }
    }
    assert Cycle(n, d, i) == Residues(g, r, m);
  }

  // The ring falls apart into exactly gcd(n, d) cycles of n / gcd(n, d) nodes.
  lemma StrideCycles(n: nat, d: nat, i: nat)
    requires i < n
    ensures |Cycles(n, d)| == Gcd(n, d) && |Cycle(n, d, i)| == n / Gcd(n, d)
  {
    CycleCount(n, d);
    CycleSize(n, d, i);
  }
}
