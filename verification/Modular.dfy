// Remainders, greatest common divisors and permutations of 0..n-1.

module Modular {
  lemma Distribute(a: int, b: int, n: int)
    ensures (a - b) * n == a * n - b * n
    ensures (a + b) * n == a * n + b * n
  {
  }

  lemma ProductNatural(a: nat, b: nat)
    ensures a * b >= 0
  {
  }

  lemma OneMore(k: nat, blocks: nat)
    ensures (k + 1) * blocks == k * blocks + blocks
  {
  }

  // k of `last` + 1 equal parts, each of size b.
  lemma RoundRange(k: nat, last: nat, b: nat)
    requires k <= last
    ensures 0 <= k * b <= (k + 1) * b && (k + 1) * b == k * b + b
    ensures k < last ==> (k + 1) * b <= last * b
    ensures k == last ==> k * b == last * b
  {
    OneMore(k, b);
    ProductNatural(k, b);
    if k < last {
      ProductNatural(last - (k + 1), b);
      Distribute(last, k + 1, b);
    }
  }

  lemma SliceOfFirst<T>(first: seq<T>, rest: seq<T>, from: nat, to: nat)
    requires from <= to <= |first|
    ensures (first + rest)[from..to] == first[from..to]
  {
  }

  lemma DivMod(a: int, n: int)
    requires n > 0
    ensures a == (a / n) * n + a % n && 0 <= a % n < n
  {
  }

  // The only multiple of n strictly between -n and n is 0.
  lemma SmallMultiple(x: int, n: int)
    requires n > 0 && -n < x * n < n
    ensures x == 0
  {
    Distribute(x, 1, n);
    Distribute(-x, 1, n);
    assert x >= 1 ==> (x - 1) * n >= 0;
    assert x <= -1 ==> (-x - 1) * n >= 0;
  }

  lemma ModUnique(a: int, n: int, q: int, r: int)
    requires n > 0 && a == q * n + r && 0 <= r < n
    ensures a % n == r && a / n == q
  {
    DivMod(a, n);
    Distribute(q, a / n, n);
    SmallMultiple(q - a / n, n);
  }

  lemma AddMod(a: int, b: int, n: int)
    requires n > 0
    ensures (a % n + b) % n == (a + b) % n
  {
    var c := a % n + b;
    DivMod(a, n);
    DivMod(c, n);
    Distribute(a / n, c / n, n);
    ModUnique(a + b, n, a / n + c / n, c % n);
  }

  lemma MultipleMod(m: int, n: int)
    requires n > 0
    ensures (m * n) % n == 0
  {
    ModUnique(m * n, n, m, 0);
  }

  // a and b leave the same remainder exactly when n divides their difference.
  lemma SameMod(a: int, b: int, n: int)
    requires n > 0
    ensures a % n == b % n <==> (a - b) % n == 0
  {
    DivMod(a, n);
    DivMod(b, n);
    DivMod(a - b, n);
    if a % n == b % n {
      Distribute(a / n, b / n, n);
      ModUnique(a - b, n, a / n - b / n, 0);
    }
    if (a - b) % n == 0 {
      Distribute((a - b) / n, b / n, n);
      ModUnique(a, n, (a - b) / n + b / n, b % n);
    }
  }

  lemma SmallShift(s: int, k: int, n: int)
    requires 0 <= s < n
    ensures (s + k) % n == s <==> k % n == 0
  {
    SameMod(s + k, s, n);
    ModUnique(s, n, 0, s);
  }

  // The position i of a circle of n.
  function Cyclic(i: int, n: nat): (r: nat)
    requires n > 0
    ensures r < n
  {
    i % n
  }

  lemma CyclicSmall(i: nat, n: nat)
    requires i < n
    ensures Cyclic(i, n) == i
  {
    ModUnique(i, n, 0, i);
  }

  lemma CyclicAdd(i: int, k: int, n: nat)
    requires n > 0
    ensures Cyclic(Cyclic(i, n) + k, n) == Cyclic(i + k, n)
  {
    AddMod(i, k, n);
  }

  // --- greatest common divisor ----------------------------------------------

  function Gcd(a: nat, b: nat): (g: nat)
    requires a > 0
    ensures g > 0
    decreases b
  {
    if b == 0 then a else Gcd(b, a % b)
  }

  lemma BezoutStep(a: int, b: int, q: int, r: int, u: int, v: int)
    requires a == q * b + r
    ensures v * a + (u - v * q) * b == u * b + v * r
  {
    assert v * a == v * (q * b) + v * r;
    assert (u - v * q) * b == u * b - (v * q) * b;
    assert v * (q * b) == (v * q) * b;
  }

  lemma DivideSum(q: int, b: int, r: int, g: int)
    requires g > 0 && b % g == 0 && r % g == 0
    ensures (q * b + r) % g == 0
  {
    var m, k := b / g, r / g;
    DivMod(b, g);
    DivMod(r, g);
    assert q * (m * g) == (q * m) * g;
    Distribute(q * m, k, g);
    MultipleMod(q * m + k, g);
  }

  // Gcd divides both numbers and is a combination of them.
  lemma {:induction false} Bezout(a: nat, b: nat) returns (x: int, y: int)
    requires a > 0
    ensures x * a + y * b == Gcd(a, b)
    ensures a % Gcd(a, b) == 0 && b % Gcd(a, b) == 0
    decreases b
  {
    var g := Gcd(a, b);
    if b == 0 {
      x, y := 1, 0;
      ModUnique(a, a, 1, 0);
    } else {
      var q, r := a / b, a % b;
      var u, v := Bezout(b, r);
      DivMod(a, b);
      BezoutStep(a, b, q, r, u, v);
      x, y := v, u - v * q;
      DivideSum(q, b, r, g);
    }
  }

  lemma Associate(a: int, b: int, c: int)
    ensures a * (b * c) == (a * b) * c
  {
  }

  lemma Regroup(t: int, m: int, e: int, g: int)
    ensures (t * m) * (e * g) == (t * e) * (m * g)
  {
    Associate(t, m, e * g);
    Associate(m, e, g);
    Associate(e, m, g);
    Associate(t, e, m * g);
    assert m * e == e * m;
  }

  // With x*n + y*d for g: k*g is a multiple of n when k*d is.
  lemma Combine(k: int, x: int, n: int, y: int, d: int, q: int)
    requires k * d == q * n
    ensures k * (x * n + y * d) == (k * x + y * q) * n
  {
    assert k * (x * n + y * d) == k * (x * n) + k * (y * d);
    Associate(k, x, n);
    assert k * (y * d) == y * (k * d) by {
      Associate(k, y, d);
      Associate(y, k, d);
      assert k * y == y * k;
    }
    Associate(y, q, n);
    Distribute(k * x, y * q, n);
  }

  lemma CancelFactor(a: int, b: int, g: int)
    requires g > 0 && a * g == b * g
    ensures a == b
  {
    assert (a - b) * g == 0;
  }

  // k steps of d come round to a multiple of n exactly when n / gcd divides k.
  lemma DividesProduct(n: nat, d: nat, k: nat)
    requires n > 0
    ensures n / Gcd(n, d) > 0
    ensures (k * d) % n == 0 <==> k % (n / Gcd(n, d)) == 0
  {
    var g := Gcd(n, d);
    var x, y := Bezout(n, d);
    var m, e := n / g, d / g;
    DivMod(n, g);
    DivMod(d, g);
    assert n == m * g && d == e * g;
    assert m > 0;
    if k % m == 0 {
      var t := k / m;
      DivMod(k, m);
      Regroup(t, m, e, g);
      MultipleMod(t * e, n);
    }
    if (k * d) % n == 0 {
      var q := (k * d) / n;
      DivMod(k * d, n);
      var z := k * x + y * q;
      Combine(k, x, n, y, d, q);
      Associate(z, m, g);
      CancelFactor(k, z * m, g);
      MultipleMod(z, m);
    }
  }

  // --- permutations ---------------------------------------------------------

  ghost predicate IsPermutation(s: seq<nat>, n: nat) {
    && |s| == n
    && (forall i :: 0 <= i < n ==> s[i] < n)
    && (forall i, j :: 0 <= i < j < n ==> s[i] != s[j])
  }

  ghost function Elements(s: seq<nat>): set<nat> { set x | x in s }

  lemma {:induction false} DistinctCount(s: seq<nat>)
    requires forall i, j :: 0 <= i < j < |s| ==> s[i] != s[j]
    ensures |Elements(s)| == |s|
    decreases |s|
  {
    if s != [] {
      var rest := s[..|s| - 1];
      DistinctCount(rest);
      assert Elements(s) == Elements(rest) + {s[|s| - 1]};
    }
  }

  ghost function Below(n: nat): (b: set<nat>)
    ensures forall x: nat :: x in b <==> x < n
    ensures |b| == n
  {
    if n == 0 then {} else Below(n - 1) + {n - 1}
  }

  lemma {:induction false} FullSubset(a: set<nat>, b: set<nat>)
    requires a <= b && |a| == |b|
    ensures a == b
    decreases |a|
  {
    if a != {} {
      var x :| x in a;
      FullSubset(a - {x}, b - {x});
      assert a == (a - {x}) + {x};
      assert b == (b - {x}) + {x};
    }
  }

  // n distinct numbers below n are all the numbers below n.
  lemma PermutationCovers(s: seq<nat>, n: nat, x: nat) returns (i: nat)
    requires IsPermutation(s, n) && x < n
    ensures i < n && s[i] == x
  {
    DistinctCount(s);
    FullSubset(Elements(s), Below(n));
    assert x in Elements(s);
    i :| 0 <= i < n && s[i] == x;
  }
}
