/** Counting residues: i -> a*i + s modulo n is a permutation when a and n are coprime. */
module Counting {

  function Gcd(a: nat, b: nat): nat
    decreases b
  {
    if b == 0 then a else Gcd(b, a % b)
  }

  lemma {:induction false} Bezout(a: nat, b: nat) returns (u: int, v: int)
    ensures a * u + b * v == Gcd(a, b)
    decreases b
  {
    if b == 0 {
      u, v := 1, 0;
    } else {
      var p, q := Bezout(b, a % b);
      u, v := q, p - (a / b) * q;
      BezoutStep(a, b, a / b, a % b, p, q);
    }
  }

  lemma BezoutStep(a: int, b: int, k: int, r: int, p: int, q: int)
    requires a == b * k + r
    ensures a * q + b * (p - k * q) == b * p + r * q
  {
    assert b * (p - k * q) == b * p - b * k * q;
    assert (b * k + r) * q == b * k * q + r * q;
  }

  function Residue(a: nat, s: nat, n: nat, i: nat): (r: nat)
    requires n > 0
    ensures r < n
  {
    (a * i + s) % n
  }

  lemma SmallMultiple(k: int, n: int)
    requires n >= 0
    ensures k >= 1 ==> k * n >= n
    ensures k <= -1 ==> k * n <= -n
  {
  }

  /** Coprime multipliers keep different indices apart. */
  lemma ResiduesDiffer(a: nat, s: nat, n: nat, i: nat, j: nat)
    requires n > 0 && Gcd(a, n) == 1 && i < n && j < n && Residue(a, s, n, i) == Residue(a, s, n, j)
    ensures i == j
  {
    hide Gcd;
    var u, v := Bezout(a, n);
    var d := i - j;
    var k := (a * i + s) / n - (a * j + s) / n;
    MultipleOfDifference(a, s, n, i, j, k);
    BezoutMultiple(a, n, u, v, d, k);
    SmallMultiple(u * k + v * d, n);
  }

  lemma MultipleOfDifference(a: nat, s: nat, n: nat, i: nat, j: nat, k: int)
    requires n > 0 && (a * i + s) % n == (a * j + s) % n && k == (a * i + s) / n - (a * j + s) / n
    ensures a * (i - j) == k * n
  {
    var x, y := a * i + s, a * j + s;
    assert x == n * (x / n) + x % n && y == n * (y / n) + y % n;
    assert a * (i - j) == x - y;
    assert n * (x / n) - n * (y / n) == k * n;
  }

  lemma BezoutMultiple(a: int, n: int, u: int, v: int, d: int, k: int)
    requires a * u + n * v == 1 && a * d == k * n
    ensures d == (u * k + v * d) * n
  {
    assert d == (a * u + n * v) * d == u * (a * d) + v * d * n;
    assert u * (k * n) + v * d * n == (u * k + v * d) * n;
  }

  // ----- Sizes of sets of integers

  predicate Between(low: int, i: int, high: int) {
    low <= i < high
  }

  function Range(low: int, high: int): set<int> {
    set i | low <= i < high && Between(low, i, high)
  }

  lemma InRange(low: int, i: int, high: int)
    ensures i in Range(low, high) <==> low <= i < high
  {
    assert low <= i < high ==> Between(low, i, high);
  }

  lemma {:induction false} RangeSize(low: int, high: int)
    requires low <= high
    ensures |Range(low, high)| == high - low
    decreases high - low
  {
    if low < high {
      RangeSize(low, high - 1);
      forall i ensures i in Range(low, high) <==> i in Range(low, high - 1) || i == high - 1 {
        InRange(low, i, high);
        InRange(low, i, high - 1);
      }
      assert Range(low, high) == Range(low, high - 1) + {high - 1};
    } else {
      assert Range(low, high) == {};
    }
  }

  /** Different members with different values in an interval: no more members than values. */
  lemma {:induction false} InjectiveBound(members: set<int>, f: int -> int, low: int, high: int)
    requires low <= high && forall x :: x in members ==> low <= f(x) < high
    requires forall x, y :: x in members && y in members && f(x) == f(y) ==> x == y
    ensures |members| <= high - low
    decreases high - low
  {
    if low == high {
      assert members == {} by {
        assert forall x :: x !in members;
      }
    } else if x :| x in members && f(x) == high - 1 {
      var rest := members - {x};
      assert |rest| == |members| - 1;
      InjectiveBound(rest, f, low, high - 1);
    } else {
      InjectiveBound(members, f, low, high - 1);
    }
  }

  /** The residue of an index counted from base; -1 outside the n indices considered. */
  function From(a: nat, s: nat, n: nat, base: int, i: int): int
    requires n > 0
  {
    if base <= i < base + n then Residue(a, s, n, i - base) else -1
  }

  /** Indices from base on whose residue falls below a bound. */
  function Hits(a: nat, s: nat, n: nat, base: int, bound: nat): set<int>
    requires n > 0
  {
    set i | base <= i < base + n && From(a, s, n, base, i) < bound
  }

  /** A one-to-one map onto n values takes each value once: bound of them lie below bound. */
  lemma BijectionCount(all: set<int>, hits: set<int>, f: int -> int, n: nat, bound: nat)
    requires |all| == n && bound <= n && hits <= all
    requires forall x :: x in all ==> 0 <= f(x) < n && (x in hits <==> f(x) < bound)
    requires forall x, y :: x in all && y in all && f(x) == f(y) ==> x == y
    ensures |hits| == bound
  {
    var misses := all - hits;
    InjectiveBound(hits, f, 0, bound);
    InjectiveBound(misses, f, bound, n);
    assert all == hits + misses;
    assert |all| == |hits| + |misses|;
  }

  lemma FromInjective(a: nat, s: nat, n: nat, base: int, x: int, y: int)
    requires n > 0 && Gcd(a, n) == 1 && base <= x < base + n && base <= y < base + n
    ensures From(a, s, n, base, x) == From(a, s, n, base, y) ==> x == y
  {
    hide Gcd, Residue;
    if From(a, s, n, base, x) == From(a, s, n, base, y) { ResiduesDiffer(a, s, n, x - base, y - base); }
  }

  lemma FromHits(a: nat, s: nat, n: nat, base: int, bound: nat, x: int)
    requires n > 0
    ensures x in Hits(a, s, n, base, bound) <==> base <= x < base + n && From(a, s, n, base, x) < bound
    ensures base <= x < base + n ==> 0 <= From(a, s, n, base, x) < n
  {
    hide Residue;
  }

  /** Main result: with a coprime multiplier exactly bound of n consecutive indices are hit. */
  lemma CoprimeCount(a: nat, s: nat, n: nat, base: int, bound: nat)
    requires n > 0 && Gcd(a, n) == 1 && bound <= n
    ensures |Hits(a, s, n, base, bound)| == bound
  {
    hide Gcd, Residue, From, Hits, Range;
    var hits, all := Hits(a, s, n, base, bound), Range(base, base + n);
    var f := (i: int) => From(a, s, n, base, i);
    forall x ensures (x in all <==> base <= x < base + n) && f(x) == From(a, s, n, base, x) { InRange(base, x, base + n); }
    forall x, y | x in all && y in all && f(x) == f(y) ensures x == y { FromInjective(a, s, n, base, x, y); }
    forall x ensures x in hits ==> x in all { FromHits(a, s, n, base, bound, x); }
    forall x | x in all ensures 0 <= f(x) < n && (x in hits <==> f(x) < bound) { FromHits(a, s, n, base, bound, x); }
    RangeSize(base, base + n);
    BijectionCount(all, hits, f, n, bound);
  }
}
