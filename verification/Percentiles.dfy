/** Nearest-rank percentiles of integer durations (percentile and maxDuration in
    cmd/aicrm-contact-perf/main.go). */
module Percentiles {
  import Sorting

  predicate AtMost(a: int, b: int) {
    a <= b
  }

  lemma AtMostIsTotal()
    ensures Sorting.TotalOrder(AtMost)
  {
  }

  function Index(rank: int, n: nat): int {
    (rank * n + 99) / 100
  }

  lemma IndexBounds(rank: int, n: nat)
    requires 1 <= rank <= 100 && n > 0
    ensures 1 <= Index(rank, n) <= n
    ensures 100 * (Index(rank, n) - 1) < rank * n <= 100 * Index(rank, n)
  {
    assert rank * n <= 100 * n && rank * n >= n;
  }

  lemma ScaleMonotone(a: int, b: int, n: nat)
    requires a <= b
    ensures a * n <= b * n
  {
  }

  function Percentile(values: seq<int>, rank: int): int {
    if values == [] then 0
    else if rank < 1 || rank > 100 then 0
    else
      var ordered := Sorting.Sort(values, AtMost);
      IndexBounds(rank, |ordered|);
      ordered[Index(rank, |ordered|) - 1]
  }

  // ----- Counting

  function CountAtMost(values: seq<int>, v: int): nat {
    if values == [] then 0 else (if values[0] <= v then 1 else 0) + CountAtMost(values[1..], v)
  }

  lemma {:induction false} CountConcat(a: seq<int>, b: seq<int>, v: int)
    ensures CountAtMost(a + b, v) == CountAtMost(a, v) + CountAtMost(b, v)
  {
    if a == [] {
      assert a + b == b;
    } else {
      CountConcat(a[1..], b, v);
      assert (a + b)[1..] == a[1..] + b;
    }
  }

  lemma {:induction false} CountInserted(x: int, s: seq<int>, v: int)
    ensures CountAtMost(Sorting.Insert(x, s, AtMost), v) == (if x <= v then 1 else 0) + CountAtMost(s, v)
  {
    if s == [] || x <= s[0] {
      assert ([x] + s)[1..] == s;
    } else {
      CountInserted(x, s[1..], v);
      assert Sorting.Insert(x, s, AtMost)[1..] == Sorting.Insert(x, s[1..], AtMost);
    }
  }

  lemma {:induction false} CountSorted(s: seq<int>, v: int)
    ensures CountAtMost(Sorting.Sort(s, AtMost), v) == CountAtMost(s, v)
  {
    if s != [] {
      CountSorted(s[1..], v);
      CountInserted(s[0], Sorting.Sort(s[1..], AtMost), v);
    }
  }

  lemma {:induction false} CountAll(s: seq<int>, v: int)
    requires forall i :: 0 <= i < |s| ==> s[i] <= v
    ensures CountAtMost(s, v) == |s|
  {
    if s != [] {
      CountAll(s[1..], v);
    }
  }

  lemma {:induction false} CountNone(s: seq<int>, v: int)
    requires forall i :: 0 <= i < |s| ==> s[i] > v
    ensures CountAtMost(s, v) == 0
  {
    if s != [] {
      CountNone(s[1..], v);
    }
  }

  lemma {:induction false} CountMonotone(s: seq<int>, v: int, w: int)
    requires v <= w
    ensures CountAtMost(s, v) <= CountAtMost(s, w) <= |s|
  {
    if s != [] { CountMonotone(s[1..], v, w); }
  }

  /** In an ordered list, position and count agree. */
  lemma CountInOrder(s: seq<int>, i: nat, v: int)
    requires Sorting.Sorted(s, AtMost) && i < |s|
    ensures s[i] <= v ==> CountAtMost(s, v) >= i + 1
    ensures s[i] > v ==> CountAtMost(s, v) <= i
  {
    if s[i] <= v {
      var front := s[..i + 1];
      assert s == front + s[i + 1..];
      CountConcat(front, s[i + 1..], v);
      forall j | 0 <= j < |front| ensures front[j] <= v {
        assert j < i ==> AtMost(s[j], s[i]);
      }
      CountAll(front, v);
    } else {
      var back := s[i..];
      assert s == s[..i] + back;
      CountConcat(s[..i], back, v);
      forall j | 0 <= j < |back| ensures back[j] > v {
        assert j > 0 ==> AtMost(s[i], s[i + j]);
      }
      CountNone(back, v);
      CountMonotone(s[..i], v, v);
    }
  }

  // ----- What a percentile is

  /** The least sample at or below which at least rank per cent of the samples lie. */
  ghost predicate NearestRank(values: seq<int>, rank: int, v: int) {
    && v in values
    && 100 * CountAtMost(values, v) >= rank * |values|
    && (forall w :: w < v ==> 100 * CountAtMost(values, w) < rank * |values|)
  }

  /** A bound holds for the percentile exactly when enough samples are within it. */
  lemma PercentileWithin(values: seq<int>, rank: int, v: int)
    requires values != [] && 1 <= rank <= 100
    ensures Percentile(values, rank) <= v <==> 100 * CountAtMost(values, v) >= rank * |values|
  {
    AtMostIsTotal();
    Sorting.SortCorrect(values, AtMost);
    var ordered := Sorting.Sort(values, AtMost);
    IndexBounds(rank, |ordered|);
    CountInOrder(ordered, Index(rank, |ordered|) - 1, v);
    CountSorted(values, v);
  }

  /** Main result: percentile computes the nearest-rank percentile, and nothing else is one. */
  lemma PercentileIsNearestRank(values: seq<int>, rank: int, v: int)
    requires values != [] && 1 <= rank <= 100
    ensures Percentile(values, rank) == v <==> NearestRank(values, rank, v)
  {
    var p := Percentile(values, rank);
    PercentileWithin(values, rank, p);
    PercentileWithin(values, rank, v);
    AtMostIsTotal();
    Sorting.SortCorrect(values, AtMost);
    var ordered := Sorting.Sort(values, AtMost);
    IndexBounds(rank, |ordered|);
    assert p in multiset(ordered);
    hide Percentile;
    forall w | w < p ensures 100 * CountAtMost(values, w) < rank * |values| {
      PercentileWithin(values, rank, w);
    }
  }

  /** A higher rank never gives a lower percentile. */
  lemma PercentileMonotone(values: seq<int>, low: int, high: int)
    requires 1 <= low <= high <= 100
    ensures Percentile(values, low) <= Percentile(values, high)
  {
    if values != [] {
      hide Percentile, CountAtMost;
      PercentileWithin(values, high, Percentile(values, high));
      PercentileWithin(values, low, Percentile(values, high));
      ScaleMonotone(low, high, |values|);
    }
  }

  // ----- Concatenated cases

  function Concat(cases: seq<seq<int>>): seq<int> {
    if cases == [] then [] else Concat(cases[..|cases| - 1]) + cases[|cases| - 1]
  }

  lemma Distribute(rank: int, m: int, n: int)
    ensures rank * (m + n) == rank * m + rank * n
  {
  }

  lemma CaseWithin(one: seq<int>, rank: int, bound: int)
    requires 1 <= rank <= 100 && (one != [] ==> Percentile(one, rank) <= bound)
    ensures 100 * CountAtMost(one, bound) >= rank * |one|
  {
    if one != [] { PercentileWithin(one, rank, bound); }
  }

  lemma {:induction false} WithinAllCases(cases: seq<seq<int>>, rank: int, bound: int)
    requires 1 <= rank <= 100
    requires forall i :: 0 <= i < |cases| && cases[i] != [] ==> Percentile(cases[i], rank) <= bound
    ensures 100 * CountAtMost(Concat(cases), bound) >= rank * |Concat(cases)|
  {
    hide Percentile, CountAtMost;
    if cases != [] {
      var front, last := cases[..|cases| - 1], cases[|cases| - 1];
      WithinAllCases(front, rank, bound);
      CountConcat(Concat(front), last, bound);
      CaseWithin(last, rank, bound);
      Distribute(rank, |Concat(front)|, |last|);
    } else {
      assert CountAtMost([], bound) >= 0;
    }
  }

  /** Main result: whatever the sizes of the cases, the percentile of all samples together is at most
      the largest percentile of a case. */
  lemma PercentileOfConcat(cases: seq<seq<int>>, rank: int, bound: int)
    requires 1 <= rank <= 100 && Concat(cases) != []
    requires forall i :: 0 <= i < |cases| && cases[i] != [] ==> Percentile(cases[i], rank) <= bound
    ensures Percentile(Concat(cases), rank) <= bound
  {
    hide Percentile;
    WithinAllCases(cases, rank, bound);
    PercentileWithin(Concat(cases), rank, bound);
  }

  // ----- The largest duration

  ghost predicate IsLargest(values: seq<int>, m: int) {
    m >= 0 && (m == 0 || m in values) && forall i :: 0 <= i < |values| ==> values[i] <= m
  }

  function Largest(values: seq<int>): (m: int)
    ensures IsLargest(values, m)
  {
    if values == [] then 0
    else
      var front, last := Largest(values[..|values| - 1]), values[|values| - 1];
      if last > front then last else front
  }

  method MaxDuration(values: seq<int>) returns (maximum: int)
    ensures maximum == Largest(values)
  {
    maximum := 0;
    for i := 0 to |values|
      invariant maximum == Largest(values[..i])
    {
      assert values[..i + 1][..i] == values[..i];
      if values[i] > maximum { maximum := values[i]; }
    }
    assert values[..|values|] == values;
  }

  lemma PercentileAtMostLargest(values: seq<int>, rank: int, m: int)
    requires IsLargest(values, m)
    ensures Percentile(values, rank) <= m
  {
    if values != [] && 1 <= rank <= 100 {
      hide Percentile, CountAtMost;
      CountAll(values, m);
      PercentileWithin(values, rank, m);
      ScaleMonotone(rank, 100, |values|);
    }
  }

  lemma PercentileNotNegative(values: seq<int>, rank: int)
    requires forall i :: 0 <= i < |values| ==> values[i] >= 0
    ensures Percentile(values, rank) >= 0
  {
    if values != [] && 1 <= rank <= 100 {
      hide Percentile;
      PercentileIsNearestRank(values, rank, Percentile(values, rank));
    }
  }
}
