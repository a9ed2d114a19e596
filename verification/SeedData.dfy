/** The deterministic customers of the performance database (deterministicCustomer and its helpers in
    cmd/aicrm-contact-perf-data/main.go). Instants are seconds since 2026-01-01T00:00:00Z. */
module SeedData {
  import opened Words
  import opened Mix
  import opened Counting

  const CUSTOMERS := 200_000
  const DELETED := 10_000
  const HOT := 500
  const REGULAR := CUSTOMERS - 2 * HOT
  const REGULAR_DELETED := DELETED - HOT
  const MULTIPLIER := 7919
  const TAGS := 50
  const TAGS_PER_CUSTOMER := 3
  const DAY := 86_400

  // ----- Deleted customers

  /** (uint64(regularIndex)*7919 + uint64(seed)) % uint64(regularCount), wrapping included. */
  function Permuted(seed: int, regularIndex: nat): nat
    requires Seed(seed)
  {
    Plus(Times(regularIndex, MULTIPLIER), Unsigned(seed)) % REGULAR
  }

  predicate OrdinaryDeleted(seed: int, index: int)
    requires Seed(seed)
  {
    if index < 2 * HOT || index >= CUSTOMERS then false
    else Permuted(seed, index - 2 * HOT) < REGULAR_DELETED
  }

  datatype Cohort = Ordinary | Hot(deleted: bool, index: nat)

  function HotCohort(index: int): Cohort {
    if 0 <= index < HOT then Hot(false, index)
    else if HOT <= index < 2 * HOT then Hot(true, index - HOT)
    else Ordinary
  }

  predicate IsDeleted(seed: int, index: int)
    requires Seed(seed)
  {
    match HotCohort(index)
    case Hot(deleted, _) => deleted
    case Ordinary => OrdinaryDeleted(seed, index)
  }

  /** No intermediate uint64 value wraps for any customer. */
  ghost predicate NoOverflow(seed: int)
    requires Seed(seed)
  {
    forall r: nat :: r < REGULAR ==> Times(r, MULTIPLIER) == r * MULTIPLIER && Plus(r * MULTIPLIER, Unsigned(seed)) == r * MULTIPLIER + Unsigned(seed)
  }

  /** Wrapping starts only for the negative seeds closest to zero. */
  lemma NoOverflowIff(seed: int)
    requires Seed(seed)
    ensures NoOverflow(seed) <==> seed >= 0 || seed < -(REGULAR - 1) * MULTIPLIER
  {
    var last := REGULAR - 1;
    if seed >= 0 || seed < -last * MULTIPLIER {
      forall r: nat | r < REGULAR
        ensures Times(r, MULTIPLIER) == r * MULTIPLIER && Plus(r * MULTIPLIER, Unsigned(seed)) == r * MULTIPLIER + Unsigned(seed)
      {
        assert r * MULTIPLIER <= last * MULTIPLIER;
      }
    } else {
      assert Plus(last * MULTIPLIER, Unsigned(seed)) != last * MULTIPLIER + Unsigned(seed);
    }
  }

  lemma MultiplierCoprime()
    ensures Gcd(MULTIPLIER, REGULAR) == 1
  {
    assert Gcd(16, 3) == Gcd(3, 1) == Gcd(1, 0) == 1;
    assert Gcd(99, 83) == Gcd(83, 16) == Gcd(16, 3);
    assert Gcd(281, 182) == Gcd(182, 99) == Gcd(99, 83);
    assert Gcd(1025, 744) == Gcd(744, 281) == Gcd(281, 182);
    assert Gcd(199_000, 7919) == Gcd(7919, 1025) == Gcd(1025, 744);
    assert Gcd(7919, 199_000) == Gcd(199_000, 7919);
  }

  predicate Customer(index: int) {
    0 <= index < CUSTOMERS
  }

  /** The indices of deleted customers. */
  function DeletedSet(seed: int): set<int>
    requires Seed(seed)
  {
    set i | 0 <= i < CUSTOMERS && Customer(i) && IsDeleted(seed, i)
  }

  // ----- The number of deleted customers

  /** 2^64 modulo REGULAR: what wrapping takes away. */
  const WRAP := 101_616

  /** The sum of this index stays below 2^64 although the seed is negative: it is not taken back by wrapping. */
  predicate Unwrapped(seed: int, r: nat) {
    r * MULTIPLIER < -seed
  }

  function Offset(seed: int): nat {
    seed % REGULAR
  }

  lemma SameRemainder(x: nat, y: nat, k: int)
    requires x == y + k * REGULAR
    ensures x % REGULAR == y % REGULAR
  {
    var q := y / REGULAR;
    assert x == (q + k) * REGULAR + y % REGULAR;
    ModUnique(x, REGULAR, q + k, y % REGULAR);
  }

  lemma PermutedIs(seed: int, r: nat)
    requires Seed(seed) && r < REGULAR
    ensures Permuted(seed, r) == Residue(MULTIPLIER, Offset(seed) + if Unwrapped(seed, r) then WRAP else 0, REGULAR, r)
  {
    var product := r * MULTIPLIER;
    assert product < MODULUS && Times(r, MULTIPLIER) == product && MULTIPLIER * r == product;
    var k := seed / REGULAR;
    assert seed == k * REGULAR + Offset(seed);
    if Unwrapped(seed, r) {
      var q := MODULUS / REGULAR;
      assert MODULUS == q * REGULAR + WRAP;
      SumOf(product, Unsigned(seed));
      SameRemainder(product + Unsigned(seed), product + Offset(seed) + WRAP, k + q);
    } else if seed < 0 {
      Wrapping(product, seed);
      SameRemainder(product + seed, product + Offset(seed), k);
    } else {
      SumOf(product, seed);
      SameRemainder(product + seed, product + Offset(seed), k);
    }
  }

  lemma SumOf(a: nat, b: nat)
    requires a + b < MODULUS
    ensures Plus(a, b) == a + b
  {
  }

  lemma Wrapping(product: nat, seed: int)
    requires Seed(seed) && seed < 0 && product < MODULUS && product + seed >= 0
    ensures Plus(product, Unsigned(seed)) == product + seed
  {
  }

  predicate EarlyCustomer(seed: int, i: int) {
    2 * HOT <= i < CUSTOMERS && Unwrapped(seed, i - 2 * HOT)
  }

  /** The customers before any wrapping that are hit with the offset shifted. */
  function Early(seed: int, shift: nat): set<int> {
    set i | 2 * HOT <= i < CUSTOMERS && EarlyCustomer(seed, i) && From(MULTIPLIER, Offset(seed) + shift, REGULAR, 2 * HOT, i) < REGULAR_DELETED
  }

  lemma InDeletedSet(seed: int, i: int)
    requires Seed(seed)
    ensures i in DeletedSet(seed) <==>
            || i in Range(HOT, 2 * HOT)
            || i in Hits(MULTIPLIER, Offset(seed), REGULAR, 2 * HOT, REGULAR_DELETED) - Early(seed, 0)
            || i in Early(seed, WRAP)
  {
    hide Residue, Permuted, Unwrapped, Offset;
    InRange(HOT, i, 2 * HOT);
    assert 0 <= i < CUSTOMERS ==> Customer(i);
    if 2 * HOT <= i < CUSTOMERS {
      var r: nat := i - 2 * HOT;
      PermutedIs(seed, r);
      assert Unwrapped(seed, r) || !Unwrapped(seed, r);
      assert From(MULTIPLIER, Offset(seed), REGULAR, 2 * HOT, i) == Residue(MULTIPLIER, Offset(seed), REGULAR, r);
      assert From(MULTIPLIER, Offset(seed) + WRAP, REGULAR, 2 * HOT, i) == Residue(MULTIPLIER, Offset(seed) + WRAP, REGULAR, r);
    }
  }

  /** Main result: the number of deleted customers for every 64-bit seed. Ten thousand, but among the first
      customers, whose sums a negative seed leaves unwrapped, those hit at the shifted offset count
      instead of those hit at the plain one. */
  lemma DeletedCount(seed: int)
    requires Seed(seed)
    ensures |DeletedSet(seed)| == DELETED - |Early(seed, 0)| + |Early(seed, WRAP)|
  {
    hide Gcd, Hits, DeletedSet, Early, Range, Offset;
    MultiplierCoprime();
    var hot, hits := Range(HOT, 2 * HOT), Hits(MULTIPLIER, Offset(seed), REGULAR, 2 * HOT, REGULAR_DELETED);
    RangeSize(HOT, 2 * HOT);
    CoprimeCount(MULTIPLIER, Offset(seed), REGULAR, 2 * HOT, REGULAR_DELETED);
    forall i ensures i in DeletedSet(seed) <==> i in hot || i in hits - Early(seed, 0) || i in Early(seed, WRAP) { InDeletedSet(seed, i); }
    assert DeletedSet(seed) == hot + (hits - Early(seed, 0)) + Early(seed, WRAP);
    EarlyApart(seed);
    Sizes(hot, hits, Early(seed, 0), Early(seed, WRAP));
  }

  lemma EarlyApart(seed: int)
    ensures Early(seed, 0) <= Hits(MULTIPLIER, Offset(seed), REGULAR, 2 * HOT, REGULAR_DELETED)
    ensures Range(HOT, 2 * HOT) !! Hits(MULTIPLIER, Offset(seed), REGULAR, 2 * HOT, REGULAR_DELETED)
    ensures Range(HOT, 2 * HOT) !! Early(seed, WRAP)
    ensures (Hits(MULTIPLIER, Offset(seed), REGULAR, 2 * HOT, REGULAR_DELETED) - Early(seed, 0)) !! Early(seed, WRAP)
  {
    hide Residue, EarlyCustomer, Offset;
    forall i | i in Range(HOT, 2 * HOT) ensures i < 2 * HOT { InRange(HOT, i, 2 * HOT); }
  }

  lemma Sizes(hot: set<int>, hits: set<int>, plain: set<int>, shifted: set<int>)
    requires plain <= hits && hot !! hits && hot !! shifted && (hits - plain) !! shifted
    ensures |hot + (hits - plain) + shifted| == |hot| + |hits| - |plain| + |shifted|
  {
    assert hits == plain + (hits - plain) && |hits| == |plain| + |hits - plain|;
    assert hot !! (hits - plain);
    assert |hot + (hits - plain)| == |hot| + |hits - plain|;
    assert (hot + (hits - plain)) !! shifted;
  }

  /** The promised count, for exactly the seeds that hit as many early customers at either offset. */
  lemma DeletedExactlyIff(seed: int)
    requires Seed(seed)
    ensures |DeletedSet(seed)| == DELETED <==> |Early(seed, 0)| == |Early(seed, WRAP)|
  {
    hide DeletedSet, Early;
    DeletedCount(seed);
  }

  /** Exactly 10000 of the 200000 customers are deleted for every seed whose products do not wrap. */
  lemma DeletedExactly(seed: int)
    requires Seed(seed) && NoOverflow(seed)
    ensures |DeletedSet(seed)| == DELETED
  {
    hide Gcd, DeletedSet, NoOverflow;
    NoOverflowIff(seed);
    DeletedCount(seed);
    if seed >= 0 {
      NothingEarly(seed, 0);
      NothingEarly(seed, WRAP);
    } else {
      MultiplierCoprime();
      AllEarly(seed, 0);
      AllEarly(seed, WRAP);
    }
  }

  lemma NotEarly(seed: int, i: int)
    requires seed >= 0
    ensures !EarlyCustomer(seed, i)
  {
  }

  lemma NothingEarly(seed: int, shift: nat)
    requires seed >= 0
    ensures Early(seed, shift) == {}
  {
    hide From, Offset, EarlyCustomer;
    forall i ensures !EarlyCustomer(seed, i) { NotEarly(seed, i); }
  }

  lemma AllEarly(seed: int, shift: nat)
    requires seed < -(REGULAR - 1) * MULTIPLIER && Gcd(MULTIPLIER, REGULAR) == 1
    ensures |Early(seed, shift)| == REGULAR_DELETED
  {
    hide Gcd, Offset, Residue;
    forall i | 2 * HOT <= i < CUSTOMERS ensures EarlyCustomer(seed, i) {
      assert (i - 2 * HOT) * MULTIPLIER <= (REGULAR - 1) * MULTIPLIER;
    }
    CoprimeCount(MULTIPLIER, Offset(seed) + shift, REGULAR, 2 * HOT, REGULAR_DELETED);
    assert Early(seed, shift) == Hits(MULTIPLIER, Offset(seed) + shift, REGULAR, 2 * HOT, REGULAR_DELETED);
  }

  lemma DeletedForEverySeed(seed: int)
    requires 0 <= seed < 0x8000_0000_0000_0000
    ensures |DeletedSet(seed)| == DELETED
  {
    hide DeletedSet, NoOverflow;
    NoOverflowIff(seed);
    DeletedExactly(seed);
  }

  // ----- A seed whose products wrap

  const WRAPPING_SEED := -199_000

  lemma EarlyValues(i: int)
    ensures i in Early(WRAPPING_SEED, 0) <==> i == 2 * HOT || i == 2 * HOT + 1
    ensures i in Early(WRAPPING_SEED, WRAP) <==> i == 2 * HOT + 13
  {
    hide From;
    assert Offset(WRAPPING_SEED) == 0;
    assert EarlyCustomer(WRAPPING_SEED, i) <==> 2 * HOT <= i < 2 * HOT + 26;
    if 2 * HOT <= i < 2 * HOT + 26 {
      var r := i - 2 * HOT;
      FromIs(i, 0, 0);
      FromIs(i, WRAP, if r <= 12 then 0 else 1);
    }
  }

  lemma FromIs(i: int, s: nat, q: nat)
    requires 2 * HOT <= i < CUSTOMERS && q * REGULAR <= (i - 2 * HOT) * MULTIPLIER + s < (q + 1) * REGULAR
    ensures From(MULTIPLIER, s, REGULAR, 2 * HOT, i) == (i - 2 * HOT) * MULTIPLIER + s - q * REGULAR
  {
    Remainder((i - 2 * HOT) * MULTIPLIER + s, q);
    assert MULTIPLIER * (i - 2 * HOT) == (i - 2 * HOT) * MULTIPLIER;
  }

  lemma Remainder(n: nat, q: nat)
    requires q * REGULAR <= n < (q + 1) * REGULAR
    ensures n % REGULAR == n - q * REGULAR
  {
    ModUnique(n, REGULAR, q, n - q * REGULAR);
  }

  /** For a negative seed near zero the count can be off: here by one. */
  lemma WrappingSeedMiscounts()
    ensures |DeletedSet(WRAPPING_SEED)| == DELETED - 1 && !NoOverflow(WRAPPING_SEED)
  {
    hide Early, NoOverflow, DeletedSet;
    NoOverflowIff(WRAPPING_SEED);
    forall i ensures (i in Early(WRAPPING_SEED, 0) <==> i == 2 * HOT || i == 2 * HOT + 1) && (i in Early(WRAPPING_SEED, WRAP) <==> i == 2 * HOT + 13) {
      EarlyValues(i);
    }
    assert Early(WRAPPING_SEED, 0) == {2 * HOT, 2 * HOT + 1} && |{2 * HOT, 2 * HOT + 1}| == 2;
    assert Early(WRAPPING_SEED, WRAP) == {2 * HOT + 13};
    DeletedCount(WRAPPING_SEED);
  }
}
