/** 64-bit words as naturals below 2^64: exclusive or, right shift and wrapping product. */
module Words {

  const MODULUS: nat := 0x1_0000_0000_0000_0000

  function Xor(a: nat, b: nat): nat
    decreases a + b
  {
    if a == 0 then b else if b == 0 then a else (a % 2 + b % 2) % 2 + 2 * Xor(a / 2, b / 2)
  }

  /** a >> k */
  function Shift(a: nat, k: nat): nat
    decreases k
  {
    if k == 0 then a else Shift(a / 2, k - 1)
  }

  function Times(a: nat, b: nat): nat {
    a * b % MODULUS
  }

  function Plus(a: nat, b: nat): nat {
    (a + b) % MODULUS
  }

  // ----- Exclusive or, bit by bit

  lemma {:induction false} XorBits(a: nat, b: nat)
    ensures Xor(a, b) / 2 == Xor(a / 2, b / 2) && Xor(a, b) % 2 == (a % 2 + b % 2) % 2
  {
  }

  lemma XorZero(x: nat)
    ensures Xor(x, 0) == Xor(0, x) == x
  {
  }

  lemma {:induction false} XorCommutes(a: nat, b: nat)
    ensures Xor(a, b) == Xor(b, a)
    decreases a + b
  {
    if a != 0 && b != 0 { XorCommutes(a / 2, b / 2); }
  }

  lemma {:induction false} XorAssociates(a: nat, b: nat, c: nat)
    ensures Xor(Xor(a, b), c) == Xor(a, Xor(b, c))
    decreases a + b + c
  {
    hide Xor;
    XorZero(a);
    XorZero(b);
    XorZero(c);
    XorZero(Xor(a, b));
    XorZero(Xor(b, c));
    if a != 0 && b != 0 && c != 0 {
      assert a / 2 + b / 2 + c / 2 < a + b + c;
      XorAssociates(a / 2, b / 2, c / 2);
      XorHalves(a, b, c);
      XorParity(a, b, c);
      SameBits(Xor(Xor(a, b), c), Xor(a, Xor(b, c)));
    }
  }

  lemma XorHalves(a: nat, b: nat, c: nat)
    ensures Xor(Xor(a, b), c) / 2 == Xor(Xor(a / 2, b / 2), c / 2)
    ensures Xor(a, Xor(b, c)) / 2 == Xor(a / 2, Xor(b / 2, c / 2))
  {
    hide Xor;
    XorBits(a, b);
    XorBits(b, c);
    XorBits(Xor(a, b), c);
    XorBits(a, Xor(b, c));
  }

  lemma XorParity(a: nat, b: nat, c: nat)
    ensures Xor(Xor(a, b), c) % 2 == Xor(a, Xor(b, c)) % 2
  {
    hide Xor;
    XorBits(a, b);
    XorBits(b, c);
    XorBits(Xor(a, b), c);
    XorBits(a, Xor(b, c));
    BitSum(a, b, c, Xor(a, b), Xor(b, c));
  }

  lemma BitSum(a: nat, b: nat, c: nat, ab: nat, bc: nat)
    requires ab % 2 == (a % 2 + b % 2) % 2 && bc % 2 == (b % 2 + c % 2) % 2
    ensures (ab % 2 + c % 2) % 2 == (a % 2 + bc % 2) % 2
  {
  }

  lemma SameBits(m: nat, n: nat)
    requires m / 2 == n / 2 && m % 2 == n % 2
    ensures m == n
  {
  }

  lemma {:induction false} XorSelf(a: nat)
    ensures Xor(a, a) == 0
  {
    if a != 0 { XorSelf(a / 2); }
  }

  /** x ^ y ^ y == x */
  lemma XorCancels(x: nat, y: nat)
    ensures Xor(Xor(x, y), y) == x
  {
    XorAssociates(x, y, y);
    XorSelf(y);
  }

  lemma {:induction false} ShiftOfXor(a: nat, b: nat, k: nat)
    ensures Shift(Xor(a, b), k) == Xor(Shift(a, k), Shift(b, k))
    decreases k
  {
    if k > 0 {
      XorBits(a, b);
      ShiftOfXor(a / 2, b / 2, k - 1);
    }
  }

  lemma {:induction false} ShiftOfShift(a: nat, j: nat, k: nat)
    ensures Shift(Shift(a, j), k) == Shift(a, j + k)
    decreases j
  {
    if j > 0 { ShiftOfShift(a / 2, j - 1, k); }
  }

  // ----- Staying within 64 bits

  function Power(n: nat): (p: nat)
    ensures p > 0
  {
    if n == 0 then 1 else 2 * Power(n - 1)
  }

  lemma {:induction false} ShiftedOut(a: nat, n: nat)
    ensures Shift(a, n) == 0 <==> a < Power(n)
    decreases n
  {
    if n > 0 { ShiftedOut(a / 2, n - 1); }
  }

  lemma {:induction false} PowerSum(m: nat, n: nat)
    ensures Power(m + n) == Power(m) * Power(n)
  {
    if m > 0 {
      PowerSum(m - 1, n);
      Doubled(Power(m - 1), Power(n), Power(m - 1 + n));
    }
  }

  lemma Doubled(a: nat, b: nat, c: nat)
    requires c == a * b
    ensures 2 * c == (2 * a) * b
  {
  }

  lemma ModulusIsPower()
    ensures Power(64) == MODULUS
  {
    hide Power;
    PowerOne();
    PowerSum(1, 1);
    PowerSum(2, 2);
    PowerSum(4, 4);
    PowerSum(8, 8);
    PowerSum(16, 16);
    PowerSum(32, 32);
  }

  lemma PowerOne()
    ensures Power(1) == 2
  {
  }

  predicate Word(a: nat) {
    a < MODULUS
  }

  lemma WordIff(a: nat)
    ensures Word(a) <==> Shift(a, 64) == 0
  {
    ModulusIsPower();
    ShiftedOut(a, 64);
  }

  lemma XorOfWords(a: nat, b: nat)
    requires Word(a) && Word(b)
    ensures Word(Xor(a, b))
  {
    hide Xor, Shift, Word;
    WordIff(a);
    WordIff(b);
    WordIff(Xor(a, b));
    ShiftOfXor(a, b, 64);
    assert Xor(0, 0) == 0 by { XorSelf(0); }
  }

  lemma {:induction false} ShiftShrinks(a: nat, k: nat)
    ensures Shift(a, k) <= a
    decreases k
  {
    if k > 0 { ShiftShrinks(a / 2, k - 1); }
  }

  // ----- Folding a word onto itself

  /** x ^ (x >> k) */
  function Fold(x: nat, k: nat): nat {
    Xor(x, Shift(x, k))
  }

  /** y ^ (y >> k) ^ (y >> 2k) */
  function Unfold(y: nat, k: nat): nat {
    Xor(Xor(y, Shift(y, k)), Shift(y, 2 * k))
  }

  lemma FoldIsWord(x: nat, k: nat)
    requires Word(x)
    ensures Word(Fold(x, k)) && Word(Unfold(x, k))
  {
    ShiftShrinks(x, k);
    ShiftShrinks(x, 2 * k);
    XorOfWords(x, Shift(x, k));
    XorOfWords(Xor(x, Shift(x, k)), Shift(x, 2 * k));
  }

  lemma ShiftedAway(x: nat, k: nat)
    requires Word(x) && k >= 64
    ensures Shift(x, k) == 0
  {
    hide Shift, Word;
    WordIff(x);
    ShiftOfShift(x, 64, k - 64);
    ShiftShrinks(0, k - 64);
  }

  /** x ^ a ^ (a ^ b) ^ (b ^ c) == x ^ c */
  lemma Telescope(x: nat, a: nat, b: nat, c: nat)
    ensures Xor(Xor(Xor(x, a), Xor(a, b)), Xor(b, c)) == Xor(x, c)
  {
    hide Xor;
    XorAssociates(Xor(x, a), a, b);
    XorCancels(x, a);
    XorAssociates(Xor(x, b), b, c);
    XorCancels(x, b);
  }

  /** Unfolding undoes folding when three shifts clear the word. */
  lemma UnfoldOfFold(x: nat, k: nat)
    requires Word(x) && 3 * k >= 64
    ensures Unfold(Fold(x, k), k) == x
  {
    hide Xor, Shift, Word;
    var a, b, c := Shift(x, k), Shift(x, 2 * k), Shift(x, 3 * k);
    ShiftOfXor(x, a, k);
    ShiftOfShift(x, k, k);
    ShiftOfXor(x, a, 2 * k);
    ShiftOfShift(x, k, 2 * k);
    Telescope(x, a, b, c);
    ShiftedAway(x, 3 * k);
    XorZero(x);
  }

  /** And folding undoes unfolding. */
  lemma FoldOfUnfold(y: nat, k: nat)
    requires Word(y) && 3 * k >= 64
    ensures Fold(Unfold(y, k), k) == y
  {
    hide Xor, Shift, Word;
    var a, b, c := Shift(y, k), Shift(y, 2 * k), Shift(y, 3 * k);
    ShiftOfXor(Xor(y, a), b, k);
    ShiftOfXor(y, a, k);
    ShiftOfShift(y, k, k);
    ShiftOfShift(y, 2 * k, k);
    ShiftedAway(y, 3 * k);
    XorZero(Xor(a, b));
    XorAssociates(y, a, b);
    XorCancels(y, Xor(a, b));
  }

  // ----- Products

  lemma Grows(d: int, m: int)
    requires m >= 0
    ensures d >= 1 ==> d * m >= m
    ensures d <= -1 ==> d * m <= -m
  {
  }

  lemma ModUnique(n: nat, m: nat, q: int, r: nat)
    requires r < m && n == q * m + r
    ensures n % m == r
  {
    var p := n / m;
    assert n == p * m + n % m;
    assert (q - p) * m == n % m - r;
    Grows(q - p, m);
  }

  /** Multiplying by a constant and then by its inverse gives the word back. */
  lemma TimesInverse(x: nat, c: nat, inverse: nat)
    requires Word(x) && Times(c, inverse) == 1
    ensures Times(Times(x, c), inverse) == x
  {
    var q, p := x * c / MODULUS, c * inverse / MODULUS;
    var y := Times(x, c);
    assert x * c == q * MODULUS + y && c * inverse == p * MODULUS + 1;
    assert y * inverse == (x * p - q * inverse) * MODULUS + x by {
      assert (x * c) * inverse == x * (c * inverse);
      assert (q * MODULUS + y) * inverse == x * (p * MODULUS + 1);
      Rearrange(q, y, inverse, x, p);
    }
    ModUnique(y * inverse, MODULUS, x * p - q * inverse, x);
  }

  lemma Rearrange(q: int, y: int, inverse: int, x: int, p: int)
    requires (q * MODULUS + y) * inverse == x * (p * MODULUS + 1)
    ensures y * inverse == (x * p - q * inverse) * MODULUS + x
  {
    assert (q * MODULUS + y) * inverse == q * inverse * MODULUS + y * inverse;
    assert x * (p * MODULUS + 1) == x * p * MODULUS + x;
    assert (x * p - q * inverse) * MODULUS == x * p * MODULUS - q * inverse * MODULUS;
  }
}
