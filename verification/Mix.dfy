/** The mixing function of the data generator (mix64 and seededValue in
    cmd/aicrm-contact-perf-data/main.go). */
module Mix {
  import opened Words

  const FIRST: nat := 0xbf58476d1ce4e5b9
  const SECOND: nat := 0x94d049bb133111eb
  const GOLDEN: nat := 0x9e3779b97f4a7c15

  /** Inverses of the odd constants modulo 2^64. */
  const FIRST_INVERSE: nat := 0x96de1b173f119089
  const SECOND_INVERSE: nat := 0x319642b2d24d8ec3
  const GOLDEN_INVERSE: nat := 0xf1de83e19937733d

  lemma Inverses()
    ensures Times(FIRST, FIRST_INVERSE) == 1 && Times(FIRST_INVERSE, FIRST) == 1
    ensures Times(SECOND, SECOND_INVERSE) == 1 && Times(SECOND_INVERSE, SECOND) == 1
    ensures Times(GOLDEN, GOLDEN_INVERSE) == 1
  {
  }

  function Mixed(x: nat): nat {
    Fold(Times(Fold(Times(Fold(x, 30), FIRST), 27), SECOND), 31)
  }

  function Unmixed(y: nat): nat {
    Unfold(Times(Unfold(Times(Unfold(y, 31), SECOND_INVERSE), 27), FIRST_INVERSE), 30)
  }

  /** mix64: the word is reassigned step by step; no two words end alike. */
  method Mix64(word: nat) returns (value: nat)
    requires Word(word)
    ensures value == Mixed(word) && Word(value) && Unmixed(value) == word
  {
    value := word;
    value := Xor(value, Shift(value, 30));
    value := Times(value, FIRST);
    value := Xor(value, Shift(value, 27));
    value := Times(value, SECOND);
    value := Xor(value, Shift(value, 31));
    MixBijective(word);
  }

  /** Main result: mix64 is a bijection on 64-bit words. */
  lemma MixBijective(x: nat)
    requires Word(x)
    ensures Word(Mixed(x)) && Word(Unmixed(x))
    ensures Unmixed(Mixed(x)) == x && Mixed(Unmixed(x)) == x
  {
    hide Fold, Unfold, Times;
    Inverses();
    Mixing(x);
    Unmixing(x);
  }

  lemma TimesIsWord(a: nat, b: nat)
    ensures Word(Times(a, b))
  {
  }

  lemma Mixing(x: nat)
    requires Word(x)
    ensures Word(Mixed(x)) && Unmixed(Mixed(x)) == x
  {
    hide Fold, Unfold, Times, Word;
    Inverses();
    var a := Fold(x, 30);
    FoldIsWord(x, 30);
    var b := Times(a, FIRST);
    TimesIsWord(a, FIRST);
    var c := Fold(b, 27);
    FoldIsWord(b, 27);
    var d := Times(c, SECOND);
    TimesIsWord(c, SECOND);
    FoldIsWord(d, 31);
    UnfoldOfFold(d, 31);
    TimesInverse(c, SECOND, SECOND_INVERSE);
    UnfoldOfFold(b, 27);
    TimesInverse(a, FIRST, FIRST_INVERSE);
    UnfoldOfFold(x, 30);
  }

  lemma Unmixing(y: nat)
    requires Word(y)
    ensures Word(Unmixed(y)) && Mixed(Unmixed(y)) == y
  {
    hide Fold, Unfold, Times, Word;
    Inverses();
    var a := Unfold(y, 31);
    FoldIsWord(y, 31);
    var b := Times(a, SECOND_INVERSE);
    TimesIsWord(a, SECOND_INVERSE);
    var c := Unfold(b, 27);
    FoldIsWord(b, 27);
    var d := Times(c, FIRST_INVERSE);
    TimesIsWord(c, FIRST_INVERSE);
    FoldIsWord(d, 30);
    FoldOfUnfold(d, 30);
    TimesInverse(c, FIRST_INVERSE, FIRST);
    FoldOfUnfold(b, 27);
    TimesInverse(a, SECOND_INVERSE, SECOND);
    FoldOfUnfold(y, 31);
  }

  // ----- seededValue

  /** uint64 of an int64. */
  function Unsigned(i: int): nat
    requires -0x8000_0000_0000_0000 <= i < 0x8000_0000_0000_0000
  {
    if i < 0 then i + MODULUS else i
  }

  predicate Seed(seed: int) {
    -0x8000_0000_0000_0000 <= seed < 0x8000_0000_0000_0000
  }

  function SeededInput(seed: int, index: nat, salt: nat): nat
    requires Seed(seed)
  {
    Xor(Xor(Unsigned(seed), Times(Plus(index, 1), GOLDEN)), Times(salt, FIRST))
  }

  function SeededValue(seed: int, index: nat, salt: nat): nat
    requires Seed(seed)
  {
    Mixed(SeededInput(seed, index, salt))
  }

  lemma SeededInputIsWord(seed: int, index: nat, salt: nat)
    requires Seed(seed)
    ensures Word(SeededInput(seed, index, salt))
  {
    hide Xor;
    XorOfWords(Unsigned(seed), Times(Plus(index, 1), GOLDEN));
    XorOfWords(Xor(Unsigned(seed), Times(Plus(index, 1), GOLDEN)), Times(salt, FIRST));
  }

  lemma XorInjective(a: nat, b: nat, c: nat, d: nat)
    requires Xor(Xor(a, b), d) == Xor(Xor(a, c), d)
    ensures b == c
  {
    hide Xor;
    XorCancels(Xor(a, b), d);
    XorCancels(Xor(a, c), d);
    XorCommutes(a, b);
    XorCommutes(a, c);
    XorCancels(b, a);
    XorCancels(c, a);
  }

  lemma SuccessorInjective(i: nat, j: nat)
    requires Word(i) && Word(j) && Plus(i, 1) == Plus(j, 1)
    ensures i == j
  {
  }

  /** Main result: for one seed and one salt the generated words never repeat. */
  lemma SeededInjective(seed: int, i: nat, j: nat, salt: nat)
    requires Seed(seed) && Word(i) && Word(j)
    ensures SeededValue(seed, i, salt) == SeededValue(seed, j, salt) <==> i == j
  {
    hide Mixed, Unmixed, Xor, Times, Plus, Unsigned;
    SeededInputIsWord(seed, i, salt);
    SeededInputIsWord(seed, j, salt);
    MixBijective(SeededInput(seed, i, salt));
    MixBijective(SeededInput(seed, j, salt));
    if SeededValue(seed, i, salt) == SeededValue(seed, j, salt) {
      XorInjective(Unsigned(seed), Times(Plus(i, 1), GOLDEN), Times(Plus(j, 1), GOLDEN), Times(salt, FIRST));
      Inverses();
      PlusIsWord(i, 1);
      PlusIsWord(j, 1);
      TimesInverse(Plus(i, 1), GOLDEN, GOLDEN_INVERSE);
      TimesInverse(Plus(j, 1), GOLDEN, GOLDEN_INVERSE);
      SuccessorInjective(i, j);
    }
  }

  lemma PlusIsWord(a: nat, b: nat)
    ensures Word(Plus(a, b))
  {
  }
}
