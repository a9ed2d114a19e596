/** What happens to a row that is read into a Go map and printed again: encoding/json reads every number
    as a float64 (addOrderCustomer and addSubmissionCustomer in cmd/aicrm-whitelist-import/importer.go). */
module Reencoding {
  import opened Snapshot
  import Words

  // ----- Integers as float64 values

  const EXACT: nat := 0x20_0000_0000_0000

  /** The distance between neighbouring float64 values at n. */
  function Spacing(n: nat): (s: nat)
    ensures s > 0
  {
    if n < EXACT then 1 else 2 * Spacing(n / 2)
  }

  /** n rounded to a multiple of s, halves to the even multiple. */
  function RoundTo(n: nat, s: nat): nat
    requires s > 0
  {
    var q, r := n / s, n % s;
    s * if 2 * r > s || (2 * r == s && q % 2 == 1) then q + 1 else q
  }

  function Magnitude(n: int): nat {
    if n < 0 then -n else n
  }

  /** The float64 nearest to an integer. */
  function Nearest(n: int): int {
    var v: int := RoundTo(Magnitude(n), Spacing(Magnitude(n)));
    if n < 0 then -v else v
  }

  lemma {:induction false} FiftyThreeBits(n: nat)
    ensures n < EXACT * Spacing(n) && (Spacing(n) > 1 ==> n >= EXACT / 2 * Spacing(n))
  {
    if n >= EXACT { FiftyThreeBits(n / 2); }
  }

  /** It is no further away than half a spacing. */
  lemma NearestWithin(n: int)
    ensures 2 * Magnitude(Nearest(n) - n) <= Spacing(Magnitude(n))
  {
    hide Spacing;
    RoundedWithin(Magnitude(n), Spacing(Magnitude(n)));
  }

  lemma RoundedWithin(n: nat, s: nat)
    requires s > 0
    ensures 2 * Magnitude(RoundTo(n, s) - n) <= s
  {
    var q, r := n / s, n % s;
    assert n == s * q + r && s * (q + 1) == s * q + s;
  }

  /** An integer is a float64 exactly when it is a multiple of the spacing there. */
  lemma NearestIff(n: int)
    ensures Nearest(n) == n <==> Magnitude(n) % Spacing(Magnitude(n)) == 0
  {
    hide Spacing;
    var m, s := Magnitude(n), Spacing(Magnitude(n));
    RoundedIff(m, s);
  }

  lemma RoundedIff(n: nat, s: nat)
    requires s > 0
    ensures RoundTo(n, s) == n <==> n % s == 0
  {
    var q, r := n / s, n % s;
    assert n == s * q + r && s * (q + 1) == s * q + s;
  }

  /** encoding/json refuses numbers that round to 2^1024 or beyond. */
  predicate Finite(n: int) {
    Magnitude(Nearest(n)) < Words.Power(1024)
  }

  /** The integer that encoding/json prints for a float64 that is one. */
  type Printer = int -> int

  /** It prints the digits of every value up to 2^53. */
  ghost predicate PrintsExactly(printer: Printer) {
    forall v :: Magnitude(v) <= EXACT ==> printer(v) == v
  }

  function Reprinted(printer: Printer, n: int): int {
    printer(Nearest(n))
  }

  lemma NearestExact(n: int)
    requires Magnitude(n) <= EXACT
    ensures Nearest(n) == n && Finite(n)
  {
    BelowPower();
    if Magnitude(n) == EXACT {
      assert Spacing(EXACT / 2) == 1;
      assert Spacing(EXACT) == 2;
    }
  }

  /** Every 64-bit integer can be read. */
  lemma WordFinite(n: int)
    requires Magnitude(n) <= Words.MODULUS
    ensures Finite(n)
  {
    hide Nearest, Spacing;
    NearestWithin(n);
    FiftyThreeBits(Magnitude(n));
    SpacingBelow(Magnitude(n));
    WordBelowPower();
  }

  // ----- The first integer that cannot be read

  /** Half a spacing below 2^1024. */
  ghost function Overflow(): int {
    Words.Power(1024) - Words.Power(970)
  }

  lemma {:induction false} SpacingPower(n: nat) returns (k: nat)
    ensures Spacing(n) == Words.Power(k)
  {
    if n < EXACT { k := 0; } else { var j := SpacingPower(n / 2); k := j + 1; }
  }

  lemma ExactPower()
    ensures EXACT == Words.Power(53) && EXACT / 2 == Words.Power(52)
  {
    hide Words.Power;
    Words.PowerSum(52, 1);
    Words.PowerSum(26, 26);
    Words.PowerSum(13, 13);
    assert Words.Power(13) == 8192 && Words.Power(1) == 2 by { SmallPowers(); }
  }

  lemma SmallPowers()
    ensures Words.Power(13) == 8192 && Words.Power(1) == 2
  {
    assert Words.Power(4) == 16 && Words.Power(8) == 256 && Words.Power(12) == 4096;
  }

  lemma {:induction false} PowerGrows(j: nat, k: nat)
    requires j <= k
    ensures Words.Power(j) <= Words.Power(k)
  {
    if j < k { PowerGrows(j, k - 1); }
  }

  /** Where the numbers around 2^1024 lie: below 2^1023, between it and 2^1024, and above. */
  lemma TopSpacing(n: nat)
    ensures n < Words.Power(1023) ==> Spacing(n) <= Words.Power(970)
    ensures Words.Power(1023) <= n < Words.Power(1024) ==> Spacing(n) == Words.Power(971)
    ensures n >= Words.Power(1024) ==> Spacing(n) >= Words.Power(972)
  {
    hide Words.Power, Spacing;
    var k := SpacingPower(n);
    FiftyThreeBits(n);
    ExactPower();
    Words.PowerSum(53, k);
    Words.PowerSum(52, k);
    ZeroPower();
    if k > 0 { PowerGrows(1, k); }
    if k <= 970 { PowerGrows(k, 970); PowerGrows(53 + k, 1023); }
    if k >= 972 { PowerGrows(972, k); PowerGrows(1024, 52 + k); }
    PowerGrows(1023, 1024);
  }

  lemma ZeroPower()
    ensures Words.Power(0) == 1 && Words.Power(1) == 2
  {
  }

  lemma Multiples(s: nat, a: int, b: int)
    requires a <= b
    ensures s * a <= s * b && s * (a + 1) == s * a + s
  {
  }

  /** The two neighbours of n among the multiples of s, and which of them it is rounded to. */
  lemma RoundedDown(n: nat, s: nat)
    requires s > 0
    ensures s * (n / s) <= n < s * (n / s) + s
    ensures RoundTo(n, s) == s * (n / s) + if 2 * (n - s * (n / s)) > s || (2 * (n - s * (n / s)) == s && n / s % 2 == 1) then s else 0
  {
    var q, r := n / s, n % s;
    assert n == s * q + r;
    Multiples(s, q, q);
  }

  /** Rounding stays below a bound of b spacings, b even, exactly for numbers half a spacing below it. */
  lemma RoundedBelow(n: nat, s: nat, b: nat)
    requires s > 0 && b % 2 == 0
    ensures RoundTo(n, s) < s * b <==> 2 * n < 2 * (s * b) - s
  {
    hide RoundTo;
    var q := n / s;
    RoundedDown(n, s);
    if q >= b {
      Multiples(s, b, q);
    } else if q + 1 < b {
      Multiples(s, q, q);
      Multiples(s, q + 1, q + 1);
      Multiples(s, q + 2, b);
    } else {
      Multiples(s, q, q);
    }
  }

  lemma HalfOfTop()
    ensures Words.Power(1024) == Words.Power(971) * EXACT && Words.Power(971) == 2 * Words.Power(970)
    ensures Words.Power(1024) == 2 * Words.Power(1023) && Words.Power(1023) > 2 * Words.Power(970)
    ensures EXACT / 2 * Words.Power(972) == Words.Power(1024)
  {
    hide Words.Power;
    ExactPower();
    ZeroPower();
    Words.PowerSum(971, 53);
    Words.PowerSum(1, 970);
    Words.PowerSum(1, 1023);
    Words.PowerSum(52, 972);
    Words.PowerSum(970, 53);
    assert Words.Power(1023) == Words.Power(970) * EXACT;
    assert Words.Power(970) * EXACT >= Words.Power(970) * 4;
  }

  lemma RoundedAbove(n: nat, s: nat, b: nat)
    requires s > 0 && n >= s * b
    ensures RoundTo(n, s) >= s * b
  {
    hide RoundTo;
    var q := n / s;
    RoundedDown(n, s);
    if q < b {
      Multiples(s, q, q);
      Multiples(s, q + 1, b);
      assert false;
    }
    Multiples(s, b, q);
  }

  /** The integers that can be read are exactly those less than half a spacing below 2^1024, either sign. */
  lemma FiniteIff(n: int)
    ensures Finite(n) <==> -Overflow() < n < Overflow()
  {
    hide Words.Power, Spacing, RoundTo;
    var m, s := Magnitude(n), Spacing(Magnitude(n));
    TopSpacing(m);
    HalfOfTop();
    RoundedWithin(m, s);
    if Words.Power(1023) <= m < Words.Power(1024) {
      RoundedBelow(m, s, EXACT);
    } else if m >= Words.Power(1024) {
      FiftyThreeBits(m);
      var half := EXACT / 2;
      assert s * half >= Words.Power(972) * half;
      RoundedAbove(m, s, half);
    }
  }

  lemma SpacingBelow(n: nat)
    ensures Spacing(n) <= n + 1
  {
    hide Spacing;
    FiftyThreeBits(n);
  }

  lemma WordBelowPower()
    ensures 4 * Words.MODULUS < Words.Power(1024)
  {
    hide Words.Power;
    Words.ModulusIsPower();
    Words.PowerSum(64, 64);
    Words.PowerSum(128, 896);
  }

  lemma BelowPower()
    ensures EXACT < Words.Power(1024)
  {
    hide Words.Power;
    Words.ModulusIsPower();
    Words.PowerSum(64, 960);
    Words.PowerSum(0, 960);
  }

  /** The first integer that is not kept. */
  lemma FirstLoss(printer: Printer)
    requires PrintsExactly(printer)
    ensures Reprinted(printer, EXACT + 1) == EXACT != EXACT + 1
  {
    assert Spacing((EXACT + 1) / 2) == 1;
    assert Spacing(EXACT + 1) == 2;
    assert RoundTo(EXACT + 1, 2) == EXACT;
  }

  // ----- JSON values

  /** The value as it comes back. */
  function Recoded(printer: Printer, j: Json): Json {
    match j
    case Num(n) => Num(Reprinted(printer, n))
    case Arr(items) => Arr(seq(|items|, i requires 0 <= i < |items| => Recoded(printer, items[i])))
    case Obj(fields) => Obj(map k | k in fields :: Recoded(printer, fields[k]))
    case _ => j
  }

  predicate Readable(j: Json) {
    match j
    case Num(n) => Finite(n)
    case Arr(items) => forall i :: 0 <= i < |items| ==> Readable(items[i])
    case Obj(fields) => forall k :: k in fields ==> Readable(fields[k])
    case _ => true
  }

  predicate ReadableRow(c: Columns) {
    forall k :: k in c ==> Readable(c[k])
  }

  /** The value occurs somewhere in another. */
  ghost predicate Inside(part: Json, whole: Json)
    decreases whole
  {
    || part == whole
    || match whole
       case Arr(items) => exists i :: 0 <= i < |items| && Inside(part, items[i])
       case Obj(fields) => exists k :: k in fields && Inside(part, fields[k])
       case _ => false
  }

  /** A value can be read exactly when every number in it can. */
  lemma {:induction false} ReadableIff(j: Json)
    ensures Readable(j) <==> forall n :: Inside(Num(n), j) ==> -Overflow() < n < Overflow()
  {
    hide Overflow, Finite;
    match j
    case Num(n) =>
      assert Inside(Num(n), j);
      FiniteIff(n);
    case Arr(items) =>
      forall i | 0 <= i < |items| { ReadableIff(items[i]); }
      if forall n :: Inside(Num(n), j) ==> -Overflow() < n < Overflow() {
        forall i, n | 0 <= i < |items| && Inside(Num(n), items[i]) ensures -Overflow() < n < Overflow() { assert Inside(Num(n), j); }
      }
    case Obj(fields) =>
      forall k | k in fields { ReadableIff(fields[k]); }
      if forall n :: Inside(Num(n), j) ==> -Overflow() < n < Overflow() {
        forall k, n | k in fields && Inside(Num(n), fields[k]) ensures -Overflow() < n < Overflow() { assert Inside(Num(n), j); }
      }
    case _ =>
  }

  /** A row of text and 64-bit integers can be read. */
  lemma WordsReadable(c: Columns)
    requires forall k :: k in c ==> c[k].Text? || (c[k].Num? && Magnitude(c[k].n) <= Words.MODULUS)
    ensures ReadableRow(c)
  {
    hide Finite;
    forall k | k in c ensures Readable(c[k]) { if c[k].Num? { WordFinite(c[k].n); } }
  }

  /** Every number in the value prints as it was. */
  predicate Kept(printer: Printer, j: Json) {
    match j
    case Num(n) => Reprinted(printer, n) == n
    case Arr(items) => forall i :: 0 <= i < |items| ==> Kept(printer, items[i])
    case Obj(fields) => forall k :: k in fields ==> Kept(printer, fields[k])
    case _ => true
  }

  /** No number in the value is larger than 2^53. */
  predicate Small(j: Json) {
    match j
    case Num(n) => Magnitude(n) <= EXACT
    case Arr(items) => forall i :: 0 <= i < |items| ==> Small(items[i])
    case Obj(fields) => forall k :: k in fields ==> Small(fields[k])
    case _ => true
  }

  lemma {:induction false} RecodedIff(printer: Printer, j: Json)
    ensures Recoded(printer, j) == j <==> Kept(printer, j)
  {
    hide Reprinted;
    match j
    case Arr(items) =>
      forall i | 0 <= i < |items| { RecodedIff(printer, items[i]); }
      var more := Recoded(printer, j).items;
      if more == items { forall i | 0 <= i < |items| ensures Kept(printer, items[i]) { assert more[i] == items[i]; } }
    case Obj(fields) =>
      forall k | k in fields { RecodedIff(printer, fields[k]); }
      var more := Recoded(printer, j).fields;
      if more == fields { forall k | k in fields ensures Kept(printer, fields[k]) { assert more[k] == fields[k]; } }
    case _ =>
  }

  /** Numbers up to 2^53 are read and kept. */
  lemma {:induction false} SmallKept(printer: Printer, j: Json)
    requires PrintsExactly(printer) && Small(j)
    ensures Kept(printer, j) && Readable(j)
  {
    match j
    case Num(n) => NearestExact(n);
    case Arr(items) => forall i | 0 <= i < |items| { SmallKept(printer, items[i]); }
    case Obj(fields) => forall k | k in fields { SmallKept(printer, fields[k]); }
    case _ =>
  }
}
