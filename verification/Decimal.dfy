/** Decimal text of integers, as printed by Go's fmt.Sprint and strconv.FormatInt
    and read back by strconv.ParseInt with base 10 and 64 bits. */
module Decimal {
  import opened Wrappers

  const MIN_INT64: int := -0x8000_0000_0000_0000
  const MAX_INT64: int := 0x7fff_ffff_ffff_ffff

  predicate IsDigit(c: char) {
    '0' <= c <= '9'
  }

  function DigitValue(c: char): (d: nat)
    requires IsDigit(c)
    ensures d < 10
  {
    c as int - '0' as int
  }

  function DigitChar(d: nat): (c: char)
    requires d < 10
    ensures IsDigit(c) && DigitValue(c) == d
  {
    ('0' as int + d) as char
  }

  predicate AllDigits(s: string) {
    forall i :: 0 <= i < |s| ==> IsDigit(s[i])
  }

  /** The value of a run of digits, leading zeros allowed. */
  function DigitsValue(s: string): nat
    requires AllDigits(s)
  {
    if |s| == 0 then 0 else 10 * DigitsValue(s[..|s| - 1]) + DigitValue(s[|s| - 1])
  }

  function FormatNat(n: nat): (s: string)
    ensures |s| > 0 && AllDigits(s)
    ensures |s| > 1 ==> s[0] != '0'
  {
    if n < 10 then [DigitChar(n)] else FormatNat(n / 10) + [DigitChar(n % 10)]
  }

  function FormatInt(i: int): (s: string)
    ensures |s| > 0
  {
    if i < 0 then "-" + FormatNat(-i) else FormatNat(i)
  }

  /** strconv.ParseInt(s, 10, 64): an optional sign, at least one digit, and a value that fits. */
  function ParseInt(s: string): Option<int> {
    var negative := |s| > 0 && s[0] == '-';
    var digits := if |s| > 0 && (s[0] == '-' || s[0] == '+') then s[1..] else s;
    if |digits| == 0 || !AllDigits(digits) then None
    else
      var magnitude: int := DigitsValue(digits);
      var value := if negative then -magnitude else magnitude;
      if MIN_INT64 <= value <= MAX_INT64 then Some(value) else None
  }

  lemma {:induction false} DigitsValueOfFormat(n: nat)
    ensures DigitsValue(FormatNat(n)) == n
  {
    var s := FormatNat(n);
    if n < 10 {
      assert s[..|s| - 1] == [];
    } else {
      DigitsValueOfFormat(n / 10);
      assert s[..|s| - 1] == FormatNat(n / 10);
    }
  }

  lemma {:induction false} FormatIntInjective(i: int, j: int)
    requires FormatInt(i) == FormatInt(j)
    ensures i == j
  {
    var m: nat, n: nat := if i < 0 then -i else i, if j < 0 then -j else j;
    DigitsValueOfFormat(m);
    DigitsValueOfFormat(n);
    assert IsDigit(FormatNat(m)[0]) && IsDigit(FormatNat(n)[0]);
    assert (i < 0) == (j < 0) by { assert FormatInt(i)[0] == FormatInt(j)[0]; }
    if i < 0 {
      assert FormatInt(i)[1..] == FormatNat(m) && FormatInt(j)[1..] == FormatNat(n);
    }
  }

  /** Reading back what was printed gives the number, for every 64-bit integer. */
  lemma ParseOfFormat(i: int)
    requires MIN_INT64 <= i <= MAX_INT64
    ensures ParseInt(FormatInt(i)) == Some(i)
  {
    var s := FormatInt(i);
    DigitsValueOfFormat(if i < 0 then -i else i);
    if i < 0 {
      assert s[1..] == FormatNat(-i);
    } else {
      assert IsDigit(s[0]);
    }
  }
}
