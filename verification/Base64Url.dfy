/** base64.RawURLEncoding.Strict(): no padding, unused trailing bits must be zero, and, as in Go's
    decoder, carriage returns and line feeds are skipped (sections 3.5 and 5 of RFC 4648). */
module Base64Url {
  import opened Wrappers
  import Hex

  predicate IsBytes(b: string) {
    Hex.IsBytes(b)
  }

  function Digit(v: nat): (c: char)
    requires v < 64
  {
    if v < 26 then ('A' as int + v) as char
    else if v < 52 then ('a' as int + v - 26) as char
    else if v < 62 then ('0' as int + v - 52) as char
    else if v == 62 then '-' else '_'
  }

  function Value(c: char): (v: Option<nat>)
    ensures v.Some? ==> v.value < 64
  {
    if 'A' <= c <= 'Z' then Some(c as int - 'A' as int)
    else if 'a' <= c <= 'z' then Some(c as int - 'a' as int + 26)
    else if '0' <= c <= '9' then Some(c as int - '0' as int + 52)
    else if c == '-' then Some(62) else if c == '_' then Some(63) else None
  }

  lemma ValueOfDigit(v: nat)
    requires v < 64
    ensures Value(Digit(v)) == Some(v) && Digit(v) != '.' && Digit(v) != '\r' && Digit(v) != '\n' && Digit(v) != ' '
  {
  }

  function Byte(c: char): (n: nat)
    requires c as int < 256
    ensures n < 256
  {
    c as int
  }

  function Char(n: nat): (c: char)
    requires n < 256
    ensures c as int == n
  {
    n as char
  }

  function Encode(b: string): string
    requires IsBytes(b)
  {
    if b == [] then []
    else if |b| == 1 then [Digit(Byte(b[0]) / 4), Digit(Byte(b[0]) % 4 * 16)]
    else if |b| == 2 then
      [Digit(Byte(b[0]) / 4), Digit(Byte(b[0]) % 4 * 16 + Byte(b[1]) / 16), Digit(Byte(b[1]) % 16 * 4)]
    else
      [Digit(Byte(b[0]) / 4), Digit(Byte(b[0]) % 4 * 16 + Byte(b[1]) / 16), Digit(Byte(b[1]) % 16 * 4 + Byte(b[2]) / 64),
       Digit(Byte(b[2]) % 64)] + Encode(b[3..])
  }

  /** Decoding of text without line breaks. */
  function DecodeDigits(s: string): (b: Option<string>)
    ensures b.Some? ==> IsBytes(b.value)
  {
    if s == [] then Some([])
    else if |s| == 1 then None
    else
      match (Value(s[0]), Value(s[1]))
      case (Some(p), Some(q)) =>
        if |s| == 2 then if q % 16 == 0 then Some([Char(p * 4 + q / 16)]) else None
        else
          (match Value(s[2])
           case None => None
           case Some(r) =>
             if |s| == 3 then if r % 4 == 0 then Some([Char(p * 4 + q / 16), Char(q % 16 * 16 + r / 4)]) else None
             else
               match (Value(s[3]), DecodeDigits(s[4..]))
               case (Some(t), Some(rest)) => Some([Char(p * 4 + q / 16), Char(q % 16 * 16 + r / 4), Char(r % 4 * 64 + t)] + rest)
               case _ => None)
      case _ => None
  }

  function WithoutBreaks(s: string): string {
    if s == [] then []
    else (if s[0] == '\r' || s[0] == '\n' then [] else [s[0]]) + WithoutBreaks(s[1..])
  }

  function Decode(s: string): (b: Option<string>)
    ensures b.Some? ==> IsBytes(b.value)
  {
    DecodeDigits(WithoutBreaks(s))
  }

  lemma OneByte(x: nat)
    requires x < 256
    ensures x / 4 < 64 && x % 4 * 16 < 64 && x % 4 * 16 % 16 == 0 && x / 4 * 4 + x % 4 * 16 / 16 == x
  {
  }

  lemma TwoBytes(x: nat, y: nat)
    requires x < 256 && y < 256
    ensures
      var q, r := x % 4 * 16 + y / 16, y % 16 * 4;
      q < 64 && r < 64 && r % 4 == 0 && x / 4 * 4 + q / 16 == x && q % 16 * 16 + r / 4 == y
  {
  }

  lemma ThreeBytes(x: nat, y: nat, z: nat)
    requires x < 256 && y < 256 && z < 256
    ensures
      var q, r, t := x % 4 * 16 + y / 16, y % 16 * 4 + z / 64, z % 64;
      q < 64 && r < 64 && t < 64 && x / 4 * 4 + q / 16 == x && q % 16 * 16 + r / 4 == y && r % 4 * 64 + t == z
  {
  }

  /** Only letters, digits, '-' and '_'. */
  predicate Alphabet(s: string) {
    forall i :: 0 <= i < |s| ==> Value(s[i]).Some?
  }

  lemma {:induction false} EncodeUsesAlphabet(b: string)
    requires IsBytes(b)
    ensures Alphabet(Encode(b)) && |b| <= |Encode(b)| <= 2 * |b|
    ensures b != [] ==> Encode(b) != []
  {
    hide Value, Digit;
    if |b| == 1 {
      OneByte(Byte(b[0]));
      ValueOfDigit(Byte(b[0]) / 4);
      ValueOfDigit(Byte(b[0]) % 4 * 16);
    } else if |b| == 2 {
      TwoBytes(Byte(b[0]), Byte(b[1]));
      ValueOfDigit(Byte(b[0]) / 4);
      ValueOfDigit(Byte(b[0]) % 4 * 16 + Byte(b[1]) / 16);
      ValueOfDigit(Byte(b[1]) % 16 * 4);
    } else if |b| > 2 {
      EncodeUsesAlphabet(b[3..]);
      ThreeBytes(Byte(b[0]), Byte(b[1]), Byte(b[2]));
      ValueOfDigit(Byte(b[0]) / 4);
      ValueOfDigit(Byte(b[0]) % 4 * 16 + Byte(b[1]) / 16);
      ValueOfDigit(Byte(b[1]) % 16 * 4 + Byte(b[2]) / 64);
      ValueOfDigit(Byte(b[2]) % 64);
    }
  }

  lemma {:induction false} NoBreaks(s: string)
    requires Alphabet(s)
    ensures WithoutBreaks(s) == s
  {
    if s != [] {
      assert Value(s[0]).Some?;
      NoBreaks(s[1..]);
    }
  }

  lemma FourDigits(p: nat, q: nat, r: nat, t: nat, rest: string)
    requires p < 64 && q < 64 && r < 64 && t < 64 && DecodeDigits(rest).Some?
    ensures DecodeDigits([Digit(p), Digit(q), Digit(r), Digit(t)] + rest) ==
            Some([Char(p * 4 + q / 16), Char(q % 16 * 16 + r / 4), Char(r % 4 * 64 + t)] + DecodeDigits(rest).value)
  {
    hide Value, Digit;
    ValueOfDigit(p);
    ValueOfDigit(q);
    ValueOfDigit(r);
    ValueOfDigit(t);
    var s := [Digit(p), Digit(q), Digit(r), Digit(t)] + rest;
    assert s[4..] == rest;
  }

  lemma ThreeDigits(p: nat, q: nat, r: nat)
    requires p < 64 && q < 64 && r < 64 && r % 4 == 0
    ensures DecodeDigits([Digit(p), Digit(q), Digit(r)]) == Some([Char(p * 4 + q / 16), Char(q % 16 * 16 + r / 4)])
  {
    hide Value, Digit;
    ValueOfDigit(p);
    ValueOfDigit(q);
    ValueOfDigit(r);
  }

  lemma TwoDigits(p: nat, q: nat)
    requires p < 64 && q < 64 && q % 16 == 0
    ensures DecodeDigits([Digit(p), Digit(q)]) == Some([Char(p * 4 + q / 16)])
  {
    hide Value, Digit;
    ValueOfDigit(p);
    ValueOfDigit(q);
  }

  lemma EncodeOfNothing()
    ensures Encode([]) == []
  {
  }

  lemma DecodeOfOne(b: string)
    requires IsBytes(b) && |b| == 1
    ensures DecodeDigits(Encode(b)) == Some(b)
  {
    hide Value, Digit, DecodeDigits;
    var x := Byte(b[0]);
    OneByte(x);
    TwoDigits(x / 4, x % 4 * 16);
    assert b == [b[0]];
  }

  lemma DecodeOfTwo(b: string)
    requires IsBytes(b) && |b| == 2
    ensures DecodeDigits(Encode(b)) == Some(b)
  {
    hide Value, Digit, DecodeDigits;
    var x, y := Byte(b[0]), Byte(b[1]);
    TwoBytes(x, y);
    ThreeDigits(x / 4, x % 4 * 16 + y / 16, y % 16 * 4);
    assert b == [b[0], b[1]];
  }

  lemma EncodeOfMore(b: string, p: nat, q: nat, r: nat, t: nat)
    requires IsBytes(b) && |b| >= 3 && p == Byte(b[0]) / 4 && q == Byte(b[0]) % 4 * 16 + Byte(b[1]) / 16
    requires r == Byte(b[1]) % 16 * 4 + Byte(b[2]) / 64 && t == Byte(b[2]) % 64
    requires p < 64 && q < 64 && r < 64 && t < 64
    ensures Encode(b) == [Digit(p), Digit(q), Digit(r), Digit(t)] + Encode(b[3..])
  {
    hide Digit;
  }

  lemma DecodeOfMore(b: string)
    requires IsBytes(b) && |b| >= 3 && DecodeDigits(Encode(b[3..])) == Some(b[3..])
    ensures DecodeDigits(Encode(b)) == Some(b)
  {
    hide Value, Digit, DecodeDigits, Encode;
    var x, y, z := Byte(b[0]), Byte(b[1]), Byte(b[2]);
    var p, q, r, t := x / 4, x % 4 * 16 + y / 16, y % 16 * 4 + z / 64, z % 64;
    ThreeBytes(x, y, z);
    EncodeOfMore(b, p, q, r, t);
    FourDigits(p, q, r, t, Encode(b[3..]));
    Front(b);
  }

  lemma Front(b: string)
    requires |b| >= 3
    ensures b == [b[0], b[1], b[2]] + b[3..]
  {
  }

  lemma {:induction false} DecodeOfDigits(b: string)
    requires IsBytes(b)
    ensures DecodeDigits(Encode(b)) == Some(b)
  {
    hide DecodeDigits, Encode;
    if b == [] {
      EncodeOfNothing();
      DecodeOfNothing();
    } else if |b| == 1 {
      DecodeOfOne(b);
    } else if |b| == 2 {
      DecodeOfTwo(b);
    } else {
      DecodeOfDigits(b[3..]);
      DecodeOfMore(b);
    }
  }

  lemma DecodeOfNothing()
    ensures DecodeDigits([]) == Some([])
  {
  }

  /** Decoding undoes encoding for every byte string. */
  lemma DecodeOfEncode(b: string)
    requires IsBytes(b)
    ensures Decode(Encode(b)) == Some(b)
  {
    EncodeUsesAlphabet(b);
    NoBreaks(Encode(b));
    DecodeOfDigits(b);
  }

  /** The decoder together with the re-encoding comparison that every caller makes. */
  function DecodeCanonical(s: string): (b: Option<string>)
    ensures b.Some? ==> IsBytes(b.value)
  {
    match Decode(s)
    case None => None
    case Some(b) => if Encode(b) == s then Some(b) else None
  }

  /** Main result: exactly the canonical encodings are accepted. */
  lemma OnlyCanonical(s: string)
    ensures DecodeCanonical(s).Some? <==> exists b :: IsBytes(b) && s == Encode(b)
    ensures forall b :: IsBytes(b) && s == Encode(b) ==> DecodeCanonical(s) == Some(b)
  {
    hide Encode, Decode;
    forall b | IsBytes(b) && s == Encode(b) ensures DecodeCanonical(s) == Some(b) { DecodeOfEncode(b); }
  }

  lemma Stripped()
    ensures WithoutBreaks("QU\nI") == "QUI" && WithoutBreaks("QUI") == "QUI"
  {
    assert "QU\nI"[1..] == "U\nI" && "U\nI"[1..] == "\nI" && "\nI"[1..] == "I" && "I"[1..] == [];
    assert "QUI"[1..] == "UI" && "UI"[1..] == "I";
    assert WithoutBreaks("I") == "I";
    assert WithoutBreaks("\nI") == "I" && WithoutBreaks("UI") == "UI" && WithoutBreaks("U\nI") == "UI";
  }

  lemma DecodedAB()
    ensures DecodeDigits("QUI") == Some("AB") && |Encode("AB")| == 3
  {
    assert Value('Q') == Some(16) && Value('U') == Some(20) && Value('I') == Some(8);
    assert Char(65) == 'A' && Char(66) == 'B';
  }

  /** The comparison is needed: on its own the decoder also takes text broken across lines. */
  lemma DecoderSkipsLineBreaks()
    ensures Decode("QU\nI") == Decode("QUI") == Some("AB") && DecodeCanonical("QU\nI").None?
  {
    hide WithoutBreaks, DecodeDigits, Encode;
    Stripped();
    DecodedAB();
    assert |"QU\nI"| == 4;
  }
}
