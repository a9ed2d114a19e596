/** encoding/hex: lower-case on the way out, either case on the way in. Byte strings are
    strings of characters below 256. */
module Hex {
  import opened Wrappers

  predicate IsBytes(s: string) {
    forall i :: 0 <= i < |s| ==> s[i] as int < 256
  }

  function NibbleChar(n: nat): (c: char)
    requires n < 16
    ensures '0' <= c <= '9' || 'a' <= c <= 'f'
  {
    if n < 10 then ('0' as int + n) as char else ('a' as int + n - 10) as char
  }

  function Nibble(c: char): (n: Option<nat>)
    ensures n.Some? ==> n.value < 16
  {
    if '0' <= c <= '9' then Some(c as int - '0' as int)
    else if 'a' <= c <= 'f' then Some(c as int - 'a' as int + 10)
    else if 'A' <= c <= 'F' then Some(c as int - 'A' as int + 10)
    else None
  }

  predicate LowerHex(s: string) {
    forall i :: 0 <= i < |s| ==> '0' <= s[i] <= '9' || 'a' <= s[i] <= 'f'
  }

  function DecodePair(hi: char, lo: char): (c: Option<char>)
    ensures c.Some? ==> c.value as int < 256
  {
    match (Nibble(hi), Nibble(lo))
    case (Some(h), Some(l)) => Some((16 * h + l) as char)
    case _ => None
  }

  function Encode(b: string): (s: string)
    requires IsBytes(b)
    ensures |s| == 2 * |b| && LowerHex(s)
  {
    if b == [] then []
    else [NibbleChar(b[0] as int / 16), NibbleChar(b[0] as int % 16)] + Encode(b[1..])
  }

  function Decode(s: string): (b: Option<string>)
    ensures b.Some? ==> IsBytes(b.value) && |s| == 2 * |b.value|
  {
    if s == [] then Some([])
    else if |s| == 1 then None
    else
      match (DecodePair(s[0], s[1]), Decode(s[2..]))
      case (Some(c), Some(rest)) => Some([c] + rest)
      case _ => None
  }

  lemma NibbleOfChar(n: nat)
    requires n < 16
    ensures Nibble(NibbleChar(n)) == Some(n)
  {
  }

  lemma PairOfByte(c: char)
    requires c as int < 256
    ensures DecodePair(NibbleChar(c as int / 16), NibbleChar(c as int % 16)) == Some(c)
  {
    NibbleOfChar(c as int / 16);
    NibbleOfChar(c as int % 16);
  }

  lemma CharOfNibble(c: char)
    ensures Nibble(c).Some? && NibbleChar(Nibble(c).value) == c <==> LowerHex([c])
  {
    if LowerHex([c]) { assert '0' <= [c][0] <= '9' || 'a' <= [c][0] <= 'f'; }
  }

  lemma ByteOfPair(hi: char, lo: char)
    ensures DecodePair(hi, lo).Some?
            && NibbleChar(DecodePair(hi, lo).value as int / 16) == hi && NibbleChar(DecodePair(hi, lo).value as int % 16) == lo
            <==> LowerHex([hi]) && LowerHex([lo])
  {
    CharOfNibble(hi);
    CharOfNibble(lo);
  }

  lemma {:induction false} DecodeOfEncode(b: string)
    requires IsBytes(b)
    ensures Decode(Encode(b)) == Some(b)
  {
    hide NibbleChar, DecodePair, LowerHex;
    if b != [] {
      DecodeOfEncode(b[1..]);
      PairOfByte(b[0]);
      assert Encode(b)[2..] == Encode(b[1..]);
      assert b == [b[0]] + b[1..];
    }
  }

  lemma LowerHexSplit(s: string)
    requires |s| >= 2
    ensures LowerHex(s) <==> LowerHex([s[0]]) && LowerHex([s[1]]) && LowerHex(s[2..])
  {
    assert s == [s[0]] + [s[1]] + s[2..];
  }

  lemma EncodePair(b: string, s: string)
    requires IsBytes(b) && b != [] && |s| >= 2
    ensures Encode(b) == s <==>
            NibbleChar(b[0] as int / 16) == s[0] && NibbleChar(b[0] as int % 16) == s[1] && Encode(b[1..]) == s[2..]
  {
    hide NibbleChar, LowerHex;
    var e := Encode(b);
    assert e[2..] == Encode(b[1..]);
    assert e == [e[0], e[1]] + e[2..] && s == [s[0], s[1]] + s[2..];
  }

  lemma DecodeShort(s: string)
    requires |s| < 2
    ensures Decode(s).Some? && Encode(Decode(s).value) == s <==> LowerHex(s) && |s| % 2 == 0
  {
  }

  lemma DecodeStep(s: string)
    requires |s| >= 2
    ensures Decode(s).Some? <==> DecodePair(s[0], s[1]).Some? && Decode(s[2..]).Some?
    ensures Decode(s).Some? ==> Decode(s).value != [] && Decode(s).value[0] == DecodePair(s[0], s[1]).value && Decode(s).value[1..] == Decode(s[2..]).value
  {
    hide DecodePair;
  }

  /** Re-encoding gives the text back exactly when it was lower-case hex of even length. */
  lemma {:induction false} EncodeOfDecode(s: string)
    ensures Decode(s).Some? && Encode(Decode(s).value) == s <==> LowerHex(s) && |s| % 2 == 0
    decreases |s|
  {
    hide NibbleChar, DecodePair, LowerHex, Encode, Decode;
    if |s| < 2 {
      DecodeShort(s);
    } else {
      EncodeOfDecode(s[2..]);
      ByteOfPair(s[0], s[1]);
      LowerHexSplit(s);
      DecodeStep(s);
      if Decode(s).Some? { EncodePair(Decode(s).value, s); }
    }
  }

  lemma EncodeInjective(a: string, b: string)
    requires IsBytes(a) && IsBytes(b) && Encode(a) == Encode(b)
    ensures a == b
  {
    DecodeOfEncode(a);
    DecodeOfEncode(b);
  }
}
