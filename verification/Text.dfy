/** Trimmed text, joined text, and the byte-wise order; characters are bytes. */
module Text {
  import Sorting

  // ----- White space, in UTF-8

  predicate Space(c: char) {
    c == ' ' || '\t' <= c <= '\r'
  }

  /** The bytes of U+0085 and U+00A0. */
  predicate LatinSpace(s: string) {
    |s| == 2 && s[0] == '\U{C2}' && (s[1] == '\U{85}' || s[1] == '\U{A0}')
  }

  /** The bytes of U+1680, U+2000 to U+200A, U+2028, U+2029, U+202F, U+205F and U+3000. */
  predicate WideSpace(s: string) {
    && |s| == 3
    && (|| (s[0] == '\U{E1}' && s[1] == '\U{9A}' && s[2] == '\U{80}')
        || (s[0] == '\U{E2}' && s[1] == '\U{80}' && ('\U{80}' <= s[2] <= '\U{8A}' || s[2] == '\U{A8}' || s[2] == '\U{A9}' || s[2] == '\U{AF}'))
        || (s[0] == '\U{E2}' && s[1] == '\U{81}' && s[2] == '\U{9F}')
        || (s[0] == '\U{E3}' && s[1] == '\U{80}' && s[2] == '\U{80}'))
  }

  predicate SpaceFirst(s: string)
    requires s != []
  {
    Space(s[0]) || (|s| >= 2 && LatinSpace(s[..2])) || (|s| >= 3 && WideSpace(s[..3]))
  }

  predicate SpaceLast(s: string)
    requires s != []
  {
    Space(s[|s| - 1]) || (|s| >= 2 && LatinSpace(s[|s| - 2..])) || (|s| >= 3 && WideSpace(s[|s| - 3..]))
  }

  /** strings.TrimSpace leaves it alone. */
  predicate Trimmed(s: string) {
    s == [] || (!SpaceFirst(s) && !SpaceLast(s))
  }

  // ----- The same by code point

  type CodePoint = c: nat | c < 0x1_0000

  /** The White_Space characters of Unicode. */
  predicate WhiteSpace(c: CodePoint) {
    9 <= c <= 13 || c == 32 || c == 0x85 || c == 0xA0 || c == 0x1680 || 0x2000 <= c <= 0x200A || c == 0x2028 || c == 0x2029 || c == 0x202F
    || c == 0x205F || c == 0x3000
  }

  /** UTF-8, of the first 65536 code points. */
  function Utf8(c: CodePoint): (s: string)
    ensures s != []
  {
    if c < 0x80 then [c as char]
    else if c < 0x800 then [(0xC0 + c / 64) as char, (0x80 + c % 64) as char]
    else [(0xE0 + c / 4096) as char, (0x80 + c / 64 % 64) as char, (0x80 + c % 64) as char]
  }

  predicate SpaceText(s: string) {
    (|s| == 1 && Space(s[0])) || LatinSpace(s) || WideSpace(s)
  }

  lemma SpaceIs(c: CodePoint)
    requires WhiteSpace(c)
    ensures SpaceText(Utf8(c))
  {
  }

  lemma SpaceFrom(s: string) returns (c: CodePoint)
    requires SpaceText(s)
    ensures WhiteSpace(c) && s == Utf8(c)
  {
    if |s| == 1 {
      c := s[0] as nat;
    } else if |s| == 2 {
      c := (s[0] as nat - 0xC0) * 64 + (s[1] as nat - 0x80);
    } else {
      c := (s[0] as nat - 0xE0) * 4096 + (s[1] as nat - 0x80) * 64 + (s[2] as nat - 0x80);
    }
  }

  predicate EndsWith(s: string, t: string) {
    |s| >= |t| && s[|s| - |t|..] == t
  }

  lemma FirstSpace(s: string) returns (c: CodePoint)
    requires s != [] && SpaceFirst(s)
    ensures WhiteSpace(c) && Utf8(c) <= s
  {
    hide Space, LatinSpace, WideSpace, WhiteSpace, Utf8;
    if Space(s[0]) { c := SpaceFrom(s[..1]); }
    else if |s| >= 2 && LatinSpace(s[..2]) { c := SpaceFrom(s[..2]); }
    else { c := SpaceFrom(s[..3]); }
  }

  lemma LastSpace(s: string) returns (c: CodePoint)
    requires s != [] && SpaceLast(s)
    ensures WhiteSpace(c) && EndsWith(s, Utf8(c))
  {
    hide Space, LatinSpace, WideSpace, WhiteSpace, Utf8;
    if Space(s[|s| - 1]) { c := SpaceFrom(s[|s| - 1..]); }
    else if |s| >= 2 && LatinSpace(s[|s| - 2..]) { c := SpaceFrom(s[|s| - 2..]); }
    else { c := SpaceFrom(s[|s| - 3..]); }
  }

  lemma SpaceSize(s: string)
    requires SpaceText(s)
    ensures 1 <= |s| <= 3 && (|s| == 1 ==> Space(s[0])) && (|s| == 2 ==> LatinSpace(s)) && (|s| == 3 ==> WideSpace(s))
  {
  }

  lemma Begins(s: string, w: string)
    requires SpaceText(w) && w <= s
    ensures s != [] && SpaceFirst(s)
  {
    hide Space, LatinSpace, WideSpace, SpaceText;
    SpaceSize(w);
    if |w| == 1 { assert s[0] == w[0]; }
    else if |w| == 2 { assert s[..2] == w; }
    else { assert s[..3] == w; }
  }

  lemma Ends(s: string, w: string)
    requires SpaceText(w) && EndsWith(s, w)
    ensures s != [] && SpaceLast(s)
  {
    hide Space, LatinSpace, WideSpace, SpaceText;
    SpaceSize(w);
    if |w| == 1 { assert s[|s| - 1..] == w && s[|s| - 1] == w[0]; }
    else if |w| == 2 { assert s[|s| - 2..] == w; }
    else { assert s[|s| - 3..] == w; }
  }

  /** A text is trimmed exactly when no White_Space character, in UTF-8, begins or ends it. */
  lemma TrimmedIff(s: string)
    ensures Trimmed(s) <==> forall c: CodePoint :: WhiteSpace(c) ==> !(Utf8(c) <= s) && !EndsWith(s, Utf8(c))
  {
    hide Space, LatinSpace, WideSpace, WhiteSpace, Utf8, SpaceText, SpaceFirst, SpaceLast, EndsWith;
    forall c: CodePoint | WhiteSpace(c)
      ensures (Utf8(c) <= s ==> s != [] && SpaceFirst(s)) && (EndsWith(s, Utf8(c)) ==> s != [] && SpaceLast(s))
    {
      SpaceIs(c);
      if Utf8(c) <= s { Begins(s, Utf8(c)); }
      if EndsWith(s, Utf8(c)) { Ends(s, Utf8(c)); }
    }
    if s != [] && SpaceFirst(s) { var c := FirstSpace(s); }
    if s != [] && SpaceLast(s) { var c := LastSpace(s); }
  }

  lemma NotPlain(s: string)
    requires LatinSpace(s) || WideSpace(s)
    ensures |s| >= 2 && s[0] >= '\U{80}' && s[|s| - 1] >= '\U{80}'
  {
  }

  /** A text that begins and ends with ASCII characters other than space is one. */
  lemma PlainTrimmed(s: string)
    requires s != [] && s[0] < '\U{80}' && s[|s| - 1] < '\U{80}' && !Space(s[0]) && !Space(s[|s| - 1])
    ensures Trimmed(s)
  {
    hide Space, LatinSpace, WideSpace;
    if SpaceFirst(s) { NotPlain(if |s| >= 2 && LatinSpace(s[..2]) then s[..2] else s[..3]); }
    if SpaceLast(s) { NotPlain(if |s| >= 2 && LatinSpace(s[|s| - 2..]) then s[|s| - 2..] else s[|s| - 3..]); }
  }

  /** A separator that the parts before it do not hold can be found again. */
  lemma SplitAt(a: string, b: string, c: string, d: string, sep: char)
    requires sep !in a && sep !in c && a + [sep] + b == c + [sep] + d
    ensures a == c && b == d
  {
    var s := a + [sep] + b;
    assert s[|a|] == sep && s[|c|] == sep;
    assert forall i :: 0 <= i < |a| ==> s[i] != sep;
    assert forall i :: 0 <= i < |c| ==> s[i] != sep;
    assert s[..|a|] == a && s[..|c|] == c && s[|a| + 1..] == b && s[|c| + 1..] == d;
  }

  /** Equal texts with parts of equal length have equal parts. */
  lemma SplitHere(a: string, b: string, c: string, d: string)
    requires |a| == |c| && a + b == c + d
    ensures a == c && b == d
  {
    var s := a + b;
    assert s[..|a|] == a && s[..|c|] == c && s[|a|..] == b && s[|c|..] == d;
  }

  // ----- Byte-wise order of strings

  predicate Leq(a: string, b: string) {
    a == [] || (b != [] && (a[0] < b[0] || (a[0] == b[0] && Leq(a[1..], b[1..]))))
  }

  lemma {:induction false} LeqTotal(a: string, b: string)
    ensures Leq(a, b) || Leq(b, a)
    ensures Leq(a, b) && Leq(b, a) ==> a == b
  {
    if a != [] && b != [] && a[0] == b[0] {
      LeqTotal(a[1..], b[1..]);
      assert a == [a[0]] + a[1..] && b == [b[0]] + b[1..];
    }
  }

  lemma {:induction false} LeqTransitive(a: string, b: string, c: string)
    requires Leq(a, b) && Leq(b, c)
    ensures Leq(a, c)
  {
    if a != [] && a[0] == b[0] == c[0] { LeqTransitive(a[1..], b[1..], c[1..]); }
  }

  lemma LeqIsOrder()
    ensures Sorting.TotalOrder(Leq)
  {
    forall a, b ensures (Leq(a, b) || Leq(b, a)) && (Leq(a, b) && Leq(b, a) ==> a == b) { LeqTotal(a, b); }
    forall a, b, c | Leq(a, b) && Leq(b, c) { LeqTransitive(a, b, c); }
  }

  // ----- Strict order

  predicate Less(a: string, b: string) {
    Leq(a, b) && a != b
  }

  lemma {:induction false} LessAt(a: string, b: string, k: nat)
    requires k < |a| && k < |b| && a[..k] == b[..k] && a[k] < b[k]
    ensures Less(a, b)
    decreases k
  {
    if k > 0 {
      assert a[0] == a[..k][0] && b[0] == b[..k][0];
      assert a[1..][..k - 1] == a[..k][1..] && b[1..][..k - 1] == b[..k][1..];
      LessAt(a[1..], b[1..], k - 1);
    }
  }

  lemma {:induction false} PrefixLess(a: string, b: string)
    requires a < b
    ensures Less(a, b)
  {
    if a != [] { PrefixLess(a[1..], b[1..]); }
  }

  lemma LessTransitive(a: string, b: string, c: string)
    requires Less(a, b) && Less(b, c)
    ensures Less(a, c)
  {
    LeqTransitive(a, b, c);
    LeqTotal(a, b);
    LeqTotal(b, c);
  }
}
