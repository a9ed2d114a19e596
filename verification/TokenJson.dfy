/** The JSON of a token's header and claims, in the one shape the endpoint prints
    (apiClientJWTHeader and apiClientJWTClaims in cmd/aicrm/api_client_jwt_auth.go). */
module TokenJson {
  import opened Wrappers
  import Decimal
  import Digest
  import Hex

  datatype Header = Header(algorithm: string, kind: string)

  datatype Claims = Claims(
    subject: string, audience: string, purpose: string, capability: string, version: int, issuedAt: int, notBefore: int, expiresAt: int)

  const QUOTE: char := '"'

  /** Characters that encoding/json prints as themselves. */
  predicate PlainChar(c: char) {
    ' ' <= c <= '~' && c != QUOTE && c != '\\' && c != '<' && c != '>' && c != '&'
  }

  predicate Plain(s: string) {
    forall i :: 0 <= i < |s| ==> PlainChar(s[i])
  }

  predicate Int64(i: int) {
    Decimal.MIN_INT64 <= i <= Decimal.MAX_INT64
  }

  predicate PlainClaims(c: Claims) {
    && Plain(c.subject) && Plain(c.audience) && Plain(c.purpose) && Plain(c.capability)
    && Int64(c.version) && Int64(c.issuedAt) && Int64(c.notBefore) && Int64(c.expiresAt)
  }

  // ----- Printing

  const ALG := "{\"alg\":\""
  const TYP := ",\"typ\":\""
  const SUB := "{\"sub\":\""
  const AUD := ",\"aud\":\""
  const PURPOSE := ",\"purpose\":\""
  const CAPABILITY := ",\"capability\":\""
  const VERSION := ",\"credential_version\":"
  const IAT := "\"iat\":"
  const NBF := "\"nbf\":"
  const EXP := "\"exp\":"

  /** A label, a value and the character that ends it, before the rest of the text. */
  function Field(name: string, value: string, end: char, rest: string): string {
    name + (value + [end] + rest)
  }

  function Numbers(c: Claims): string {
    Field(VERSION, Decimal.FormatInt(c.version), ',',
          Field(IAT, Decimal.FormatInt(c.issuedAt), ',',
                Field(NBF, Decimal.FormatInt(c.notBefore), ',', Field(EXP, Decimal.FormatInt(c.expiresAt), '}', []))))
  }

  function RenderClaims(c: Claims): string {
    Field(SUB, c.subject, QUOTE,
          Field(AUD, c.audience, QUOTE, Field(PURPOSE, c.purpose, QUOTE, Field(CAPABILITY, c.capability, QUOTE, Numbers(c)))))
  }

  function RenderHeader(h: Header): string {
    Field(ALG, h.algorithm, QUOTE, Field(TYP, h.kind, QUOTE, "}"))
  }

  // ----- Reading back

  function TakeField(s: string, name: string, end: char): (r: Option<(string, string)>)
    ensures r.Some? ==> s == Field(name, r.value.0, end, r.value.1) && end !in r.value.0
  {
    if name <= s then
      var r := Digest.Cut(s[|name|..], end);
      assert r.Some? ==> s == name + s[|name|..];
      r
    else None
  }

  function TakeText(s: string, name: string): (r: Option<(string, string)>)
    ensures r.Some? ==> s == Field(name, r.value.0, QUOTE, r.value.1) && Plain(r.value.0)
  {
    match TakeField(s, name, QUOTE)
    case Some((value, rest)) => if Plain(value) then Some((value, rest)) else None
    case None => None
  }

  function TakeNumber(s: string, name: string, end: char): (r: Option<(int, string)>)
    ensures r.Some? ==> s == Field(name, Decimal.FormatInt(r.value.0), end, r.value.1) && Int64(r.value.0)
  {
    match TakeField(s, name, end)
    case None => None
    case Some((value, rest)) =>
      match Decimal.ParseInt(value)
      case None => None
      case Some(n) => if Decimal.FormatInt(n) == value then Some((n, rest)) else None
  }

  function ParseNumbers(s: string): Option<(int, int, int, int)> {
    match TakeNumber(s, VERSION, ',')
    case None => None
    case Some((version, s1)) =>
      match TakeNumber(s1, IAT, ',')
      case None => None
      case Some((issuedAt, s2)) =>
        match TakeNumber(s2, NBF, ',')
        case None => None
        case Some((notBefore, s3)) =>
          match TakeNumber(s3, EXP, '}')
          case None => None
          case Some((expiresAt, s4)) => if s4 == [] then Some((version, issuedAt, notBefore, expiresAt)) else None
  }

  function ParseClaims(s: string): Option<Claims> {
    match TakeText(s, SUB)
    case None => None
    case Some((subject, s1)) =>
      match TakeText(s1, AUD)
      case None => None
      case Some((audience, s2)) =>
        match TakeText(s2, PURPOSE)
        case None => None
        case Some((purpose, s3)) =>
          match TakeText(s3, CAPABILITY)
          case None => None
          case Some((capability, s4)) =>
            match ParseNumbers(s4)
            case None => None
            case Some(n) => Some(Claims(subject, audience, purpose, capability, n.0, n.1, n.2, n.3))
  }

  function ParseHeader(s: string): Option<Header> {
    match TakeText(s, ALG)
    case None => None
    case Some((algorithm, s1)) =>
      match TakeText(s1, TYP)
      case None => None
      case Some((kind, s2)) => if s2 == "}" then Some(Header(algorithm, kind)) else None
  }

  lemma FieldFound(name: string, value: string, end: char, rest: string)
    requires end !in value
    ensures TakeField(Field(name, value, end, rest), name, end) == Some((value, rest))
  {
    var s := Field(name, value, end, rest);
    assert s[|name|..] == value + [end] + rest;
    Digest.CutFinds(value, end, rest);
  }

  lemma TextFound(name: string, value: string, rest: string)
    requires Plain(value)
    ensures TakeText(Field(name, value, QUOTE, rest), name) == Some((value, rest))
  {
    hide Field;
    assert QUOTE !in value by {
      assert !PlainChar(QUOTE);
      assert forall i :: 0 <= i < |value| ==> value[i] != QUOTE;
    }
    FieldFound(name, value, QUOTE, rest);
  }

  lemma NumberPlain(n: int, c: char)
    requires !Decimal.IsDigit(c) && c != '-'
    ensures c !in Decimal.FormatInt(n)
  {
    var digits := Decimal.FormatNat(if n < 0 then -n else n);
    assert forall i :: 0 <= i < |digits| ==> digits[i] != c;
  }

  lemma NumberFound(name: string, n: int, end: char, rest: string)
    requires Int64(n) && (end == ',' || end == '}')
    ensures TakeNumber(Field(name, Decimal.FormatInt(n), end, rest), name, end) == Some((n, rest))
  {
    hide Field, Decimal.FormatInt, Decimal.ParseInt;
    NumberPlain(n, end);
    FieldFound(name, Decimal.FormatInt(n), end, rest);
    Decimal.ParseOfFormat(n);
  }

  lemma NumbersFound(c: Claims)
    requires PlainClaims(c)
    ensures ParseNumbers(Numbers(c)) == Some((c.version, c.issuedAt, c.notBefore, c.expiresAt))
  {
    hide Field, TakeNumber, Decimal.FormatInt;
    var s3 := Field(EXP, Decimal.FormatInt(c.expiresAt), '}', []);
    var s2 := Field(NBF, Decimal.FormatInt(c.notBefore), ',', s3);
    var s1 := Field(IAT, Decimal.FormatInt(c.issuedAt), ',', s2);
    NumberFound(EXP, c.expiresAt, '}', []);
    NumberFound(NBF, c.notBefore, ',', s3);
    NumberFound(IAT, c.issuedAt, ',', s2);
    NumberFound(VERSION, c.version, ',', s1);
  }

  /** Reading back what was printed gives the claims. */
  lemma ParseOfRender(c: Claims)
    requires PlainClaims(c)
    ensures ParseClaims(RenderClaims(c)) == Some(c)
  {
    hide Field, TakeText, ParseNumbers, Numbers, Plain;
    var s3 := Field(CAPABILITY, c.capability, QUOTE, Numbers(c));
    var s2 := Field(PURPOSE, c.purpose, QUOTE, s3);
    var s1 := Field(AUD, c.audience, QUOTE, s2);
    TextFound(CAPABILITY, c.capability, Numbers(c));
    TextFound(PURPOSE, c.purpose, s3);
    TextFound(AUD, c.audience, s2);
    TextFound(SUB, c.subject, s1);
    NumbersFound(c);
  }

  lemma HeaderOfRender(h: Header)
    requires Plain(h.algorithm) && Plain(h.kind)
    ensures ParseHeader(RenderHeader(h)) == Some(h)
  {
    hide Field, TakeText, Plain;
    TextFound(TYP, h.kind, "}");
    TextFound(ALG, h.algorithm, Field(TYP, h.kind, QUOTE, "}"));
  }

  /** The reader accepts nothing but what the printer prints. */
  lemma RenderOfParse(s: string)
    requires ParseClaims(s).Some?
    ensures RenderClaims(ParseClaims(s).value) == s && PlainClaims(ParseClaims(s).value)
  {
    hide Field, TakeText, TakeNumber, Plain;
    var (subject, s1) := TakeText(s, SUB).value;
    var (audience, s2) := TakeText(s1, AUD).value;
    var (purpose, s3) := TakeText(s2, PURPOSE).value;
    var (capability, s4) := TakeText(s3, CAPABILITY).value;
    var (version, s5) := TakeNumber(s4, VERSION, ',').value;
    var (issuedAt, s6) := TakeNumber(s5, IAT, ',').value;
    var (notBefore, s7) := TakeNumber(s6, NBF, ',').value;
  }

  // ----- Readers

  /** How header and claims are read; encoding/json also reads reordered, spaced or escaped forms. */
  datatype Reader = Reader(header: string -> Option<Header>, claims: string -> Option<Claims>)

  /** A reader that can be trusted with what the endpoint prints. */
  ghost predicate ReadsPrinted(reader: Reader) {
    && (forall h: Header :: Plain(h.algorithm) && Plain(h.kind) ==> reader.header(RenderHeader(h)) == Some(h))
    && (forall c :: PlainClaims(c) ==> reader.claims(RenderClaims(c)) == Some(c))
  }

  function FixedShape(): Reader {
    Reader(s => ParseHeader(s), s => ParseClaims(s))
  }

  /** The reader of the fixed shape is such a reader, and every other reads at least as much, alike. */
  lemma FixedShapeIsLeast(reader: Reader, s: string)
    requires ReadsPrinted(reader)
    ensures ReadsPrinted(FixedShape())
    ensures FixedShape().claims(s).Some? ==> reader.claims(s) == FixedShape().claims(s)
  {
    hide ParseHeader, ParseClaims, RenderHeader, RenderClaims, Plain, PlainClaims;
    forall h: Header | Plain(h.algorithm) && Plain(h.kind) { HeaderOfRender(h); }
    forall c | PlainClaims(c) { ParseOfRender(c); }
    if ParseClaims(s).Some? { RenderOfParse(s); }
  }

  // ----- Bytes and sizes

  lemma {:induction false} DigitsBound(n: nat, k: nat)
    requires k >= 1 && n < Power10(k)
    ensures |Decimal.FormatNat(n)| <= k
  {
    if n >= 10 { DigitsBound(n / 10, k - 1); }
  }

  function Power10(k: nat): nat {
    if k == 0 then 1 else 10 * Power10(k - 1)
  }

  lemma NumberLength(n: int)
    requires Int64(n)
    ensures |Decimal.FormatInt(n)| <= 20
  {
    assert Power10(5) == 100_000;
    assert Power10(10) == 10_000_000_000;
    assert Power10(15) == 1_000_000_000_000_000;
    assert Power10(19) == 10_000_000_000_000_000_000;
    DigitsBound(if n < 0 then -n else n, 19);
  }

  lemma FieldBytes(name: string, value: string, end: char, rest: string)
    requires Hex.IsBytes(name) && Hex.IsBytes(value) && end as int < 256 && Hex.IsBytes(rest)
    ensures Hex.IsBytes(Field(name, value, end, rest)) && |Field(name, value, end, rest)| == |name| + |value| + 1 + |rest|
  {
  }

  lemma NumberBytes(n: int)
    ensures Hex.IsBytes(Decimal.FormatInt(n))
  {
    var digits := Decimal.FormatNat(if n < 0 then -n else n);
    assert Hex.IsBytes(digits);
  }

  lemma PlainBytes(s: string)
    requires Plain(s)
    ensures Hex.IsBytes(s)
  {
  }

  lemma NumbersSize(c: Claims)
    requires PlainClaims(c)
    ensures Hex.IsBytes(Numbers(c)) && |Numbers(c)| <= 150
  {
    hide Field, Decimal.FormatInt;
    NumberBytes(c.version);
    NumberBytes(c.issuedAt);
    NumberBytes(c.notBefore);
    NumberBytes(c.expiresAt);
    NumberLength(c.version);
    NumberLength(c.issuedAt);
    NumberLength(c.notBefore);
    NumberLength(c.expiresAt);
    var s3 := Field(EXP, Decimal.FormatInt(c.expiresAt), '}', []);
    var s2 := Field(NBF, Decimal.FormatInt(c.notBefore), ',', s3);
    var s1 := Field(IAT, Decimal.FormatInt(c.issuedAt), ',', s2);
    FieldBytes(EXP, Decimal.FormatInt(c.expiresAt), '}', []);
    FieldBytes(NBF, Decimal.FormatInt(c.notBefore), ',', s3);
    FieldBytes(IAT, Decimal.FormatInt(c.issuedAt), ',', s2);
    FieldBytes(VERSION, Decimal.FormatInt(c.version), ',', s1);
  }

  lemma ClaimsSize(c: Claims)
    requires PlainClaims(c)
    ensures Hex.IsBytes(RenderClaims(c))
    ensures 0 < |RenderClaims(c)| <= 250 + |c.subject| + |c.audience| + |c.purpose| + |c.capability|
  {
    hide Field, Numbers;
    PlainBytes(c.subject);
    PlainBytes(c.audience);
    PlainBytes(c.purpose);
    PlainBytes(c.capability);
    NumbersSize(c);
    var s3 := Field(CAPABILITY, c.capability, QUOTE, Numbers(c));
    var s2 := Field(PURPOSE, c.purpose, QUOTE, s3);
    var s1 := Field(AUD, c.audience, QUOTE, s2);
    FieldBytes(CAPABILITY, c.capability, QUOTE, Numbers(c));
    FieldBytes(PURPOSE, c.purpose, QUOTE, s3);
    FieldBytes(AUD, c.audience, QUOTE, s2);
    FieldBytes(SUB, c.subject, QUOTE, s1);
  }

  lemma HeaderSize(h: Header)
    requires Plain(h.algorithm) && Plain(h.kind)
    ensures Hex.IsBytes(RenderHeader(h)) && 0 < |RenderHeader(h)| <= 30 + |h.algorithm| + |h.kind|
  {
    hide Field;
    PlainBytes(h.algorithm);
    PlainBytes(h.kind);
    FieldBytes(TYP, h.kind, QUOTE, "}");
    FieldBytes(ALG, h.algorithm, QUOTE, Field(TYP, h.kind, QUOTE, "}"));
  }
}
