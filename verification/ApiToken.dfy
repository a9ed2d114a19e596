/** Issuing and checking API client tokens (cmd/aicrm/api_client_token.go and
    cmd/aicrm/api_client_jwt_auth.go): compact JWS form as in section 3.1 of RFC 7515, time claims as
    in section 4.1 of RFC 7519 with thirty seconds of skew. The MAC and the reader of JSON are parameters. */
module ApiToken {
  import opened Wrappers
  import opened TokenJson
  import Base64Url
  import Decimal
  import Digest
  import Hex
  import Text

  const KEY_SIZE := 32
  const MAC_SIZE := 32
  const MAXIMUM_SIZE := 8192
  const SKEW := 30
  const BEARER := "Bearer "

  datatype Expectation = Expectation(audience: string, purpose: string, capability: string, scope: string)

  const IDENTITY := Expectation("identity", "identity", "identity.resolve", "")

  datatype Policy = Policy(audience: string, purpose: string, capability: string, scope: string, ttlMinutes: int)

  /** policy is what the metadata holds; None when it is empty or does not read as one policy. */
  datatype Credential = Credential(isAPIClient: bool, clientID: string, version: int, state: string, secretRef: string, policy: Option<Policy>)

  datatype Lookup = Unavailable | NotFound | Found(credential: Credential)

  /** HMAC-SHA-256 of a key and a message. */
  type Mac = (string, string) -> string

  ghost predicate MacSound(mac: Mac) {
    forall k, m :: |mac(k, m)| == MAC_SIZE && Hex.IsBytes(mac(k, m))
  }

  // ----- Checks on credentials

  predicate ClientIDChar(c: char) {
    c == '-' || c == '_' || c == '.' || 'a' <= c <= 'z' || 'A' <= c <= 'Z' || '0' <= c <= '9'
  }

  predicate ValidClientID(value: string) {
    value != "" && value != "." && value != ".." && |value| <= 120 && forall i :: 0 <= i < |value| ==> ClientIDChar(value[i])
  }

  function ClientPolicy(c: Credential, expected: Expectation): (p: Option<Policy>)
    ensures p.Some? ==> 1 <= p.value.ttlMinutes <= 1440 && p == c.policy && ValidClientID(c.clientID) && c.version >= 1
    ensures p.Some? ==> p.value.audience == expected.audience && p.value.purpose == expected.purpose
                        && p.value.capability == expected.capability && p.value.scope == expected.scope
  {
    if !c.isAPIClient || !ValidClientID(c.clientID) || c.version < 1 || c.policy.None? then None
    else
      var p := c.policy.value;
      if p.purpose != expected.purpose || p.audience != expected.audience || p.capability != expected.capability
         || p.scope != expected.scope || p.ttlMinutes < 1 || p.ttlMinutes > 1440
      then None else Some(p)
  }

  // ----- What a usable credential is

  predicate IDChar(c: char) {
    c in "-_." || '0' <= c <= '9' || 'A' <= c <= 'Z' || 'a' <= c <= 'z'
  }

  predicate GoodID(id: string) {
    1 <= |id| <= 120 && id != "." && id != ".." && forall i :: 0 <= i < |id| ==> IDChar(id[i])
  }

  /** An API client that may resolve identities, for one minute to one day at a time. */
  predicate GoodClient(c: Credential) {
    && c.isAPIClient && GoodID(c.clientID) && c.version >= 1 && c.policy.Some?
    && c.policy.value.audience == "identity" && c.policy.value.purpose == "identity" && c.policy.value.capability == "identity.resolve"
    && c.policy.value.scope == "" && 1 <= c.policy.value.ttlMinutes <= 1_440
  }

  lemma GoodIDIs(id: string)
    ensures ValidClientID(id) <==> GoodID(id)
  {
    assert forall c: char :: c in "-_." <==> c == '-' || c == '_' || c == '.';
  }

  lemma GoodClientIs(c: Credential)
    ensures ClientPolicy(c, IDENTITY) == if GoodClient(c) then c.policy else None
  {
    hide ValidClientID, GoodID;
    GoodIDIs(c.clientID);
  }

  /** The credential that is found belongs to the client and can be used. */
  predicate Usable(c: Credential, id: string) {
    GoodClient(c) && c.state == "active" && c.clientID == id && c.secretRef != ""
  }

  // ----- Issuing

  const HEADER := Header("HS256", "JWT")

  function Signed(mac: Mac, key: string, claims: Claims): string
    requires PlainClaims(claims) && MacSound(mac)
  {
    ClaimsSize(claims);
    HeaderSize(HEADER);
    var message := Base64Url.Encode(RenderHeader(HEADER)) + "." + Base64Url.Encode(RenderClaims(claims));
    message + "." + Base64Url.Encode(mac(key, message))
  }

  function MintedClaims(c: Credential, p: Policy, now: int): Claims {
    Claims(c.clientID, p.audience, p.purpose, p.capability, c.version, now, now, now + p.ttlMinutes * 60)
  }

  datatype Refusal = TemporarilyUnavailable | InvalidClient | AccessDenied | InvalidTarget | InvalidScope

  datatype Issued = Issued(token: string, expiresIn: int, scope: string)

  datatype Request = Request(clientID: string, secret: string, audience: string, scope: string, sourceAllowed: bool)

  /** What the endpoint requires of a request that has been parsed. */
  predicate MayIssue(r: Request, lookup: string -> Lookup, secrets: (string, string) -> Option<bool>) {
    && lookup(r.clientID).Found?
    && var c := lookup(r.clientID).credential;
    && ClientPolicy(c, IDENTITY).Some? && c.state == "active" && c.clientID == r.clientID && c.secretRef != ""
    && secrets(c.secretRef, r.secret) == Some(true) && r.sourceAllowed
    && r.audience == IDENTITY.audience && r.scope == IDENTITY.scope
  }

  /** Instants and versions are 64-bit. */
  predicate InRange(now: int, lookup: string -> Lookup, id: string) {
    && Decimal.MIN_INT64 <= now <= Decimal.MAX_INT64 - 86_400
    && (lookup(id).Found? ==> Int64(lookup(id).credential.version))
  }

  lemma MintedPlain(c: Credential, p: Policy, now: int)
    requires ClientPolicy(c, IDENTITY) == Some(p) && Int64(c.version) && Decimal.MIN_INT64 <= now <= Decimal.MAX_INT64 - 86_400
    ensures PlainClaims(MintedClaims(c, p, now))
  {
    forall i | 0 <= i < |c.clientID| ensures PlainChar(c.clientID[i]) { assert ClientIDChar(c.clientID[i]); }
  }

  /** The part of ServeHTTP after the request is parsed, with the answer to every request. An unavailable store
      or secret check is reported as such; a client that is not found, not usable or has a wrong secret is
      invalid; only then are source, audience and scope judged, in this order; what is issued claims the
      client, its version and its lifetime. */
  method Issue(mac: Mac, key: string, r: Request, lookup: string -> Lookup, secrets: (string, string) -> Option<bool>, now: int)
    returns (result: Result<Issued, Refusal>)
    requires MacSound(mac) && |key| == KEY_SIZE && InRange(now, lookup, r.clientID)
    ensures match lookup(r.clientID)
            case Unavailable => result == Err(TemporarilyUnavailable)
            case NotFound => result == Err(InvalidClient)
            case Found(c) =>
              if !Usable(c, r.clientID) then result == Err(InvalidClient)
              else
                match secrets(c.secretRef, r.secret)
                case None => result == Err(TemporarilyUnavailable)
                case Some(false) => result == Err(InvalidClient)
                case Some(true) =>
                  if !r.sourceAllowed then result == Err(AccessDenied)
                  else if r.audience != "identity" then result == Err(InvalidTarget)
                  else if r.scope != "" then result == Err(InvalidScope)
                  else
                    var seconds := c.policy.value.ttlMinutes * 60;
                    var claims := Claims(r.clientID, "identity", "identity", "identity.resolve", c.version, now, now, now + seconds);
                    PlainClaims(claims) && result == Ok(Issued(Signed(mac, key, claims), seconds, ""))
    ensures result.Ok? <==> MayIssue(r, lookup, secrets)
    ensures lookup(r.clientID).Unavailable? ==> result == Err(TemporarilyUnavailable)
    ensures lookup(r.clientID).NotFound? ==> result == Err(InvalidClient)
    ensures result.Err? && result.error in {AccessDenied, InvalidTarget, InvalidScope} ==>
              lookup(r.clientID).Found? && secrets(lookup(r.clientID).credential.secretRef, r.secret) == Some(true)
    ensures result.Ok? ==>
              var c := lookup(r.clientID).credential;
              var claims := MintedClaims(c, c.policy.value, now);
              && PlainClaims(claims)
              && result.value == Issued(Signed(mac, key, claims), claims.expiresAt - claims.issuedAt, c.policy.value.scope)
  {
    var found := lookup(r.clientID);
    if found.Unavailable? { return Err(TemporarilyUnavailable); }
    if found.NotFound? { return Err(InvalidClient); }
    var c := found.credential;
    GoodClientIs(c);
    var policy := ClientPolicy(c, IDENTITY);
    if policy.None? || c.state != "active" || c.clientID != r.clientID || c.secretRef == "" { return Err(InvalidClient); }
    var verified := secrets(c.secretRef, r.secret);
    if verified.None? { return Err(TemporarilyUnavailable); }
    if !verified.value { return Err(InvalidClient); }
    if !r.sourceAllowed { return Err(AccessDenied); }
    if r.audience != policy.value.audience { return Err(InvalidTarget); }
    if r.scope != policy.value.scope { return Err(InvalidScope); }
    var claims := MintedClaims(c, policy.value, now);
    MintedPlain(c, policy.value, now);
    result := Ok(Issued(Signed(mac, key, claims), policy.value.ttlMinutes * 60, policy.value.scope));
  }

  // ----- Checking

  function SplitDots(s: string): (parts: seq<string>)
    decreases |s|
  {
    match Digest.Cut(s, '.')
    case None => [s]
    case Some((before, after)) => [before] + SplitDots(after)
  }

  function DecodeSegment(value: string): Option<string> {
    match Base64Url.DecodeCanonical(value)
    case Some(b) => if b == [] then None else Some(b)
    case None => None
  }

  /** The claims' own checks at an instant. */
  predicate ClaimsValid(c: Claims, expected: Expectation, now: int) {
    && ValidClientID(c.subject) && c.audience == expected.audience && c.purpose == expected.purpose && c.capability == expected.capability
    && c.version >= 1 && c.issuedAt >= 1 && c.notBefore >= 1 && c.expiresAt >= 1
    && c.notBefore >= c.issuedAt && c.expiresAt > c.notBefore
    && c.issuedAt <= now + SKEW && c.notBefore <= now + SKEW && c.expiresAt > now - SKEW
  }

  /** The claims a compact token carries once its form and its signature are right. */
  function TokenClaims(reader: Reader, mac: Mac, key: string, token: string): Option<Claims> {
    var parts := SplitDots(token);
    if |parts| != 3 || parts[0] == "" || parts[1] == "" || parts[2] == "" then None
    else
      match (DecodeSegment(parts[0]), DecodeSegment(parts[1]))
      case (Some(h), Some(p)) =>
        (match (reader.header(h), reader.claims(p))
         case (Some(header), Some(claims)) =>
           if header.algorithm != "HS256" || header.kind != "JWT" then None
           else
             (match Base64Url.DecodeCanonical(parts[2])
              case Some(signature) =>
                if |signature| == MAC_SIZE && signature == mac(key, parts[0] + "." + parts[1]) then Some(claims) else None
              case None => None)
         case _ => None)
      case _ => None
  }

  function Verify(reader: Reader, mac: Mac, key: string, authorization: seq<string>, expected: Expectation, now: int): Option<Claims> {
    if |authorization| != 1 || !(BEARER <= authorization[0]) || !Text.Trimmed(authorization[0]) then None
    else
      var token := authorization[0][|BEARER|..];
      if token == "" || |token| > MAXIMUM_SIZE || !Text.Trimmed(token) then None
      else
        match TokenClaims(reader, mac, key, token)
        case None => None
        case Some(claims) => if ClaimsValid(claims, expected, now) then Some(claims) else None
  }

  datatype AuthError = Unauthorized | AuthUnavailable

  /** The credential still stands behind the claims. */
  predicate CredentialMatches(c: Credential, claims: Claims, expected: Expectation) {
    && ClientPolicy(c, expected).Some? && c.state == "active" && c.clientID == claims.subject && c.version == claims.version
    && claims.purpose == c.policy.value.purpose && claims.audience == c.policy.value.audience
    && claims.capability == c.policy.value.capability
    && claims.expiresAt - claims.issuedAt <= c.policy.value.ttlMinutes * 60
  }

  function Authenticate(reader: Reader, mac: Mac, key: string, authorization: seq<string>, lookup: string -> Lookup, expected: Expectation, now: int): Result<string, AuthError> {
    match Verify(reader, mac, key, authorization, expected, now)
    case None => Err(Unauthorized)
    case Some(claims) =>
      match lookup(claims.subject)
      case Unavailable => Err(AuthUnavailable)
      case NotFound => Err(Unauthorized)
      case Found(c) => if CredentialMatches(c, claims, expected) then Ok(c.clientID) else Err(Unauthorized)
  }

  // ----- Checking what was issued

  lemma NoDot(b: string)
    requires Hex.IsBytes(b)
    ensures '.' !in Base64Url.Encode(b)
  {
    hide Base64Url.Encode;
    Base64Url.EncodeUsesAlphabet(b);
    var s := Base64Url.Encode(b);
    assert Base64Url.Value('.').None?;
    assert forall i :: 0 <= i < |s| ==> s[i] != '.';
  }

  lemma SplitThree(a: string, b: string, c: string)
    requires '.' !in a && '.' !in b && '.' !in c
    ensures SplitDots(a + "." + b + "." + c) == [a, b, c]
  {
    hide Digest.Cut, SplitDots;
    assert a + "." + b + "." + c == a + ['.'] + (b + ['.'] + c);
    SplitFirst(a, b + ['.'] + c);
    SplitFirst(b, c);
    SplitLast(c);
  }

  lemma SplitFirst(a: string, rest: string)
    requires '.' !in a
    ensures SplitDots(a + ['.'] + rest) == [a] + SplitDots(rest)
  {
    hide Digest.Cut;
    Digest.CutFinds(a, '.', rest);
  }

  lemma SplitLast(c: string)
    requires '.' !in c
    ensures SplitDots(c) == [c]
  {
    hide Digest.Cut;
    NothingToCut(c);
  }

  lemma {:induction false} NothingToCut(c: string)
    requires '.' !in c
    ensures Digest.Cut(c, '.').None?
  {
    if c != [] {
      assert c == [c[0]] + c[1..];
      NothingToCut(c[1..]);
    }
  }

  lemma SegmentOfEncoded(b: string)
    requires Hex.IsBytes(b) && b != []
    ensures DecodeSegment(Base64Url.Encode(b)) == Some(b) && Base64Url.Encode(b) != ""
  {
    hide Base64Url.Encode;
    Base64Url.DecodeOfEncode(b);
    Base64Url.EncodeUsesAlphabet(b);
  }

  lemma HeaderPlain()
    ensures Plain(HEADER.algorithm) && Plain(HEADER.kind)
  {
  }

  /** Decoding a token that was signed gives its claims back. */
  lemma SignedReads(reader: Reader, mac: Mac, key: string, claims: Claims)
    requires PlainClaims(claims) && MacSound(mac) && ReadsPrinted(reader)
    ensures TokenClaims(reader, mac, key, Signed(mac, key, claims)) == Some(claims)
  {
    hide Base64Url.Encode, RenderHeader, RenderClaims, PlainClaims, Plain, Base64Url.DecodeCanonical;
    ClaimsSize(claims);
    HeaderPlain();
    HeaderSize(HEADER);
    var h, p := RenderHeader(HEADER), RenderClaims(claims);
    var message := Base64Url.Encode(h) + "." + Base64Url.Encode(p);
    var signature := mac(key, message);
    NoDot(h);
    NoDot(p);
    NoDot(signature);
    SplitThree(Base64Url.Encode(h), Base64Url.Encode(p), Base64Url.Encode(signature));
    SegmentOfEncoded(h);
    SegmentOfEncoded(p);
    SegmentOfEncoded(signature);
    assert reader.header(h) == Some(HEADER);
    assert reader.claims(p) == Some(claims);
  }

  /** A token contains no space, and fits the size limit when its texts are short. */
  lemma SignedForm(mac: Mac, key: string, claims: Claims)
    requires PlainClaims(claims) && MacSound(mac)
    requires |claims.subject| <= 120 && |claims.audience| <= 120 && |claims.purpose| <= 120 && |claims.capability| <= 120
    ensures var token := Signed(mac, key, claims);
            token != "" && |token| <= MAXIMUM_SIZE && Text.Trimmed(token) && Text.Trimmed(BEARER + token)
  {
    hide Base64Url.Encode, RenderHeader, RenderClaims, Text.Trimmed;
    ClaimsSize(claims);
    HeaderSize(HEADER);
    var h, p := RenderHeader(HEADER), RenderClaims(claims);
    var message := Base64Url.Encode(h) + "." + Base64Url.Encode(p);
    Base64Url.EncodeUsesAlphabet(h);
    Base64Url.EncodeUsesAlphabet(p);
    Base64Url.EncodeUsesAlphabet(mac(key, message));
    var first, last := Base64Url.Encode(h), Base64Url.Encode(mac(key, message));
    var token := Signed(mac, key, claims);
    assert token == message + "." + last;
    assert token[0] == first[0] && token[|token| - 1] == last[|last| - 1];
    NotSpace(first[0]);
    NotSpace(last[|last| - 1]);
    assert (BEARER + token)[0] == 'B' && (BEARER + token)[|BEARER + token| - 1] == token[|token| - 1];
    Text.PlainTrimmed(token);
    Text.PlainTrimmed(BEARER + token);
  }

  lemma NotSpace(c: char)
    requires Base64Url.Value(c).Some?
    ensures c < '\U{80}' && !Text.Space(c)
  {
  }

  /** Main result: for every clock and every lifetime of 1 to 1440 minutes, a token issued at iat is
      accepted at an instant exactly when iat is past the epoch, iat - 30 <= instant < exp + 30 and the credential then found
      is still active, unchanged in id and version, and allows that lifetime. */
  lemma IssuedAcceptedIff(reader: Reader, mac: Mac, key: string, issuer: Credential, policy: Policy, issuedAt: int, later: string -> Lookup, instant: int)
    requires MacSound(mac) && ReadsPrinted(reader) && ClientPolicy(issuer, IDENTITY) == Some(policy) && Int64(issuer.version)
    requires Decimal.MIN_INT64 <= issuedAt <= Decimal.MAX_INT64 - 86_400
    ensures PlainClaims(MintedClaims(issuer, policy, issuedAt))
    ensures var claims := MintedClaims(issuer, policy, issuedAt);
            var header := [BEARER + Signed(mac, key, claims)];
            Authenticate(reader, mac, key, header, later, IDENTITY, instant).Ok? <==>
              && issuedAt >= 1 && issuedAt - SKEW <= instant < issuedAt + policy.ttlMinutes * 60 + SKEW
              && later(issuer.clientID).Found?
              && var c := later(issuer.clientID).credential;
                 && c.isAPIClient && c.clientID == issuer.clientID && c.version == issuer.version && c.state == "active"
                 && ClientPolicy(c, IDENTITY).Some? && policy.ttlMinutes <= c.policy.value.ttlMinutes
  {
    hide Signed, TokenClaims, Text.Trimmed, ValidClientID, PlainClaims;
    MintedPlain(issuer, policy, issuedAt);
    var claims := MintedClaims(issuer, policy, issuedAt);
    MintedSizes(issuer, policy, issuedAt);
    SignedForm(mac, key, claims);
    SignedReads(reader, mac, key, claims);
    var value := BEARER + Signed(mac, key, claims);
    assert BEARER <= value && value[|BEARER|..] == Signed(mac, key, claims);
    assert Verify(reader, mac, key, [value], IDENTITY, instant) == if ClaimsValid(claims, IDENTITY, instant) then Some(claims) else None;
  }

  lemma MintedSizes(c: Credential, p: Policy, now: int)
    requires ClientPolicy(c, IDENTITY) == Some(p)
    ensures var claims := MintedClaims(c, p, now);
            |claims.subject| <= 120 && |claims.audience| <= 120 && |claims.purpose| <= 120 && |claims.capability| <= 120
  {
  }

  /** The token is the canonical encoding of a header, a payload and their MAC. */
  ghost predicate CarriesMac(mac: Mac, key: string, token: string, header: string, payload: string) {
    && Hex.IsBytes(header) && Hex.IsBytes(payload)
    && var message := Base64Url.Encode(header) + "." + Base64Url.Encode(payload);
    && Hex.IsBytes(mac(key, message))
    && SplitDots(token) == [Base64Url.Encode(header), Base64Url.Encode(payload), Base64Url.Encode(mac(key, message))]
  }

  /** Whatever JSON the reader takes, a token the server accepts was signed with its key: its signature is the MAC of its first two
      parts, and each part is the one canonical encoding of what it decodes to. */
  lemma AcceptedWasSigned(reader: Reader, mac: Mac, key: string, authorization: seq<string>, expected: Expectation, now: int)
    requires MacSound(mac) && Verify(reader, mac, key, authorization, expected, now).Some?
    ensures var claims := Verify(reader, mac, key, authorization, expected, now).value;
            && ClaimsValid(claims, expected, now)
            && exists h, p :: CarriesMac(mac, key, authorization[0][|BEARER|..], h, p) && reader.claims(p) == Some(claims)
  {
    hide SplitDots, ClaimsValid, Base64Url.Encode, Base64Url.Decode, Text.Trimmed;
    var token := authorization[0][|BEARER|..];
    var parts := SplitDots(token);
    var h, p := DecodeSegment(parts[0]).value, DecodeSegment(parts[1]).value;
    assert parts == [parts[0], parts[1], parts[2]];
    assert parts[0] == Base64Url.Encode(h) && parts[1] == Base64Url.Encode(p);
    assert CarriesMac(mac, key, token, h, p);
  }
}
