/** What the two token endpoints decide, case by case: which requests are refused how, what an issued token
    claims, and which presented tokens are accepted (ServeHTTP in cmd/aicrm/api_client_token.go, authenticate
    and verify in cmd/aicrm/api_client_jwt_auth.go). */
module TokenMeaning {
  import opened Wrappers
  import opened TokenJson
  import opened ApiToken
  import Base64Url
  import Digest
  import Hex
  import Text

  // ----- Three parts

  lemma SplitJoins(s: string)
    ensures SplitDots(s) != [] && (|SplitDots(s)| == 1 ==> SplitDots(s)[0] == s && '.' !in s)
    ensures |SplitDots(s)| == 3 ==>
              var p := SplitDots(s);
              s == p[0] + "." + p[1] + "." + p[2] && '.' !in p[0] && '.' !in p[1] && '.' !in p[2]
  {
    hide Digest.Cut;
    OneStep(s);
    match Digest.Cut(s, '.')
    case None =>
    case Some((a, rest)) =>
      OneStep(rest);
      match Digest.Cut(rest, '.')
      case None =>
      case Some((b, last)) => OneStep(last);
  }

  lemma OneStep(s: string)
    ensures match Digest.Cut(s, '.')
            case None => SplitDots(s) == [s] && '.' !in s
            case Some((a, rest)) => SplitDots(s) == [a] + SplitDots(rest) && s == a + "." + rest && '.' !in a && SplitDots(rest) != []
    decreases |s|
  {
    hide Digest.Cut;
    match Digest.Cut(s, '.')
    case None => if '.' in s { CutFails(s); }
    case Some((a, rest)) => OneStep(rest);
  }

  lemma {:induction false} CutFails(s: string)
    requires '.' in s
    ensures Digest.Cut(s, '.').Some?
  {
    if s[0] != '.' { assert s == [s[0]] + s[1..]; CutFails(s[1..]); }
  }

  // ----- A presented token

  /** The header carries one bearer token: canonical encodings of a header and a payload that read as
      HS256 and as the claims, and of their MAC under the key. */
  ghost predicate Carries(reader: Reader, mac: Mac, key: string, authorization: seq<string>, claims: Claims, h: string, p: string) {
    && Hex.IsBytes(h) && h != [] && Hex.IsBytes(p) && p != []
    && reader.header(h) == Some(Header("HS256", "JWT")) && reader.claims(p) == Some(claims)
    && var message := Base64Url.Encode(h) + "." + Base64Url.Encode(p);
       && Hex.IsBytes(mac(key, message)) && |mac(key, message)| == 32
       && var token := message + "." + Base64Url.Encode(mac(key, message));
          |token| <= 8_192 && authorization == ["Bearer " + token]
  }

  ghost predicate Presents(reader: Reader, mac: Mac, key: string, authorization: seq<string>, claims: Claims) {
    exists h, p :: Carries(reader, mac, key, authorization, claims, h, p)
  }

  /** The claims are an identity client's, and the instant is within their time, thirty seconds aside. */
  predicate Timely(claims: Claims, now: int) {
    && GoodID(claims.subject) && claims.audience == "identity" && claims.purpose == "identity" && claims.capability == "identity.resolve"
    && claims.version >= 1 && 1 <= claims.issuedAt <= claims.notBefore < claims.expiresAt
    && claims.notBefore - 30 <= now < claims.expiresAt + 30
  }

  lemma TimelyIs(claims: Claims, now: int)
    ensures ClaimsValid(claims, IDENTITY, now) <==> Timely(claims, now)
  {
    hide ValidClientID, GoodID;
    GoodIDIs(claims.subject);
  }

  lemma SegmentFrom(value: string)
    requires DecodeSegment(value).Some?
    ensures var b := DecodeSegment(value).value; Hex.IsBytes(b) && b != [] && value == Base64Url.Encode(b)
  {
    hide Base64Url.Encode;
    Base64Url.OnlyCanonical(value);
  }

  lemma CarriesFrom(reader: Reader, mac: Mac, key: string, token: string, claims: Claims)
    requires MacSound(mac) && TokenClaims(reader, mac, key, token) == Some(claims) && |token| <= 8_192
    ensures Presents(reader, mac, key, ["Bearer " + token], claims)
  {
    hide SplitDots, DecodeSegment, Base64Url.Encode, Base64Url.DecodeCanonical;
    var parts := SplitDots(token);
    SplitJoins(token);
    SegmentFrom(parts[0]);
    SegmentFrom(parts[1]);
    Base64Url.OnlyCanonical(parts[2]);
    var h, p := DecodeSegment(parts[0]).value, DecodeSegment(parts[1]).value;
    assert Carries(reader, mac, key, ["Bearer " + token], claims, h, p);
  }

  lemma PlainEnds(a: string, middle: string, b: string)
    requires Hex.IsBytes(a) && a != [] && Hex.IsBytes(b) && b != []
    ensures var token := Base64Url.Encode(a) + middle + Base64Url.Encode(b);
            token != "" && Text.Trimmed(token) && Text.Trimmed("Bearer " + token)
  {
    hide Base64Url.Encode, Text.Trimmed, Text.Space;
    SegmentOfEncoded(a);
    SegmentOfEncoded(b);
    Base64Url.EncodeUsesAlphabet(a);
    Base64Url.EncodeUsesAlphabet(b);
    var first, last := Base64Url.Encode(a), Base64Url.Encode(b);
    var token := first + middle + last;
    assert token[0] == first[0] && token[|token| - 1] == last[|last| - 1];
    NotSpace(first[0]);
    NotSpace(last[|last| - 1]);
    BearerStarts();
    assert ("Bearer " + token)[0] == 'B' && ("Bearer " + token)[|"Bearer " + token| - 1] == token[|token| - 1];
    Text.PlainTrimmed(token);
    Text.PlainTrimmed("Bearer " + token);
  }

  lemma BearerStarts()
    ensures !Text.Space('B')
  {
  }

  lemma ClaimsOf(reader: Reader, mac: Mac, key: string, authorization: seq<string>, claims: Claims, h: string, p: string)
    requires MacSound(mac) && Carries(reader, mac, key, authorization, claims, h, p)
    ensures BEARER <= authorization[0] && TokenClaims(reader, mac, key, authorization[0][|BEARER|..]) == Some(claims)
    ensures Text.Trimmed(authorization[0]) && Text.Trimmed(authorization[0][|BEARER|..])
    ensures 0 < |authorization[0][|BEARER|..]| <= 8_192
  {
    hide SplitDots, Base64Url.Encode, Base64Url.DecodeCanonical, Text.Trimmed;
    var message := Base64Url.Encode(h) + "." + Base64Url.Encode(p);
    var signature := mac(key, message);
    var token := message + "." + Base64Url.Encode(signature);
    assert authorization[0][|BEARER|..] == token;
    NoDot(h);
    NoDot(p);
    NoDot(signature);
    SplitThree(Base64Url.Encode(h), Base64Url.Encode(p), Base64Url.Encode(signature));
    SegmentOfEncoded(h);
    SegmentOfEncoded(p);
    SegmentOfEncoded(signature);
    var middle := "." + Base64Url.Encode(p) + ".";
    PlainEnds(h, middle, signature);
    assert token == Base64Url.Encode(h) + middle + Base64Url.Encode(signature);
  }

  /** Main result: a token is verified to claims exactly when it presents them and they are timely. */
  lemma VerifyIff(reader: Reader, mac: Mac, key: string, authorization: seq<string>, claims: Claims, now: int)
    requires MacSound(mac)
    ensures Verify(reader, mac, key, authorization, IDENTITY, now) == Some(claims)
            <==> Presents(reader, mac, key, authorization, claims) && Timely(claims, now)
  {
    hide ClaimsValid, Timely, TokenClaims, Text.Trimmed, Carries;
    TimelyIs(claims, now);
    if Verify(reader, mac, key, authorization, IDENTITY, now) == Some(claims) {
      var token := authorization[0][|BEARER|..];
      CarriesFrom(reader, mac, key, token, claims);
      assert authorization[0] == "Bearer " + token && authorization == [authorization[0]];
    }
    if h, p :| Carries(reader, mac, key, authorization, claims, h, p) {
      OneHeader(reader, mac, key, authorization, claims, h, p);
      ClaimsOf(reader, mac, key, authorization, claims, h, p);
    }
  }

  lemma OneHeader(reader: Reader, mac: Mac, key: string, authorization: seq<string>, claims: Claims, h: string, p: string)
    requires Carries(reader, mac, key, authorization, claims, h, p)
    ensures |authorization| == 1
  {
    hide Base64Url.Encode;
  }

  /** The credential still stands behind the claims, and allows their lifetime. */
  predicate Stands(c: Credential, claims: Claims) {
    && GoodClient(c) && c.state == "active" && c.clientID == claims.subject && c.version == claims.version
    && claims.expiresAt - claims.issuedAt <= c.policy.value.ttlMinutes * 60
  }

  lemma StandsIs(c: Credential, claims: Claims, now: int)
    requires Timely(claims, now)
    ensures CredentialMatches(c, claims, IDENTITY) <==> Stands(c, claims)
  {
    hide GoodClient, GoodID;
    GoodClientIs(c);
    if GoodClient(c) { PolicyOfGood(c); }
  }

  lemma PolicyOfGood(c: Credential)
    requires GoodClient(c)
    ensures c.policy.Some? && c.policy.value.audience == "identity" && c.policy.value.purpose == "identity" && c.policy.value.capability == "identity.resolve"
  {
    hide GoodID;
  }

  /** Main result: the answer to every presented token. The client of a timely token is let in when its
      credential stands behind it, the store's failure is reported as such, and everything else is
      unauthorized. */
  lemma AuthenticateDecides(reader: Reader, mac: Mac, key: string, authorization: seq<string>, lookup: string -> Lookup, now: int)
    requires MacSound(mac)
    ensures var answer := Authenticate(reader, mac, key, authorization, lookup, IDENTITY, now);
            && (forall claims :: Presents(reader, mac, key, authorization, claims) && Timely(claims, now) ==>
                  match lookup(claims.subject)
                  case Unavailable => answer == Err(AuthUnavailable)
                  case NotFound => answer == Err(Unauthorized)
                  case Found(c) => answer == if Stands(c, claims) then Ok(claims.subject) else Err(Unauthorized))
            && ((forall claims :: !(Presents(reader, mac, key, authorization, claims) && Timely(claims, now))) ==> answer == Err(Unauthorized))
  {
    hide Verify, Presents, Timely, CredentialMatches, Stands;
    var answer := Authenticate(reader, mac, key, authorization, lookup, IDENTITY, now);
    forall claims | Presents(reader, mac, key, authorization, claims) && Timely(claims, now)
      ensures match lookup(claims.subject)
              case Unavailable => answer == Err(AuthUnavailable)
              case NotFound => answer == Err(Unauthorized)
              case Found(c) => answer == if Stands(c, claims) then Ok(claims.subject) else Err(Unauthorized)
    {
      VerifyIff(reader, mac, key, authorization, claims, now);
      match lookup(claims.subject)
      case Unavailable =>
      case NotFound =>
      case Found(c) =>
        StandsIs(c, claims, now);
        SameClient(c, claims);
    }
    if Verify(reader, mac, key, authorization, IDENTITY, now).Some? {
      VerifyIff(reader, mac, key, authorization, Verify(reader, mac, key, authorization, IDENTITY, now).value, now);
    }
  }

  lemma SameClient(c: Credential, claims: Claims)
    ensures Stands(c, claims) ==> c.clientID == claims.subject
  {
    hide GoodClient;
  }
}
