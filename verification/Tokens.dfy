/** Signing and verifying access receipts in JWS compact serialization
    (packages/access/src/receipt-signer.ts, packages/access/src/receipt-verifier.ts). */
module CompactText {

  predicate IsBase64UrlChar(c: char) {
    'A' <= c <= 'Z' || 'a' <= c <= 'z' || '0' <= c <= '9' || c == '_' || c == '-'
  }

  predicate AllBase64Url(s: string) {
    forall i | 0 <= i < |s| :: IsBase64UrlChar(s[i])
  }

  /** `isBase64UrlSegment`. */
  predicate IsSegment(s: string) {
    |s| > 0 && |s| % 4 != 1 && AllBase64Url(s)
  }

  /** `split(".")`. */
  function Split(s: string): (parts: seq<string>)
    ensures |parts| > 0
  {
    if s == "" then [""]
    else
      var rest := Split(s[1..]);
      if s[0] == '.' then [""] + rest else [[s[0]] + rest[0]] + rest[1..]
  }

  function Join(parts: seq<string>): string
    requires |parts| > 0
  {
    if |parts| == 1 then parts[0] else parts[0] + "." + Join(parts[1..])
  }

  /** Splitting loses nothing. */
  lemma {:induction false} JoinSplit(s: string)
    ensures Join(Split(s)) == s
  {
    if s != "" {
      JoinSplit(s[1..]);
      var rest := Split(s[1..]);
      if s[0] == '.' {
        JoinNewPart(rest);
      } else {
        JoinLongerPart(s[0], rest);
      }
      assert s == [s[0]] + s[1..];
    }
  }

  lemma JoinNewPart(rest: seq<string>)
    requires |rest| > 0
    ensures Join([""] + rest) == "." + Join(rest)
  {
    var parts := [""] + rest;
    assert parts[0] == "" && parts[1..] == rest;
    assert "" + "." + Join(rest) == "." + Join(rest);
  }

  lemma JoinLongerPart(c: char, rest: seq<string>)
    requires |rest| > 0
    ensures Join([[c] + rest[0]] + rest[1..]) == [c] + Join(rest)
  {
    var parts := [[c] + rest[0]] + rest[1..];
    assert parts[0] == [c] + rest[0] && parts[1..] == rest[1..];
    if |rest| > 1 {
      PartInFront(c, rest[0], Join(rest[1..]));
    }
  }

  lemma PartInFront(c: char, first: string, tail: string)
    ensures [c] + first + "." + tail == [c] + (first + "." + tail)
  {
  }

  lemma {:induction false} SplitFirst(a: string, s: string)
    requires '.' !in a
    ensures Split(a + "." + s) == [a] + Split(s)
  {
    var whole := a + "." + s;
    if a == "" {
      assert whole == "." + s && whole[1..] == s;
    } else {
      assert whole[1..] == a[1..] + "." + s;
      SplitFirst(a[1..], s);
      var rest := Split(whole[1..]);
      assert rest == [a[1..]] + Split(s);
      assert rest[0] == a[1..] && rest[1..] == Split(s);
      assert [a[0]] + a[1..] == a;
      assert '.' != whole[0];
    }
  }

  lemma {:induction false} SplitNone(a: string)
    requires '.' !in a
    ensures Split(a) == [a]
  {
    if a != "" {
      SplitNone(a[1..]);
      assert [a[0]] + a[1..] == a;
    }
  }

  lemma SegmentHasNoDot(s: string)
    requires IsSegment(s)
    ensures '.' !in s
  {
  }

  /** Three segments joined by dots come apart into the same three. */
  lemma SplitThree(a: string, b: string, c: string)
    requires IsSegment(a) && IsSegment(b) && IsSegment(c)
    ensures Split(a + "." + b + "." + c) == [a, b, c]
  {
    SegmentHasNoDot(a);
    SegmentHasNoDot(b);
    SegmentHasNoDot(c);
    assert a + "." + b + "." + c == a + "." + (b + "." + c);
    SplitFirst(a, b + "." + c);
    SplitFirst(b, c);
    SplitNone(c);
  }

  /** The texts that are the unpadded base64url of some bytes, up to unused trailing bits (section 5 of RFC 4648):
      of a length that a positive number of bytes encodes to, and made of letters, digits, hyphens and
      underscores. */
  lemma SegmentIff(s: string)
    ensures IsSegment(s) <==>
            && (exists bytes: nat :: bytes > 0 && |s| == EncodedLength(bytes))
            && (forall i | 0 <= i < |s| ::
                  || 'A' <= s[i] <= 'Z' || 'a' <= s[i] <= 'z' || '0' <= s[i] <= '9'
                  || s[i] == '-' || s[i] == '_')
  {
    if |s| > 0 && |s| % 4 != 1 {
      assert |s| == EncodedLength(|s| * 3 / 4);
    }
  }

  /** Six bits a character. */
  function EncodedLength(bytes: nat): nat {
    (8 * bytes + 5) / 6
  }

  /** Bytes of the UTF-8 encoding. */
  function Utf8Length(s: string): nat {
    if s == "" then 0
    else
      var n := s[0] as int;
      (if n < 0x80 then 1 else if n < 0x800 then 2 else if n < 0x10000 then 3 else 4) + Utf8Length(s[1..])
  }

  lemma {:induction false} AsciiLength(s: string)
    requires forall i | 0 <= i < |s| :: s[i] as int < 0x80
    ensures Utf8Length(s) == |s|
  {
    if s != "" {
      AsciiLength(s[1..]);
    }
  }
}

module Tokens {
  import opened Basics
  import opened ReceiptClaims
  import opened CompactText

  type Key = nat

  type Bytes = seq<nat>

  /** The foreign parts: base64url of JSON, base64url of bytes, and the signature scheme of an Ed25519 key pair.
      Reading is not injective: a segment's unused trailing bits are ignored, so several spell the same bytes. */
  datatype Primitives = Primitives(
    encode: JsRecord -> string,
    decode: string -> Option<JsRecord>,
    spell: Bytes -> string,
    read: string -> Bytes,
    sign: (Key, string) -> Bytes,
    check: (Key, string, Bytes) -> bool)

  /** Records whose members JSON preserves. */
  predicate JsonSafe(r: JsRecord) {
    forall k <- r :: r[k].JsNull? || r[k].Bool? || r[k].Integer? || r[k].Text?
  }

  /** What is assumed of them: encoding is reversible and yields base64url text, signatures can be spelled and
      read back, a signature checks under a key exactly when that key made it, and different keys never sign
      alike. */
  ghost predicate Lawful(x: Primitives) {
    && (forall r: JsRecord :: JsonSafe(r) ==> IsSegment(x.encode(r)) && x.decode(x.encode(r)) == Some(r))
    && (forall k: Key, m: string :: IsSegment(x.spell(x.sign(k, m))) && x.read(x.spell(x.sign(k, m))) == x.sign(k, m))
    && (forall k: Key, m: string, s: Bytes :: x.check(k, m, s) <==> s == x.sign(k, m))
    && (forall k: Key, l: Key, m: string :: k != l ==> x.sign(k, m) != x.sign(l, m))
  }

  // ----- signer -----

  function Header(kid: string): JsRecord {
    map["alg" := Text("EdDSA"), "typ" := Text("JWT"), "kid" := Text(kid)]
  }

  function SignedText(x: Primitives, kid: string, c: Claims): string {
    x.encode(Header(kid)) + "." + x.encode(ToRecord(c))
  }

  /** The signer; `None` is the thrown validation error. */
  function Sign(x: Primitives, key: Key, kid: string, claims: JsThing): Option<string> {
    var built := Build(claims);
    if built.None? then None
    else
      var text := SignedText(x, kid, built.value);
      Some(text + "." + x.spell(x.sign(key, text)))
  }

  // ----- verifier -----

  datatype Verifier = Verifier(keys: map<string, Key>, issuer: string, audience: string,
                               clockTolerance: real, maxTokenSize: nat)

  const APPROVED_HEADER_KEYS := {"alg", "typ", "kid"}
  const REQUIRED_CLAIMS := {"iss", "sub", "aud", "iat", "nbf", "exp", "jti", "intent_id", "resource_id",
                            "policy_id", "payment_ref", "grant_type", "max_redemptions"}

  /** `parseHeader`; `None` is a denial. */
  function ParseHeader(x: Primitives, token: string, maxTokenSize: nat): Option<JsRecord> {
    if token == "" || Utf8Length(token) > maxTokenSize then None
    else
      var segments := Split(token);
      if |segments| != 3 || !(IsSegment(segments[0]) && IsSegment(segments[1]) && IsSegment(segments[2])) then None
      else
        var header := x.decode(segments[0]);
        if header.None? || !(header.value.Keys <= APPROVED_HEADER_KEYS) then None
        else if Get(header.value, "alg") != Text("EdDSA") || Get(header.value, "typ") != Text("JWT") then None
        else if !IsNonEmptyText(Get(header.value, "kid")) then None
        else header
  }

  /** The registered-claim checks of `jwtVerify`, with the clock in whole seconds. */
  predicate ClaimsInForce(p: JsRecord, v: Verifier, now: int) {
    && REQUIRED_CLAIMS <= p.Keys
    && p["iss"] == Text(v.issuer) && p["aud"] == Text(v.audience)
    && p["iat"].Integer? && p["nbf"].Integer? && p["exp"].Integer?
    && p["nbf"].i as real <= now as real + v.clockTolerance
    && p["exp"].i as real > now as real - v.clockTolerance
  }

  /** `verifyToken`; `None` is the verification error. */
  function VerifyToken(x: Primitives, token: JsValue, v: Verifier, now: int): Option<Claims> {
    if !token.Text? then None
    else
      var header := ParseHeader(x, token.s, v.maxTokenSize);
      if header.None? || header.value["kid"].s !in v.keys then None
      else
        var segments := Split(token.s);
        var key := v.keys[header.value["kid"].s];
        if !x.check(key, segments[0] + "." + segments[1], x.read(segments[2])) then None
        else
          var payload := x.decode(segments[1]);
          if payload.None? || !ClaimsInForce(payload.value, v, now) then None
          else Build(Object(payload.value))
  }

  /** Fills the verifier's key map from the imported keys; `None` is the configuration error raised for a key
      that could not be imported, for a repeated `kid`, and for no keys at all. */
  method BuildKeyMap(imported: seq<Option<(string, Key)>>) returns (keys: Option<map<string, Key>>)
    ensures keys.Some? <==>
              && imported != []
              && (forall i | 0 <= i < |imported| :: imported[i].Some?)
              && (forall i, j | 0 <= i < j < |imported| && imported[i].Some? && imported[j].Some? ::
                    imported[i].value.0 != imported[j].value.0)
    ensures keys.Some? ==>
              && (forall i | 0 <= i < |imported| ::
                    imported[i].value.0 in keys.value && keys.value[imported[i].value.0] == imported[i].value.1)
              && (forall kid | kid in keys.value :: exists i :: 0 <= i < |imported| && imported[i].value.0 == kid)
  {
    if imported == [] {
      return None;
    }
    var m: map<string, Key> := map[];
    for n := 0 to |imported|
      invariant forall i | 0 <= i < n :: imported[i].Some?
      invariant forall i, j | 0 <= i < j < n :: imported[i].value.0 != imported[j].value.0
      invariant forall i | 0 <= i < n :: imported[i].value.0 in m && m[imported[i].value.0] == imported[i].value.1
      invariant forall kid | kid in m :: exists i :: 0 <= i < n && imported[i].value.0 == kid
    {
      if imported[n].None? {
        return None;
      }
      var (kid, key) := imported[n].value;
      if kid in m {
        return None;
      }
      m := m[kid := key];
    }
    keys := Some(m);
  }

  // ----- properties -----

  lemma RecordIsJsonSafe(c: Claims)
    ensures JsonSafe(ToRecord(c)) && ToRecord(c).Keys == REQUIRED_CLAIMS
  {
  }

  lemma HeaderIsAccepted(x: Primitives, token: string, kid: string, max: nat, b: string, s: string)
    requires Lawful(x) && kid != "" && IsSegment(b) && IsSegment(s)
    requires token == x.encode(Header(kid)) + "." + b + "." + s
    ensures Split(token) == [x.encode(Header(kid)), b, s]
    ensures ParseHeader(x, token, max) == if Utf8Length(token) > max then None else Some(Header(kid))
  {
    assert JsonSafe(Header(kid));
    SplitThree(x.encode(Header(kid)), b, s);
    assert token != "";
    assert Header(kid).Keys == APPROVED_HEADER_KEYS;
  }

  /** When a verifier must accept a claim set signed under `key`. */
  predicate Acceptable(v: Verifier, key: Key, kid: string, c: Claims, size: nat, now: int) {
    && kid in v.keys && v.keys[kid] == key && size <= v.maxTokenSize
    && c.iss == v.issuer && c.aud == v.audience
    && c.nbf as real <= now as real + v.clockTolerance
    && c.exp as real > now as real - v.clockTolerance
  }

  lemma RecordInForce(c: Claims, v: Verifier, now: int)
    ensures ClaimsInForce(ToRecord(c), v, now) <==>
            && c.iss == v.issuer && c.aud == v.audience
            && c.nbf as real <= now as real + v.clockTolerance
            && c.exp as real > now as real - v.clockTolerance
  {
    RecordIsJsonSafe(c);
    RecordHasMembers(c);
    var p := ToRecord(c);
    assert "iss" in p && "aud" in p && "iat" in p && "nbf" in p && "exp" in p;
  }

  lemma KeyDecides(x: Primitives, key: Key, other: Key, m: string)
    requires Lawful(x)
    ensures x.check(other, m, x.sign(key, m)) <==> other == key
  {
  }

  /** Round trip, for any signing key and any verifier: verifying a signed valid claim set returns exactly that
      claim set when the signing key is the one trusted under its id, issuer and audience agree, the token is
      within the size limit and the time is inside the tolerated window; it is refused when any of these
      fails, another key under the same id included. */
  lemma SignVerifyRoundTrip(x: Primitives, key: Key, kid: string, claims: JsThing, c: Claims, v: Verifier, now: int)
    requires Lawful(x) && kid != "" && Build(claims) == Some(c)
    ensures var token := Sign(x, key, kid, claims);
      && token.Some?
      && VerifyToken(x, Text(token.value), v, now)
         == if Acceptable(v, key, kid, c, Utf8Length(token.value), now) then Some(c) else None
  {
    BuildAcceptsExactly(claims, c);
    BuildAcceptsExactly(Object(ToRecord(c)), c);
    var text := SignedText(x, kid, c);
    var signature := x.spell(x.sign(key, text));
    var token := text + "." + signature;
    RecordIsJsonSafe(c);
    assert token == x.encode(Header(kid)) + "." + x.encode(ToRecord(c)) + "." + signature;
    HeaderIsAccepted(x, token, kid, v.maxTokenSize, x.encode(ToRecord(c)), signature);
    RecordInForce(c, v, now);
    if kid in v.keys {
      KeyDecides(x, key, v.keys[kid], text);
    }
  }

  /** Nothing is accepted that a trusted key did not sign: whatever token is presented, the header and payload of
      an accepted one are text that a trusted key signed, its signature reads as that key's, its payload carries
      the returned claims, and those are a valid claim set, in force for this verifier, and a fixed point of the
      claim builder. */
  lemma AcceptedIsAuthentic(x: Primitives, token: JsValue, v: Verifier, now: int)
    requires Lawful(x) && VerifyToken(x, token, v, now).Some?
    ensures var c := VerifyToken(x, token, v, now).value;
      && Valid(c) && Build(Object(ToRecord(c))) == Some(c)
      && c.iss == v.issuer && c.aud == v.audience
      && c.nbf as real <= now as real + v.clockTolerance && c.exp as real > now as real - v.clockTolerance
      && token.Text? && |token.s| <= v.maxTokenSize
      && SignedByTrustedKey(x, token.s, v, c)
  {
    var c := VerifyToken(x, token, v, now).value;
    var segments := Split(token.s);
    var kid := ParseHeader(x, token.s, v.maxTokenSize).value["kid"].s;
    var payload := x.decode(segments[1]).value;
    BuildAcceptsExactly(Object(payload), c);
    BuildAcceptsExactly(Object(ToRecord(c)), c);
    AcceptedMembers(payload, c);
    SegmentsOf(token.s);
    HeaderHolds(x, token.s, v.maxTokenSize);
    AcceptedLength(token.s);
    SignatureIs(x, v.keys[kid], segments[0] + "." + segments[1], x.read(segments[2]));
    TrustedWitness(x, token.s, v, c, kid, segments[0], segments[1], segments[2]);
  }

  /** An accepted header holds exactly the three approved members. */
  lemma HeaderHolds(x: Primitives, token: string, max: nat)
    requires ParseHeader(x, token, max).Some?
    ensures Split(token) == [Split(token)[0], Split(token)[1], Split(token)[2]]
    ensures var h := ParseHeader(x, token, max).value;
      && h.Keys == {"alg", "typ", "kid"} && IsNonEmptyText(h["kid"])
      && h == map["alg" := Text("EdDSA"), "typ" := Text("JWT"), "kid" := h["kid"]]
      && x.decode(Split(token)[0]) == Some(h)
  {
    var h := ParseHeader(x, token, max).value;
    assert "alg" in h && "typ" in h && "kid" in h;
    assert h.Keys == {"alg", "typ", "kid"};
  }

  /** Every character of a token of three segments is one byte. */
  lemma AcceptedLength(token: string)
    requires |Split(token)| == 3
    requires IsSegment(Split(token)[0]) && IsSegment(Split(token)[1]) && IsSegment(Split(token)[2])
    ensures Utf8Length(token) == |token|
  {
    SegmentsOf(token);
    var p := Split(token);
    forall i | 0 <= i < |token|
      ensures token[i] as int < 0x80
    {
      if i < |p[0]| {
        assert token[i] == p[0][i];
      } else if |p[0]| < i < |p[0]| + 1 + |p[1]| {
        assert token[i] == p[1][i - |p[0]| - 1];
      } else if i > |p[0]| + 1 + |p[1]| {
        assert token[i] == p[2][i - |p[0]| - |p[1]| - 2];
      }
    }
    AsciiLength(token);
  }

  lemma SegmentsOf(token: string)
    requires |Split(token)| == 3
    ensures var p := Split(token); token == p[0] + "." + p[1] + "." + p[2]
  {
    JoinSplit(token);
    var p := Split(token);
    assert p == [p[0], p[1], p[2]];
    assert p[1..] == [p[1], p[2]] && p[1..][1..] == [p[2]];
    assert Join(p[1..]) == p[1] + "." + p[2];
    assert p[0] + "." + (p[1] + "." + p[2]) == p[0] + "." + p[1] + "." + p[2];
  }

  lemma SignatureIs(x: Primitives, key: Key, m: string, s: Bytes)
    requires Lawful(x) && x.check(key, m, s)
    ensures s == x.sign(key, m)
  {
  }

  lemma TrustedWitness(x: Primitives, token: string, v: Verifier, c: Claims,
                       kid: string, header: string, payload: string, signature: string)
    requires kid in v.keys && IsTokenOf(x, v.keys[kid], token, header, payload, signature)
    requires x.decode(header) == Some(map["alg" := Text("EdDSA"), "typ" := Text("JWT"), "kid" := Text(kid)])
    requires x.decode(payload).Some? && Carries(x.decode(payload).value, ToRecord(c))
    ensures SignedByTrustedKey(x, token, v, c)
  {
  }

  lemma AcceptedMembers(payload: JsRecord, c: Claims)
    requires Valid(c) && Carries(payload, ToRecord(c))
    ensures Get(payload, "iss") == Text(c.iss) && Get(payload, "aud") == Text(c.aud)
    ensures Get(payload, "nbf") == Integer(c.nbf) && Get(payload, "exp") == Integer(c.exp)
  {
    RecordHasMembers(c);
    CarriedHaveMembers(payload, ToRecord(c), c);
  }

  /** The token is signed text of this key: its signature reads as the key's over header and payload. */
  predicate IsTokenOf(x: Primitives, key: Key, token: string, header: string, payload: string, signature: string) {
    token == header + "." + payload + "." + signature && x.read(signature) == x.sign(key, header + "." + payload)
  }

  ghost predicate SignedByTrustedKey(x: Primitives, token: string, v: Verifier, c: Claims) {
    exists kid: string, header: string, payload: string, signature: string ::
      && kid in v.keys && IsTokenOf(x, v.keys[kid], token, header, payload, signature)
      && x.decode(header) == Some(map["alg" := Text("EdDSA"), "typ" := Text("JWT"), "kid" := Text(kid)])
      && x.decode(payload).Some? && Carries(x.decode(payload).value, ToRecord(c))
  }

  /** The signature counts by its bytes: another spelling of it, in a token of allowed size, is accepted alike. */
  lemma SpellingOfSignature(x: Primitives, v: Verifier, now: int, header: string, payload: string,
                            signature: string, other: string)
    requires IsSegment(header) && IsSegment(payload) && IsSegment(signature) && IsSegment(other)
    requires x.read(signature) == x.read(other)
    requires Utf8Length(header + "." + payload + "." + signature) <= v.maxTokenSize
    requires Utf8Length(header + "." + payload + "." + other) <= v.maxTokenSize
    ensures VerifyToken(x, Text(header + "." + payload + "." + signature), v, now)
         == VerifyToken(x, Text(header + "." + payload + "." + other), v, now)
  {
    SplitThree(header, payload, signature);
    SplitThree(header, payload, other);
  }
}
