/** The canonical claim set of an access receipt and its builder
    (packages/access/src/receipt-claims.ts). */
module ReceiptClaims {
  import opened Basics

  const SINGLE := "single_redemption"
  const MULTI := "multi_redemption"

  datatype Claims = Claims(
    iss: string, sub: string, aud: string,
    iat: int, nbf: int, exp: int,
    jti: string, intentId: string, resourceId: string, policyId: string,
    paymentRef: Option<string>, grantType: string, maxRedemptions: int)

  predicate GrantAgrees(grantType: string, maxRedemptions: int) {
    (grantType == SINGLE && maxRedemptions == 1) || (grantType == MULTI && maxRedemptions > 1)
  }

  /** What a canonical claim set promises; none of it mentions how input is parsed. */
  predicate Valid(c: Claims) {
    && c.iss != "" && c.sub != "" && c.aud != "" && c.jti != ""
    && c.intentId != "" && c.resourceId != "" && c.policyId != ""
    && SafeInteger(c.iat) && SafeInteger(c.nbf) && SafeInteger(c.exp)
    && c.iat <= c.nbf < c.exp
    && SafeInteger(c.maxRedemptions)
    && ((c.grantType == "single_redemption" && c.maxRedemptions == 1)
        || (c.grantType == "multi_redemption" && c.maxRedemptions > 1))
  }

  /** The claim set as the JavaScript record that is signed. */
  function ToRecord(c: Claims): JsRecord {
    map[
      "iss" := Text(c.iss), "sub" := Text(c.sub), "aud" := Text(c.aud),
      "iat" := Integer(c.iat), "nbf" := Integer(c.nbf), "exp" := Integer(c.exp),
      "jti" := Text(c.jti), "intent_id" := Text(c.intentId),
      "resource_id" := Text(c.resourceId), "policy_id" := Text(c.policyId),
      "payment_ref" := if c.paymentRef.None? then JsNull else Text(c.paymentRef.value),
      "grant_type" := Text(c.grantType), "max_redemptions" := Integer(c.maxRedemptions)]
  }

  /** The field-by-field part of the schema. */
  predicate FieldsAccepted(f: JsRecord) {
    && IsNonEmptyText(Get(f, "iss")) && IsNonEmptyText(Get(f, "sub")) && IsNonEmptyText(Get(f, "aud"))
    && IsSafeInteger(Get(f, "iat")) && IsSafeInteger(Get(f, "nbf")) && IsSafeInteger(Get(f, "exp"))
    && IsNonEmptyText(Get(f, "jti")) && IsNonEmptyText(Get(f, "intent_id"))
    && IsNonEmptyText(Get(f, "resource_id")) && IsNonEmptyText(Get(f, "policy_id"))
    && (Get(f, "payment_ref").JsNull? || Get(f, "payment_ref").Text?)
    && Get(f, "grant_type") in {Text(SINGLE), Text(MULTI)}
    && IsSafeInteger(Get(f, "max_redemptions")) && Get(f, "max_redemptions").i > 0
  }

  /** The thirteen known members; every other one is stripped. */
  function Project(f: JsRecord): Claims
    requires FieldsAccepted(f)
  {
    Claims(
      Get(f, "iss").s, Get(f, "sub").s, Get(f, "aud").s,
      Get(f, "iat").i, Get(f, "nbf").i, Get(f, "exp").i,
      Get(f, "jti").s, Get(f, "intent_id").s, Get(f, "resource_id").s, Get(f, "policy_id").s,
      if Get(f, "payment_ref").JsNull? then None else Some(Get(f, "payment_ref").s),
      Get(f, "grant_type").s, Get(f, "max_redemptions").i)
  }

  /** The cross-field issues the schema raises. */
  predicate HasRelationIssue(c: Claims) {
    || (c.grantType == SINGLE && c.maxRedemptions != 1)
    || (c.grantType == MULTI && c.maxRedemptions <= 1)
    || c.iat > c.nbf
    || c.nbf >= c.exp
  }

  /** `buildAccessReceiptClaims`; `None` is the thrown validation error. */
  function Build(input: JsThing): Option<Claims> {
    if input.NotAnObject? || !FieldsAccepted(input.fields) then None
    else
      var c := Project(input.fields);
      if HasRelationIssue(c) then None else Some(c)
  }

  /** `f` carries every member of `r`, and perhaps more. */
  predicate Carries(f: JsRecord, r: JsRecord) {
    forall k <- r :: k in f && f[k] == r[k]
  }

  /** The builder accepts a record exactly when it carries the thirteen members of a valid claim set,
      and then returns that claim set, whatever else the record holds. */
  lemma BuildAcceptsExactly(input: JsThing, c: Claims)
    ensures Build(input) == Some(c) <==>
            input.Object? && Valid(c) && Carries(input.fields, ToRecord(c))
  {
    if Build(input) == Some(c) {
      var r := ToRecord(c);
      forall k <- r
        ensures k in input.fields && input.fields[k] == r[k]
      {
      }
    }
    if input.Object? && Valid(c) && Carries(input.fields, ToRecord(c)) {
      CarriedMembers(input.fields, c);
    }
  }

  /** `r` holds the thirteen members of `c`. */
  predicate HasMembers(r: JsRecord, c: Claims) {
    && Get(r, "iss") == Text(c.iss) && Get(r, "sub") == Text(c.sub) && Get(r, "aud") == Text(c.aud)
    && Get(r, "iat") == Integer(c.iat) && Get(r, "nbf") == Integer(c.nbf) && Get(r, "exp") == Integer(c.exp)
    && Get(r, "jti") == Text(c.jti) && Get(r, "intent_id") == Text(c.intentId)
    && Get(r, "resource_id") == Text(c.resourceId) && Get(r, "policy_id") == Text(c.policyId)
    && Get(r, "payment_ref") == (if c.paymentRef.None? then JsNull else Text(c.paymentRef.value))
    && Get(r, "grant_type") == Text(c.grantType) && Get(r, "max_redemptions") == Integer(c.maxRedemptions)
  }

  lemma RecordHasMembers(c: Claims)
    ensures HasMembers(ToRecord(c), c)
  {
  }

  lemma CarriedHaveMembers(f: JsRecord, r: JsRecord, c: Claims)
    requires HasMembers(r, c) && Carries(f, r)
    ensures HasMembers(f, c)
  {
    forall k | k in r
      ensures Get(f, k) == Get(r, k)
    {
    }
  }

  lemma CarriedMembers(f: JsRecord, c: Claims)
    requires Valid(c) && Carries(f, ToRecord(c))
    ensures FieldsAccepted(f) && Project(f) == c
  {
    RecordHasMembers(c);
    CarriedHaveMembers(f, ToRecord(c), c);
    HeldFieldsAccepted(f, c);
  }

  lemma HeldFieldsAccepted(f: JsRecord, c: Claims)
    requires Valid(c) && HasMembers(f, c)
    ensures FieldsAccepted(f) && Project(f) == c
  {
  }

  /** Building is an idempotent projection: its result is a valid claim set and a fixed point,
      and adding or changing members outside the thirteen never changes it. */
  lemma BuildIsProjection(f: JsRecord, extra: JsRecord)
    requires Build(Object(f)).Some?
    requires extra.Keys !! ToRecord(Build(Object(f)).value).Keys
    ensures var c := Build(Object(f)).value;
            && Valid(c)
            && Build(Object(ToRecord(c))) == Some(c)
            && Build(Object(f + extra)) == Some(c)
  {
    var c := Build(Object(f)).value;
    BuildAcceptsExactly(Object(f), c);
    BuildAcceptsExactly(Object(ToRecord(c)), c);
    BuildAcceptsExactly(Object(f + extra), c);
  }
}
