/** Verify, bind, consume: the redemption pipeline of the access package
    (packages/access/src/redeem-access-receipt.ts, packages/access/src/receipt-bindings.ts). */
module Redemption {
  import opened Basics
  import opened ReceiptClaims
  import opened StoreContract

  // ----- bindings -----

  const BOUND_KEYS: seq<string> := ["sub", "resource_id", "policy_id", "intent_id"]

  /** `isValidExpectedBindings`. An own `max_redemptions` that is `undefined` is refused. */
  predicate ValidExpectedBindings(expected: JsThing) {
    && expected.Object?
    && (forall k <- BOUND_KEYS :: k in expected.fields && IsNonEmptyText(expected.fields[k]))
    && ("max_redemptions" in expected.fields ==>
          IsSafeInteger(expected.fields["max_redemptions"]) && expected.fields["max_redemptions"].i > 0)
  }

  /** `evaluateAccessReceiptBindings`; true is `matched`, false is `binding_denied`. */
  predicate BindingsMatch(claims: JsThing, expected: JsThing) {
    if !ValidExpectedBindings(expected) then false
    else
      var built := Build(claims);
      if built.None? then false
      else
        var c := built.value;
        var e := expected.fields;
        if Text(c.sub) != Get(e, "sub") || Text(c.resourceId) != Get(e, "resource_id")
           || Text(c.policyId) != Get(e, "policy_id") || Text(c.intentId) != Get(e, "intent_id")
        then false
        else !(Get(e, "max_redemptions") != Undefined && Integer(c.maxRedemptions) != Get(e, "max_redemptions"))
  }

  /** The host asked for what the receipt grants. */
  predicate AsksFor(expected: JsThing, c: Claims) {
    && expected.Object?
    && Get(expected.fields, "sub") == Text(c.sub) && Get(expected.fields, "resource_id") == Text(c.resourceId)
    && Get(expected.fields, "policy_id") == Text(c.policyId) && Get(expected.fields, "intent_id") == Text(c.intentId)
    && ("max_redemptions" in expected.fields ==> expected.fields["max_redemptions"] == Integer(c.maxRedemptions))
  }

  lemma BindingsMatchIff(expected: JsThing, c: Claims)
    requires Valid(c)
    ensures BindingsMatch(Object(ToRecord(c)), expected) <==> AsksFor(expected, c)
  {
    BuildAcceptsExactly(Object(ToRecord(c)), c);
    if expected.Object? {
      ExpectedBindingsIff(expected);
    }
  }

  lemma ExpectedBindingsIff(expected: JsThing)
    requires expected.Object?
    ensures ValidExpectedBindings(expected) <==>
            && "sub" in expected.fields && IsNonEmptyText(expected.fields["sub"])
            && "resource_id" in expected.fields && IsNonEmptyText(expected.fields["resource_id"])
            && "policy_id" in expected.fields && IsNonEmptyText(expected.fields["policy_id"])
            && "intent_id" in expected.fields && IsNonEmptyText(expected.fields["intent_id"])
            && ("max_redemptions" in expected.fields ==>
                  IsSafeInteger(expected.fields["max_redemptions"]) && expected.fields["max_redemptions"].i > 0)
  {
    assert BOUND_KEYS[0] == "sub" && BOUND_KEYS[1] == "resource_id"
        && BOUND_KEYS[2] == "policy_id" && BOUND_KEYS[3] == "intent_id";
  }

  /** The claims are those of a valid claim set, whatever else they carry. */
  predicate Canonical(claims: JsThing, c: Claims) {
    claims.Object? && Valid(c) && Carries(claims.fields, ToRecord(c))
  }

  /** Bindings match exactly when the claims are canonical and the host asked for what they grant. */
  lemma MatchedIff(claims: JsThing, expected: JsThing)
    ensures BindingsMatch(claims, expected) <==> exists c: Claims :: Canonical(claims, c) && AsksFor(expected, c)
  {
    if c: Claims :| Canonical(claims, c) && AsksFor(expected, c) {
      CanonicalMatches(claims, c, expected);
    }
    if BindingsMatch(claims, expected) {
      var c := Build(claims).value;
      BuildAcceptsExactly(claims, c);
      CanonicalMatches(claims, c, expected);
    }
  }

  lemma CanonicalMatches(claims: JsThing, c: Claims, expected: JsThing)
    requires Canonical(claims, c)
    ensures BindingsMatch(claims, expected) <==> AsksFor(expected, c)
  {
    BuildAcceptsExactly(claims, c);
    BuildAcceptsExactly(Object(ToRecord(c)), c);
    BindingsMatchIff(expected, c);
  }

  // ----- redemption -----

  /** What the injected verifier did when it was awaited. */
  datatype VerifierAnswer = Verified(claims: JsThing) | VerificationError | UnexpectedError

  /** What the injected store did when it was awaited. */
  datatype StoreAnswer = Answered(value: JsThing) | Threw

  /** `None` where the input holds something that is not callable. */
  datatype Input =
    | NotARecord
    | Input(token: JsValue, expected: JsThing,
            verifier: Option<JsValue -> VerifierAnswer>,
            store: Option<Command -> StoreAnswer>,
            currentTime: JsValue)

  datatype Redeemed =
    | Success(exhausted: bool)
    | VerificationDenied
    | BindingDenied
    | ConsumptionDenied(reason: ConsumeResult)
    | Failure

  /** The result of a redemption and the calls it made on the store, in order. */
  datatype Trace = Trace(result: Redeemed, calls: seq<Command>)

  predicate ValidCurrentTime(v: JsValue) {
    IsSafeInteger(v) && v.i >= 0
  }

  /** `buildConsumeCommand` reads the verifier's own object, not the canonical copy. */
  function BuildCommand(f: JsRecord, expected: JsRecord, now: int): Command
    requires FieldsAccepted(f)
  {
    Command(
      f["jti"].s, f["iss"].s, f["sub"].s, f["aud"].s,
      f["intent_id"].s, f["resource_id"].s, f["policy_id"].s,
      f["grant_type"].s, f["max_redemptions"].i, f["exp"].i, now,
      if "max_redemptions" in expected && expected["max_redemptions"].Integer?
      then Some(expected["max_redemptions"].i) else None)
  }

  /** `isAccessReceiptConsumeResult`, and the contract value the answer denotes. */
  function ReadAnswer(value: JsThing): Option<ConsumeResult> {
    if value.NotAnObject? || !Get(value.fields, "outcome").Text? then None
    else
      var outcome := value.fields["outcome"].s;
      if outcome == "consumed" then
        if Get(value.fields, "exhausted").Bool? then Some(Consumed(value.fields["exhausted"].b)) else None
      else if outcome == "system_failure" then Some(SystemFailure)
      else Denial(outcome)
  }

  /** `mapConsumeResult`. */
  function MapResult(r: ConsumeResult): Redeemed {
    if r.Consumed? then Success(r.exhausted)
    else if r.SystemFailure? then Failure
    else ConsumptionDenied(r)
  }

  /** What the caller is told of the store's answer. */
  function AnswerFor(a: StoreAnswer): Redeemed {
    match a
    case Threw => Failure
    case Answered(value) =>
      var answer := ReadAnswer(value);
      if answer.None? then Failure else MapResult(answer.value)
  }

  /** `redeemAccessReceipt`. */
  function Redeem(input: Input): Trace {
    if input.NotARecord? || input.verifier.None? || input.store.None? || !ValidCurrentTime(input.currentTime)
    then Trace(Failure, [])
    else
      match input.verifier.value(input.token)
      case VerificationError => Trace(VerificationDenied, [])
      case UnexpectedError => Trace(Failure, [])
      case Verified(claims) =>
        if !BindingsMatch(claims, input.expected) then Trace(BindingDenied, [])
        else
          var command := BuildCommand(claims.fields, input.expected.fields, input.currentTime.i);
          Trace(AnswerFor(input.store.value(command)), [command])
  }

  /** Everything that must have been established before the store is called. */
  ghost predicate Cleared(input: Input, c: Claims) {
    && input.Input? && input.verifier.Some? && input.store.Some? && ValidCurrentTime(input.currentTime)
    && input.verifier.value(input.token).Verified?
    && Build(input.verifier.value(input.token).claims) == Some(c)
    && BindingsMatch(input.verifier.value(input.token).claims, input.expected)
  }

  lemma BuiltCommandCarries(claims: JsThing, expected: JsThing, now: int, c: Claims)
    requires Build(claims) == Some(c) && BindingsMatch(claims, expected)
    requires SafeInteger(now) && now >= 0
    ensures FieldsAccepted(claims.fields)
    ensures var k := BuildCommand(claims.fields, expected.fields, now);
            CommandCarries(k, c, expected.fields) && ValidCommand(k)
  {
    BuildAcceptsExactly(claims, c);
    CarriedMembers(claims.fields, c);
  }

  /** For every verifier and store, including throwing and malformed ones: the store is called at most
      once, exactly when verification produced canonical claims that match the bindings, and the one
      command carries the verified authority and is acceptable to the PostgreSQL store. */
  lemma StoreCallIsGuarded(input: Input)
    ensures var t := Redeem(input);
            && |t.calls| <= 1
            && (|t.calls| == 1 <==> exists c: Claims :: Cleared(input, c))
            && (t.calls == [] ==> !t.result.Success? && !t.result.ConsumptionDenied?)
    ensures forall c: Claims | Cleared(input, c) ::
              && |Redeem(input).calls| == 1
              && CommandCarries(Redeem(input).calls[0], c, input.expected.fields)
              && Redeem(input).calls[0].currentTime == input.currentTime.i
              && ValidCommand(Redeem(input).calls[0])
  {
    var t := Redeem(input);
    forall c: Claims | Cleared(input, c)
      ensures |t.calls| == 1
      ensures CommandCarries(t.calls[0], c, input.expected.fields)
      ensures ValidCommand(t.calls[0])
    {
      BuiltCommandCarries(input.verifier.value(input.token).claims, input.expected, input.currentTime.i, c);
    }
    if |t.calls| == 1 {
      var c := Build(input.verifier.value(input.token).claims).value;
      assert Cleared(input, c);
    }
  }

  /** The command states the signed authority member by member, and the host's limit when it gave one. */
  predicate CommandCarries(k: Command, c: Claims, expected: JsRecord) {
    && k.jti == c.jti && k.iss == c.iss && k.sub == c.sub && k.aud == c.aud
    && k.intentId == c.intentId && k.resourceId == c.resourceId && k.policyId == c.policyId
    && k.grantType == c.grantType && k.maxRedemptions == c.maxRedemptions && k.exp == c.exp
    && (k.expectedMax.Some? <==> "max_redemptions" in expected)
    && (k.expectedMax.Some? ==> k.expectedMax.value == c.maxRedemptions)
  }

  /** Success means exactly that the single store call answered with a well-formed `consumed`,
      and the flag handed to the caller is the store's. */
  lemma SuccessIsConsumed(input: Input, exhausted: bool)
    ensures Redeem(input).result == Success(exhausted) <==>
            exists k: Command ::
              && Redeem(input).calls == [k]
              && input.store.value(k).Answered?
              && ReadAnswer(input.store.value(k).value) == Some(Consumed(exhausted))
  {
    var t := Redeem(input);
    if t.result == Success(exhausted) {
      var k := t.calls[0];
      assert t.calls == [k];
    }
    if k: Command :| && t.calls == [k]
                     && input.store.value(k).Answered?
                     && ReadAnswer(input.store.value(k).value) == Some(Consumed(exhausted))
    {
      assert t.calls[0] == k;
      assert t.result == MapResult(Consumed(exhausted));
    }
  }

  /** A contract value survives the trip through the store's answer object. */
  lemma AnswerRoundTrip(r: ConsumeResult)
    ensures ReadAnswer(Object(AnswerRecord(r))) == Some(r)
  {
    var a := AnswerRecord(r);
    assert "outcome" in a;
  }

  // ----- every answer -----

  /** The host passed a record with a callable verifier and store, and a time that is a safe non-negative integer. */
  predicate WellFormed(input: Input) {
    && input.Input? && input.verifier.Some? && input.store.Some?
    && input.currentTime.Integer? && 0 <= input.currentTime.i <= 9007199254740991
  }

  /** The store's answer names this outcome. */
  predicate Says(a: StoreAnswer, outcome: string) {
    a.Answered? && a.value.Object? && Get(a.value.fields, "outcome") == Text(outcome)
  }

  predicate SaysUsed(a: StoreAnswer, exhausted: bool) {
    Says(a, "consumed") && Get(a.value.fields, "exhausted") == Bool(exhausted)
  }

  /** The caller is told what the store said, each of its outcomes written out; a failure in every remaining
      case. */
  predicate Relays(r: Redeemed, a: StoreAnswer) {
    && (r == Success(true) <==> SaysUsed(a, true))
    && (r == Success(false) <==> SaysUsed(a, false))
    && (r == ConsumptionDenied(ReceiptMissing) <==> Says(a, "receipt_missing"))
    && (r == ConsumptionDenied(AuthorityMismatch) <==> Says(a, "authority_mismatch"))
    && (r == ConsumptionDenied(ReceiptRevoked) <==> Says(a, "receipt_revoked"))
    && (r == ConsumptionDenied(ReceiptExpired) <==> Says(a, "receipt_expired"))
    && (r == ConsumptionDenied(ReceiptExhausted) <==> Says(a, "receipt_exhausted"))
    && (r == ConsumptionDenied(ConcurrencyConflict) <==> Says(a, "concurrency_conflict"))
    && !(r == ConsumptionDenied(SystemFailure) || (r.ConsumptionDenied? && r.reason.Consumed?))
    && !r.VerificationDenied? && !r.BindingDenied?
  }

  lemma AnswerRelays(a: StoreAnswer)
    ensures Relays(AnswerFor(a), a)
  {
  }

  lemma Asked(input: Input, claims: JsThing)
    requires WellFormed(input) && input.verifier.value(input.token) == Verified(claims)
    ensures var t := Redeem(input);
      if BindingsMatch(claims, input.expected)
      then |t.calls| == 1 && t.result == AnswerFor(input.store.value(t.calls[0]))
      else t == Trace(BindingDenied, [])
  {
  }

  /** Every answer of a redemption on a well-formed input. Verification is denied exactly when the verifier said
      so. The binding is denied exactly when it answered claims that are not canonical or that the host did not
      ask for. An error of the verifier's own is a failure. In every other case, and only then, the store is
      asked, once, and the caller is told what it said. */
  lemma AnswersIff(input: Input)
    requires WellFormed(input)
    ensures var v := input.verifier.value(input.token);
            var t := Redeem(input);
      && (t.result == VerificationDenied <==> v.VerificationError?)
      && (t.result == BindingDenied <==>
            v.Verified? && forall c: Claims | Canonical(v.claims, c) :: !AsksFor(input.expected, c))
      && (v.UnexpectedError? ==> t == Trace(Failure, []))
      && (t.result == VerificationDenied || t.result == BindingDenied || v.UnexpectedError? <==> t.calls == [])
      && (t.calls != [] ==> |t.calls| == 1 && Relays(t.result, input.store.value(t.calls[0])))
  {
    var v := input.verifier.value(input.token);
    match v
    case Verified(claims) =>
      MatchedIff(claims, input.expected);
      Asked(input, claims);
      if BindingsMatch(claims, input.expected) {
        AnswerRelays(input.store.value(Redeem(input).calls[0]));
      }
    case VerificationError => assert Redeem(input) == Trace(VerificationDenied, []);
    case UnexpectedError => assert Redeem(input) == Trace(Failure, []);
  }

  /** An ill-formed input is a failure, and nobody is asked. */
  lemma IllFormedFails(input: Input)
    requires !WellFormed(input)
    ensures Redeem(input) == Trace(Failure, [])
  {
  }
}
