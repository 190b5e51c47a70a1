/** What a committed creation and a committed reconciliation leave behind, column by column, read off the request
    and the Fiber node's answer (src/services/fiber-latch-service.ts:182-356, 662-922). */
module LegacyEffects {
  import opened Basics
  import opened FiberStatus
  import opened LegacyDb
  import opened LegacyLifecycle
  import opened LegacyVerdicts

  // ----- what is said of a payment, or of none -----

  predicate Paid(v: Option<FiberVerification>) {
    v.Some? && SaysPaid(v.value)
  }

  predicate Expiring(v: Option<FiberVerification>) {
    v.Some? && SaysExpired(v.value)
  }

  predicate Failing(v: Option<FiberVerification>) {
    v.Some? && SaysFailed(v.value)
  }

  predicate Waits(v: Option<FiberVerification>) {
    v.None? || SaysPending(v.value)
  }

  lemma MappingSays(v: Option<FiberVerification>)
    ensures var m := MappingOf(v);
      && (m.state == PaidVerified <==> Paid(v)) && (m.shouldIssue <==> Paid(v))
      && (m.state == ExpiredState <==> Expiring(v)) && (m.state == FailedState <==> Failing(v))
      && (m.state in {Waiting, PaymentPending} <==> Waits(v))
      && (m.intentStatus == if Paid(v) then Verified else if Expiring(v) then IntentExpired
                            else if Failing(v) then Rejected else Pending)
  {
    if v.Some? {
      VerdictIff(v.value);
    } else {
      VerdictOfText(None);
    }
  }

  // ----- issuing -----

  /** A fresh receipt for intent `i`: active, unused, from `at` for the policy's lifetime. */
  predicate FreshReceipt(r: Receipt, row: Intent, i: nat, p: Policy, at: int, jti: string) {
    && r.intent == i && r.policy == row.policy && r.jti == jti
    && r.resource == row.resource && r.subject == row.subject
    && r.status == Issued && r.active
    && r.maxRedemptions == p.maxRedemptions && r.count == 0
    && r.issuedAt == at && r.nbf == at && r.exp == at + p.ttlSeconds * 1000
    && r.redeemedAt == None && r.exhaustedAt == None
  }

  /** The claims signed with it, in whole seconds. */
  predicate TokenOf(c: LegacyClaims, row: Intent, i: nat, p: Policy, rt: Runtime, at: int, jti: string) {
    && c.iss == rt.issuer && c.aud == rt.audience && c.sub == row.subject.id
    && c.jti == jti && c.intent == i && c.policy == row.policy && c.resourceKey == p.resource.key
    && c.paymentRef == row.paymentRef
    && c.maxRedemptions == p.maxRedemptions
    && c.grantType == (if p.maxRedemptions == 1 then "single_redemption" else "multi_redemption")
    && c.iat * 1000 <= at < (c.iat + 1) * 1000 && c.nbf == c.iat
    && c.exp * 1000 <= at + p.ttlSeconds * 1000 < (c.exp + 1) * 1000
  }

  predicate TimesMarked(row: Intent, at: int) {
    row.verifiedAt == Some(at) && row.receiptIssuedAt == Some(at)
  }

  /** Issuing for an intent without a receipt fails exactly when the new identity is taken. */
  lemma IssueFailsIff(db: Db, rt: Runtime, i: nat, at: int, jti: string)
    requires i < |db.intents| && db.intents[i].policy < |db.policies| && !HasReceipt(db.receipts, i)
    ensures IssueReceipt(db, rt, i, at, jti).IssueFailed?
            <==> IdentityTaken(db.receipts, jti)
  {
    assert FindReceiptOf(db.receipts, i).None?;
  }

  /** What it leaves behind otherwise: one more receipt, its intent marked, two events, and a token. */
  lemma IssueLeaves(db: Db, rt: Runtime, i: nat, at: int, jti: string)
    requires i < |db.intents| && db.intents[i].policy < |db.policies| && !HasReceipt(db.receipts, i)
    requires IssueReceipt(db, rt, i, at, jti).IssueDone?
    ensures var done := IssueReceipt(db, rt, i, at, jti);
            var row := db.intents[i];
            var p := db.policies[row.policy];
            var r := |db.receipts|;
      && done.receipt == r && |done.db.receipts| == r + 1 && done.db.receipts[..r] == db.receipts
      && FreshReceipt(done.db.receipts[r], row, i, p, at, jti)
      && done.token.Some? && TokenOf(done.token.value, row, i, p, rt, at, jti)
      && done.db.policies == db.policies
      && done.db.intents
         == db.intents[i := row.(status := ReceiptIssued, verifiedAt := Some(at), receiptIssuedAt := Some(at))]
      && done.db.events
         == db.events + [Event(IntentVerified, i, Some(r)), Event(ReceiptIssuedEvent, i, Some(r))]
  {
    assert FindReceiptOf(db.receipts, i).None?;
    var r := |db.receipts|;
    assert db.events + [Event(IntentVerified, i, Some(r))] + [Event(ReceiptIssuedEvent, i, Some(r))]
        == db.events + [Event(IntentVerified, i, Some(r)), Event(ReceiptIssuedEvent, i, Some(r))];
  }

  // ----- creating -----

  /** The Fiber answer a creation acts on: none unless it names a payment. */
  function Heard(input: CreateInput, fiber: FiberReply): Option<FiberVerification> {
    if Truthy(Trimmed(input.paymentRef)) && fiber.Reply? then Some(fiber.v) else None
  }

  function When(v: Option<FiberVerification>, later: int): int {
    if v.Some? && v.value.settledAt.Some? then v.value.settledAt.value else later
  }

  function StatusAfter(v: Option<FiberVerification>, mode: Mode): IntentStatus {
    if Paid(v) then (if mode == Fake then ReceiptIssued else Verified)
    else if Expiring(v) then IntentExpired
    else if Failing(v) then Rejected
    else Pending
  }

  function EventsAfter(i: nat, r: nat, v: Option<FiberVerification>, mode: Mode): seq<Event> {
    [Event(IntentCreated, i, None)]
    + (if Waits(v) then [Event(IntentPaymentPending, i, None)] else [])
    + ResolvedEvents(i, r, v, mode)
  }

  /** The new intent is the caller's, under a policy for the resource it asked for. */
  predicate NewRow(row: Intent, p: Policy, c: Call) {
    var v := Heard(c.input, c.fiber);
    var at := When(v, c.later);
    && row.resource == c.input.resource && row.subject == c.input.subject && p.resource == c.input.resource
    && row.paymentRef == Trimmed(c.input.paymentRef) && row.idempotencyKey == Trimmed(c.input.idempotencyKey)
    && row.status == StatusAfter(v, c.rt.mode)
    && row.verifiedAt == (if row.status == Pending then None else Some(at))
    && row.receiptIssuedAt == (if row.status == ReceiptIssued then Some(at) else None)
    && row.expiresAt == Some(c.now + p.ttlSeconds * 1000)
    && row.fiberResponse == v
  }

  /** A receipt and a token if one is issued at once, and neither otherwise. */
  predicate ReceiptSide(receipts: seq<Receipt>, done: CreateResult, row: Intent, i: nat, p: Policy, rt: Runtime,
                        at: int, jti: string)
    requires done.Committed?
  {
    var r := |receipts|;
    if row.status == ReceiptIssued then
      && |done.db.receipts| == r + 1 && done.db.receipts[..r] == receipts
      && FreshReceipt(done.db.receipts[r], row, i, p, at, jti)
      && done.token.Some? && TokenOf(done.token.value, row, i, p, rt, at, jti)
    else done.db.receipts == receipts && done.token == None
  }

  /** Everything a creation that created an intent leaves behind. */
  predicate CreatedFor(db: Db, c: Call, done: CreateResult)
    requires done.Committed?
  {
    var i, after := |db.intents|, done.db;
    var v := Heard(c.input, c.fiber);
    && done.created && done.intent == i
    && |after.intents| == i + 1 && after.intents[..i] == db.intents
    && after.intents[i].policy < |after.policies|
    && var row := after.intents[i];
       var p := after.policies[row.policy];
       && NewRow(row, p, c)
       && (if exists k :: 0 <= k < |db.policies| && db.policies[k].resource == c.input.resource
           then after.policies == db.policies
           else after.policies == db.policies + [Policy(c.input.resource, c.rt.ttlSeconds, c.rt.maxRedemptions)])
       && after.events == db.events + EventsAfter(i, |db.receipts|, v, c.rt.mode)
       && ReceiptSide(db.receipts, done, row, i, p, c.rt, When(v, c.later), c.jti)
  }

  /** A key or a payment of the request is taken, or the identity its receipt would get. */
  predicate Clashes(db: Db, c: Call) {
    || (exists i :: 0 <= i < |db.intents| &&
          ((c.input.paymentRef.Some? && db.intents[i].paymentRef == Trimmed(c.input.paymentRef))
           || (c.input.idempotencyKey.Some? && db.intents[i].idempotencyKey == Trimmed(c.input.idempotencyKey))))
    || (StatusAfter(Heard(c.input, c.fiber), c.rt.mode) == ReceiptIssued
        && IdentityTaken(db.receipts, c.jti))
  }

  predicate HoldsKey(db: Db, i: nat, c: Call) {
    && i < |db.intents| && c.input.idempotencyKey.Some? && Trimmed(c.input.idempotencyKey) != Some("")
    && db.intents[i].idempotencyKey == Trimmed(c.input.idempotencyKey)
  }

  lemma NewIntentIsRow(c: Call, policy: nat, p: Policy)
    requires p.resource == c.input.resource
    ensures var v := Heard(c.input, c.fiber);
            NewRow(NewIntent(c.input, c.rt, policy, p, v, c.now, c.later), p, c)
  {
    MappingSays(Heard(c.input, c.fiber));
  }

  /** The last part of a creation, given the inserted row. */
  predicate ResolvedAs(db: Db, rt: Runtime, i: nat, v: Option<FiberVerification>, later: int, jti: string,
                       done: CreateResult)
    requires i < |db.intents| && db.intents[i].policy < |db.policies| && done.Committed?
  {
    && done.created && done.intent == i
    && done.db.policies == db.policies && done.db.intents == db.intents
    && done.db.events == db.events + ResolvedEvents(i, |db.receipts|, v, rt.mode)
    && ReceiptSide(db.receipts, done, db.intents[i], i, db.policies[db.intents[i].policy], rt, When(v, later), jti)
  }

  function ResolvedEvents(i: nat, r: nat, v: Option<FiberVerification>, mode: Mode): seq<Event> {
    if Paid(v) && mode == Real then [Event(IntentVerified, i, None)]
    else if Paid(v) then [Event(IntentVerified, i, Some(r)), Event(ReceiptIssuedEvent, i, Some(r))]
    else if Expiring(v) then [Event(IntentExpiredEvent, i, None)]
    else if Failing(v) then [Event(IntentRejected, i, None)]
    else []
  }

  /** The row already carries the status and times that its resolution would write. */
  predicate Anticipates(row: Intent, v: Option<FiberVerification>, mode: Mode, later: int) {
    && row.status == StatusAfter(v, mode)
    && (row.status == ReceiptIssued ==> TimesMarked(row, When(v, later)))
  }

  lemma ResolveLeaves(db: Db, rt: Runtime, i: nat, v: Option<FiberVerification>, later: int, jti: string)
    requires i < |db.intents| && db.intents[i].policy < |db.policies| && !HasReceipt(db.receipts, i)
    requires Anticipates(db.intents[i], v, rt.mode, later)
    ensures var done := Resolve(db, rt, i, v, later, jti);
      if StatusAfter(v, rt.mode) == ReceiptIssued && IdentityTaken(db.receipts, jti) then done.Aborted?
      else done.Committed? && ResolvedAs(db, rt, i, v, later, jti, done)
  {
    MappingSays(v);
    var row := db.intents[i];
    assert db.intents[i := row] == db.intents;
    assert SettledOr(v, later) == When(v, later);
    if StatusAfter(v, rt.mode) == ReceiptIssued {
      IssueFailsIff(db, rt, i, When(v, later), jti);
      if IssueReceipt(db, rt, i, When(v, later), jti).IssueDone? {
        IssueLeaves(db, rt, i, When(v, later), jti);
        assert row.(status := ReceiptIssued, verifiedAt := Some(When(v, later)),
                    receiptIssuedAt := Some(When(v, later))) == row;
      }
    }
  }

  lemma NotedEvents(db: Db, i: nat, r: nat, v: Option<FiberVerification>, mode: Mode)
    ensures var noted := NotePending(AppendEvent(db, IntentCreated, i, None), i, v);
            noted == db.(events := noted.events)
            && noted.events + ResolvedEvents(i, r, v, mode) == db.events + EventsAfter(i, r, v, mode)
  {
    MappingSays(v);
    var created := [Event(IntentCreated, i, None)];
    var pending := if Waits(v) then [Event(IntentPaymentPending, i, None)] else [];
    assert NotePending(AppendEvent(db, IntentCreated, i, None), i, v).events == db.events + created + pending;
    assert db.events + created + pending + ResolvedEvents(i, r, v, mode)
        == db.events + (created + pending + ResolvedEvents(i, r, v, mode));
  }

  predicate IdentityTaken(receipts: seq<Receipt>, jti: string) {
    exists r :: 0 <= r < |receipts| && receipts[r].jti == jti
  }

  predicate StoredAs(db: Db, row: Intent, rt: Runtime, v: Option<FiberVerification>, later: int, jti: string,
                     done: CreateResult)
    requires row.policy < |db.policies| && done.Committed?
  {
    var i := |db.intents|;
    && done.created && done.intent == i
    && done.db.policies == db.policies && done.db.intents == db.intents + [row]
    && done.db.events == db.events + EventsAfter(i, |db.receipts|, v, rt.mode)
    && ReceiptSide(db.receipts, done, row, i, db.policies[row.policy], rt, When(v, later), jti)
  }

  /** The transaction from the insert on. */
  lemma StoreLeaves(db: Db, row: Intent, rt: Runtime, v: Option<FiberVerification>, later: int, jti: string)
    requires Inv(db) && row.policy < |db.policies| && InsertIntent(db, row).Some?
    requires Anticipates(row, v, rt.mode, later)
    ensures var done := StoreIntent(db, row, rt, v, later, jti);
      if StatusAfter(v, rt.mode) == ReceiptIssued && IdentityTaken(db.receipts, jti) then done.Aborted?
      else done.Committed? && StoredAs(db, row, rt, v, later, jti, done)
  {
    var i := |db.intents|;
    var inserted := InsertIntent(db, row).value;
    var noted := NotePending(AppendEvent(inserted, IntentCreated, i, None), i, v);
    NotedEvents(inserted, i, |db.receipts|, v, rt.mode);
    assert !HasReceipt(db.receipts, i);
    ResolveLeaves(noted, rt, i, v, later, jti);
  }

  predicate Unasked(c: Call) {
    Truthy(Trimmed(c.input.paymentRef)) && c.fiber.FiberThrows?
  }

  lemma FreshCreation(db: Db, c: Call)
    requires Inv(db) && ValidRuntime(c.rt) && !Unasked(c)
    requires forall i: nat :: !HoldsKey(db, i, c)
    ensures if Clashes(db, c) then Perform(db, c).Aborted?
            else Perform(db, c).Committed? && CreatedFor(db, c, Perform(db, c))
  {
    EnsureKeepsInv(db, c.input.resource, c.rt);
    EnsureLeaves(db, c.input.resource, c.rt);
    var e := EnsurePolicy(db, c.input.resource, c.rt);
    var v := Heard(c.input, c.fiber);
    var row := NewIntent(c.input, c.rt, e.policy, e.db.policies[e.policy], v, c.now, c.later);
    NewIntentIsRow(c, e.policy, e.db.policies[e.policy]);
    InsertFailsIff(e.db, row);
    FoundHolds(db, c);
    assert Perform(db, c) == StoreIntent(e.db, row, c.rt, v, c.later, c.jti);
    if InsertIntent(e.db, row).Some? {
      StoreLeaves(e.db, row, c.rt, v, c.later, c.jti);
    }
  }

  lemma FoundHolds(db: Db, c: Call)
    ensures var key := Trimmed(c.input.idempotencyKey);
      if Truthy(key) && FindByKey(db.intents, key.value).Some?
      then HoldsKey(db, FindByKey(db.intents, key.value).value, c)
      else forall i: nat :: !HoldsKey(db, i, c)
  {
  }

  /** A creation finds the holder of its key, or fails, or creates an intent. It fails exactly when the payment it
      names cannot be asked about, or its key, its payment or the identity of its receipt is taken. Otherwise the
      intent, its policy, its events and its receipt and token are what the request and the answer make them. */
  lemma CreationLeaves(db: Db, c: Call)
    requires Inv(db) && ValidRuntime(c.rt)
    ensures var done := Perform(db, c);
      if exists i: nat :: HoldsKey(db, i, c)
      then done.Committed? && !done.created && done.db == db && done.token == None && HoldsKey(db, done.intent, c)
      else if Unasked(c) || Clashes(db, c) then done.Aborted?
      else done.Committed? && CreatedFor(db, c, done)
  {
    FoundHolds(db, c);
    var key := Trimmed(c.input.idempotencyKey);
    if !(Truthy(key) && FindByKey(db.intents, key.value).Some?) && !Unasked(c) {
      FreshCreation(db, c);
    }
  }

  lemma EnsureLeaves(db: Db, r: Resource, rt: Runtime)
    ensures var e := EnsurePolicy(db, r, rt);
      && e.policy < |e.db.policies| && e.db.policies[e.policy].resource == r
      && e.db == db.(policies := e.db.policies)
      && (if exists k :: 0 <= k < |db.policies| && db.policies[k].resource == r
          then e.db.policies == db.policies
          else e.db.policies == db.policies + [Policy(r, rt.ttlSeconds, rt.maxRedemptions)])
  {
  }

  lemma InsertFailsIff(db: Db, row: Intent)
    ensures InsertIntent(db, row).None? <==>
            exists i :: 0 <= i < |db.intents| &&
              ((row.paymentRef.Some? && db.intents[i].paymentRef == row.paymentRef)
               || (row.idempotencyKey.Some? && db.intents[i].idempotencyKey == row.idempotencyKey))
    ensures InsertIntent(db, row).Some? ==> InsertIntent(db, row).value == db.(intents := db.intents + [row])
  {
  }

  // ----- reconciling -----

  /** Only intent `i` and the event log changed. */
  predicate Marked(db: Db, i: nat, row: Intent, events: seq<Event>, done: ReconcileResult, outcome: ReconcileOutcome)
    requires i < |db.intents|
  {
    done == Reconciled(db.(intents := db.intents[i := row], events := db.events + events), outcome)
  }

  /** Intent `i` got its receipt. */
  predicate Received(db: Db, rt: Runtime, i: nat, row: Intent, p: Policy, at: int, jti: string, done: ReconcileResult)
    requires i < |db.intents|
  {
    var r := |db.receipts|;
    && done.Reconciled? && done.outcome == OutVerified
    && done.db.policies == db.policies
    && done.db.intents
       == db.intents[i := row.(status := ReceiptIssued, verifiedAt := Some(at), receiptIssuedAt := Some(at))]
    && |done.db.receipts| == r + 1 && done.db.receipts[..r] == db.receipts
    && FreshReceipt(done.db.receipts[r], row, i, p, at, jti)
    && done.db.events == db.events + [Event(IntentVerified, i, Some(r)), Event(ReceiptIssuedEvent, i, Some(r))]
  }

  /** What is left once the answer `v` about an intent without a receipt is noted in `row`. */
  predicate SettledBy(db: Db, rt: Runtime, i: nat, row: Intent, p: Policy, v: FiberVerification, now: int, jti: string,
                      done: ReconcileResult)
    requires i < |db.intents|
  {
    if SaysPaid(v) then
      if IdentityTaken(db.receipts, jti) then done == ReconcileFailed
      else Received(db, rt, i, row, p, When(Some(v), now), jti, done)
    else if SaysExpired(v) then
      Marked(db, i, row.(status := IntentExpired),
        if row.status == IntentExpired then [] else [Event(IntentExpiredEvent, i, None)], done, OutExpired)
    else if SaysFailed(v) then
      Marked(db, i, row.(status := Rejected),
        if row.status == Rejected then [] else [Event(IntentRejected, i, None)], done, OutRejected)
    else Marked(db, i, row, [], done, OutPending)
  }

  lemma SettleLeaves(db: Db, rt: Runtime, i: nat, row: Intent, v: FiberVerification, now: int, jti: string)
    requires PoliciesExist(db) && i < |db.intents| && !HasReceipt(db.receipts, i)
    requires row == db.intents[i].(fiberResponse := Some(v))
    ensures SettledBy(db, rt, i, row, db.policies[row.policy], v, now, jti,
              Settle(SetIntent(db, i, row), rt, i, MapRawStatus(RawStatusOf(v)).state, SettledOr(Some(v), now), jti))
  {
    VerdictIff(v);
    SettleByState(db, rt, i, row, v, MapRawStatus(RawStatusOf(v)).state, now, jti);
  }

  lemma SettleByState(db: Db, rt: Runtime, i: nat, row: Intent, v: FiberVerification, state: Normalized, now: int,
                      jti: string)
    requires PoliciesExist(db) && i < |db.intents| && !HasReceipt(db.receipts, i)
    requires row == db.intents[i].(fiberResponse := Some(v))
    requires state == PaidVerified <==> SaysPaid(v)
    requires state == ExpiredState <==> SaysExpired(v)
    requires state == FailedState <==> SaysFailed(v)
    ensures SettledBy(db, rt, i, row, db.policies[row.policy], v, now, jti,
              Settle(SetIntent(db, i, row), rt, i, state, SettledOr(Some(v), now), jti))
  {
    var noted := SetIntent(db, i, row);
    var at := SettledOr(Some(v), now);
    match state
    case PaidVerified =>
      IssueFailsIff(noted, rt, i, at, jti);
      if IssueReceipt(noted, rt, i, at, jti).IssueDone? {
        IssueLeaves(noted, rt, i, at, jti);
      }
    case ExpiredState => assert noted.events + [] == noted.events;
    case FailedState => assert noted.events + [] == noted.events;
    case _ => assert noted.events + [] == noted.events;
  }

  /** Every reconciliation of an intent, by what the intent is, what the clock shows and what the node says. An
      intent that does not exist is pending. One with a receipt is left alone. One without a payment can only run
      out. Otherwise the answer is noted, and a paid one gets its receipt, an expired or failed one ends the intent,
      any other changes nothing more; the transaction fails exactly when the node cannot be asked or the new identity
      is taken. */
  lemma ReconciliationLeaves(db: Db, rt: Runtime, i: nat, fiber: FiberReply, now: int, jti: string)
    requires Inv(db)
    ensures var done := Reconcile(db, rt, i, fiber, now, jti);
      if i >= |db.intents| then done == Reconciled(db, OutPending)
      else
        var row := db.intents[i];
        if row.status == ReceiptIssued then done == Reconciled(db, OutVerified)
        else if row.paymentRef.None? || row.paymentRef.value == "" then
          if row.expiresAt.Some? && row.expiresAt.value <= now && row.status != IntentExpired
          then Marked(db, i, row.(status := IntentExpired), [Event(IntentExpiredEvent, i, None)], done, OutExpired)
          else done == Reconciled(db, OutPending)
        else if fiber.FiberThrows? then done == ReconcileFailed
        else
          SettledBy(db, rt, i, row.(fiberResponse := Some(fiber.v)), db.policies[row.policy], fiber.v, now, jti, done)
  {
    if i < |db.intents| {
      assert LifecycleAt(db, i);
      var row := db.intents[i];
      assert FindReceiptOf(db.receipts, i).Some? <==> HasReceipt(db.receipts, i);
      if row.status != ReceiptIssued && Truthy(row.paymentRef) && fiber.Reply? {
        SettleLeaves(db, rt, i, row.(fiberResponse := Some(fiber.v)), fiber.v, now, jti);
      }
    }
  }
}
