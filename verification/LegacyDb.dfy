/** The legacy service's tables, repository operations and transactions, as functions on a database value
    (prisma/schema.prisma, src/repositories, src/services/fiber-latch-service.ts). Row identities are
    positions; they stand for the generated keys. */
module LegacyDb {
  import opened Basics
  import opened JsText
  import opened FiberStatus

  datatype ResourceType = CONTENT | FILE | API
  datatype SubjectType = END_USER | SERVICE_ACCOUNT
  datatype Resource = Resource(key: string, kind: ResourceType)
  datatype Subject = Subject(kind: SubjectType, id: string)

  datatype ReceiptStatus = Issued | Exhausted | Revoked | Expired

  datatype Policy = Policy(resource: Resource, ttlSeconds: int, maxRedemptions: int)

  datatype Intent = Intent(
    policy: nat, resource: Resource, subject: Subject,
    paymentRef: Option<string>, idempotencyKey: Option<string>, status: IntentStatus,
    verifiedAt: Option<int>, receiptIssuedAt: Option<int>, expiresAt: Option<int>,
    fiberResponse: Option<FiberVerification>)

  datatype Receipt = Receipt(
    policy: nat, intent: nat, jti: string, resource: Resource, subject: Subject,
    status: ReceiptStatus, active: bool, maxRedemptions: int, count: int,
    issuedAt: int, nbf: int, exp: int, redeemedAt: Option<int>, exhaustedAt: Option<int>)

  datatype EventType =
    | IntentCreated | IntentPaymentPending | IntentVerified | IntentRejected | IntentExpiredEvent
    | ReceiptIssuedEvent | ReceiptVerified | ReceiptRedeemed | RedemptionRejected

  datatype Event = Event(kind: EventType, intent: nat, receipt: Option<nat>)

  datatype Db = Db(policies: seq<Policy>, intents: seq<Intent>, receipts: seq<Receipt>, events: seq<Event>)

  const EMPTY_DB := Db([], [], [], [])

  // ----- the world outside -----

  /** What a Fiber node said about a payment; times are milliseconds. */
  datatype FiberVerification = FiberVerification(rawStatus: Option<string>, verified: bool, settledAt: Option<int>)

  datatype FiberReply = Reply(v: FiberVerification) | FiberThrows

  datatype Mode = Fake | Real

  datatype Runtime = Runtime(ttlSeconds: int, maxRedemptions: int, mode: Mode, issuer: string, audience: string)

  /** `loadRuntimeConfig` only yields positive integers here. */
  predicate ValidRuntime(r: Runtime) {
    r.ttlSeconds >= 1 && r.maxRedemptions >= 1
  }

  // ----- signed claims (src/domain/receipt-claims.ts) -----

  /** Claim times are whole seconds. */
  datatype LegacyClaims = LegacyClaims(
    iss: string, sub: string, aud: string, iat: int, nbf: int, exp: int, jti: string,
    intent: nat, resourceKey: string, policy: nat,
    paymentRef: Option<string>, grantType: string, maxRedemptions: int)

  /** `Math.floor(ms / 1000)`; Euclidean division by a positive divisor is floor division. */
  function Seconds(ms: int): int {
    ms / 1000
  }

  // ----- repositories -----

  function AppendEvent(db: Db, kind: EventType, intent: nat, receipt: Option<nat>): Db {
    db.(events := db.events + [Event(kind, intent, receipt)])
  }

  function FindPolicy(policies: seq<Policy>, r: Resource): (k: Option<nat>)
    ensures k.Some? ==> k.value < |policies| && policies[k.value].resource == r
    ensures k.None? ==> forall i | 0 <= i < |policies| :: policies[i].resource != r
  {
    if policies == [] then None
    else if policies[|policies| - 1].resource == r then Some(|policies| - 1)
    else FindPolicy(policies[..|policies| - 1], r)
  }

  function FindByKey(intents: seq<Intent>, key: string): (k: Option<nat>)
    ensures k.Some? ==> k.value < |intents| && intents[k.value].idempotencyKey == Some(key)
    ensures k.None? ==> forall i | 0 <= i < |intents| :: intents[i].idempotencyKey != Some(key)
  {
    if intents == [] then None
    else if intents[|intents| - 1].idempotencyKey == Some(key) then Some(|intents| - 1)
    else FindByKey(intents[..|intents| - 1], key)
  }

  function FindReceiptOf(receipts: seq<Receipt>, intent: nat): (k: Option<nat>)
    ensures k.Some? ==> k.value < |receipts| && receipts[k.value].intent == intent
    ensures k.None? ==> forall i | 0 <= i < |receipts| :: receipts[i].intent != intent
  {
    if receipts == [] then None
    else if receipts[|receipts| - 1].intent == intent then Some(|receipts| - 1)
    else FindReceiptOf(receipts[..|receipts| - 1], intent)
  }

  function FindByJti(receipts: seq<Receipt>, jti: string): (k: Option<nat>)
    ensures k.Some? ==> k.value < |receipts| && receipts[k.value].jti == jti
    ensures k.None? ==> forall i | 0 <= i < |receipts| :: receipts[i].jti != jti
  {
    if receipts == [] then None
    else if receipts[|receipts| - 1].jti == jti then Some(|receipts| - 1)
    else FindByJti(receipts[..|receipts| - 1], jti)
  }

  datatype Ensured = Ensured(db: Db, policy: nat)

  /** `ensureResourcePolicy`: find by (key, type) or create. */
  function EnsurePolicy(db: Db, r: Resource, rt: Runtime): Ensured {
    var k := FindPolicy(db.policies, r);
    if k.Some? then Ensured(db, k.value)
    else Ensured(db.(policies := db.policies + [Policy(r, rt.ttlSeconds, rt.maxRedemptions)]), |db.policies|)
  }

  /** `create` on intents; `None` is a unique-constraint failure. Nulls never clash. */
  function InsertIntent(db: Db, row: Intent): Option<Db> {
    if exists i :: 0 <= i < |db.intents| &&
         ((row.paymentRef.Some? && db.intents[i].paymentRef == row.paymentRef)
          || (row.idempotencyKey.Some? && db.intents[i].idempotencyKey == row.idempotencyKey))
    then None
    else Some(db.(intents := db.intents + [row]))
  }

  /** `create` on receipts; `None` is a clash on the intent or on the jti. */
  function InsertReceipt(db: Db, row: Receipt): Option<Db> {
    if FindReceiptOf(db.receipts, row.intent).Some? || FindByJti(db.receipts, row.jti).Some? then None
    else Some(db.(receipts := db.receipts + [row]))
  }

  function SetIntent(db: Db, i: nat, row: Intent): Db
    requires i < |db.intents|
  {
    db.(intents := db.intents[i := row])
  }

  /** `markAccessIntentVerified` with a receipt time. */
  function MarkIssued(db: Db, i: nat, at: int): Db
    requires i < |db.intents|
  {
    SetIntent(db, i, db.intents[i].(status := ReceiptIssued, verifiedAt := Some(at), receiptIssuedAt := Some(at)))
  }

  function MarkStatus(db: Db, i: nat, status: IntentStatus): Db
    requires i < |db.intents|
  {
    SetIntent(db, i, db.intents[i].(status := status))
  }

  // ----- issuing -----

  datatype IssueResult = IssueFailed | IssueDone(db: Db, receipt: nat, token: Option<LegacyClaims>)

  /** `buildAccessReceiptClaims` on what `issueReceiptForIntent` signs. */
  function ClaimsFor(rt: Runtime, i: Intent, intent: nat, p: Policy, issuedAt: int, jti: string): LegacyClaims {
    LegacyClaims(rt.issuer, i.subject.id, rt.audience, Seconds(issuedAt), Seconds(issuedAt),
      Seconds(issuedAt + p.ttlSeconds * 1000), jti, intent, p.resource.key, i.policy, i.paymentRef,
      if p.maxRedemptions == 1 then "single_redemption" else "multi_redemption", p.maxRedemptions)
  }

  function ReceiptFor(i: Intent, intent: nat, p: Policy, issuedAt: int, jti: string): Receipt {
    Receipt(i.policy, intent, jti, i.resource, i.subject, Issued, true, p.maxRedemptions, 0,
      issuedAt, issuedAt, issuedAt + p.ttlSeconds * 1000, None, None)
  }

  /** `issueReceiptForIntent`. The recovery branch after a failed insert re-reads the row that was just
      found missing in the same transaction, so it can only rethrow. */
  function IssueReceipt(db: Db, rt: Runtime, intent: nat, issuedAt: int, jti: string): IssueResult
    requires intent < |db.intents| && db.intents[intent].policy < |db.policies|
  {
    var i := db.intents[intent];
    var p := db.policies[i.policy];
    var existing := FindReceiptOf(db.receipts, intent);
    if existing.Some? then
      var at := db.receipts[existing.value].issuedAt;
      IssueDone(if i.status != ReceiptIssued then MarkIssued(db, intent, at) else db, existing.value, None)
    else
      var inserted := InsertReceipt(db, ReceiptFor(i, intent, p, issuedAt, jti));
      if inserted.None? then IssueFailed
      else
        var r := |db.receipts|;
        var marked := MarkIssued(inserted.value, intent, issuedAt);
        IssueDone(
          AppendEvent(AppendEvent(marked, IntentVerified, intent, Some(r)), ReceiptIssuedEvent, intent, Some(r)),
          r, Some(ClaimsFor(rt, i, intent, p, issuedAt, jti)))
  }

  // ----- creating -----

  datatype CreateInput = CreateInput(
    resource: Resource, subject: Subject, paymentRef: Option<string>, idempotencyKey: Option<string>)

  /** `Aborted` is a thrown error: the transaction rolls back. */
  datatype CreateResult = Aborted | Committed(db: Db, intent: nat, created: bool, token: Option<LegacyClaims>)

  function Trimmed(s: Option<string>): Option<string> {
    if s.None? then None else Some(Trim(s.value))
  }

  /** JavaScript truthiness of an optional string: absent and empty are false. */
  predicate Truthy(s: Option<string>) {
    s.Some? && s.value != ""
  }

  function RawStatusOf(v: FiberVerification): Option<string> {
    if v.rawStatus.Some? then v.rawStatus else if v.verified then Some("paid") else None
  }

  /** The intent row as first written. `now` and `later` are the two clock readings, in milliseconds. */
  function NewIntent(input: CreateInput, rt: Runtime, policy: nat, p: Policy,
                     v: Option<FiberVerification>, now: int, later: int): Intent {
    var m := MappingOf(v);
    var issuedAt := SettledOr(v, later);
    var immediately := rt.mode == Fake && m.shouldIssue;
    Intent(policy, input.resource, input.subject, Trimmed(input.paymentRef), Trimmed(input.idempotencyKey),
      if immediately then ReceiptIssued else m.intentStatus,
      if m.shouldIssue || m.intentStatus != Pending then Some(issuedAt) else None,
      if immediately then Some(issuedAt) else None,
      Some(now + p.ttlSeconds * 1000),
      v)
  }

  function SettledOr(v: Option<FiberVerification>, otherwise: int): int {
    if v.Some? && v.value.settledAt.Some? then v.value.settledAt.value else otherwise
  }

  /** An intent whose payment is not settled either way gets an ACCESS_INTENT_PAYMENT_PENDING event. */
  function NotePending(db: Db, intent: nat, v: Option<FiberVerification>): Db {
    var m := MappingOf(v);
    if v.None? || m.state == Waiting || m.state == PaymentPending
    then AppendEvent(db, IntentPaymentPending, intent, None) else db
  }

  function MappingOf(v: Option<FiberVerification>): Mapping {
    MapRawStatus(if v.None? then None else RawStatusOf(v.value))
  }

  /** The last part of `createAccessIntent`: expire, reject, leave for the worker, or issue at once. */
  function Resolve(db: Db, rt: Runtime, intent: nat, v: Option<FiberVerification>, later: int, jti: string)
    : CreateResult
    requires intent < |db.intents| && db.intents[intent].policy < |db.policies|
  {
    var m := MappingOf(v);
    if m.state == ExpiredState then
      Committed(MarkStatus(AppendEvent(db, IntentExpiredEvent, intent, None), intent, IntentExpired),
        intent, true, None)
    else if m.state == FailedState then
      Committed(MarkStatus(AppendEvent(db, IntentRejected, intent, None), intent, Rejected), intent, true, None)
    else if v.None? || !m.shouldIssue || rt.mode == Real then
      Committed(if m.state == PaidVerified && rt.mode == Real
                then AppendEvent(db, IntentVerified, intent, None) else db, intent, true, None)
    else
      match IssueReceipt(db, rt, intent, SettledOr(v, later), jti)
      case IssueFailed => Aborted
      case IssueDone(issued, _, token) => Committed(issued, intent, true, token)
  }

  /** `createAccessIntent`. */
  function CreateIntent(db: Db, input: CreateInput, rt: Runtime, fiber: FiberReply,
                        now: int, later: int, jti: string): CreateResult {
    var key := Trimmed(input.idempotencyKey);
    if Truthy(key) && FindByKey(db.intents, key.value).Some? then
      Committed(db, FindByKey(db.intents, key.value).value, false, None)
    else
      var ensured := EnsurePolicy(db, input.resource, rt);
      var asks := Truthy(Trimmed(input.paymentRef));
      if asks && fiber.FiberThrows? then Aborted
      else
        var v := if asks then Some(fiber.v) else None;
        var row := NewIntent(input, rt, ensured.policy, ensured.db.policies[ensured.policy], v, now, later);
        StoreIntent(ensured.db, row, rt, v, later, jti)
  }

  /** `createAccessIntent` from the insert on. */
  function StoreIntent(db: Db, row: Intent, rt: Runtime, v: Option<FiberVerification>, later: int, jti: string)
    : CreateResult
    requires row.policy < |db.policies|
  {
    var inserted := InsertIntent(db, row);
    if inserted.None? then Aborted
    else
      var i := |db.intents|;
      Resolve(NotePending(AppendEvent(inserted.value, IntentCreated, i, None), i, v), rt, i, v, later, jti)
  }

  // ----- reconciling -----

  datatype ReconcileOutcome = OutPending | OutVerified | OutRejected | OutExpired

  datatype ReconcileResult = ReconcileFailed | Reconciled(db: Db, outcome: ReconcileOutcome)

  /** The policy references of the schema are enforced, so every intent's policy exists. */
  predicate PoliciesExist(db: Db) {
    forall i | 0 <= i < |db.intents| :: db.intents[i].policy < |db.policies|
  }

  /** `reconcileSingleAccessIntent`. */
  function Reconcile(db: Db, rt: Runtime, intent: nat, fiber: FiberReply, now: int, jti: string): ReconcileResult
    requires PoliciesExist(db)
  {
    if intent >= |db.intents| then Reconciled(db, OutPending)
    else
      var i := db.intents[intent];
      if FindReceiptOf(db.receipts, intent).Some? && i.status == ReceiptIssued then Reconciled(db, OutVerified)
      else if !Truthy(i.paymentRef) then
        if i.expiresAt.Some? && i.expiresAt.value <= now && i.status != IntentExpired then
          Reconciled(MarkStatus(AppendEvent(db, IntentExpiredEvent, intent, None), intent, IntentExpired), OutExpired)
        else Reconciled(db, OutPending)
      else if fiber.FiberThrows? then ReconcileFailed
      else
        Settle(SetIntent(db, intent, i.(fiberResponse := Some(fiber.v))), rt, intent,
          MapRawStatus(RawStatusOf(fiber.v)).state, SettledOr(Some(fiber.v), now), jti)
  }

  /** The last part of `reconcileSingleAccessIntent`, once the Fiber response is noted. */
  function Settle(db: Db, rt: Runtime, intent: nat, state: Normalized, issuedAt: int, jti: string): ReconcileResult
    requires intent < |db.intents| && db.intents[intent].policy < |db.policies|
  {
    var status := db.intents[intent].status;
    match state
    case PaidVerified =>
      (match IssueReceipt(db, rt, intent, issuedAt, jti)
       case IssueFailed => ReconcileFailed
       case IssueDone(issued, _, _) => Reconciled(issued, OutVerified))
    case ExpiredState =>
      Reconciled(if status != IntentExpired
                 then MarkStatus(AppendEvent(db, IntentExpiredEvent, intent, None), intent, IntentExpired)
                 else db, OutExpired)
    case FailedState =>
      Reconciled(if status != Rejected
                 then MarkStatus(AppendEvent(db, IntentRejected, intent, None), intent, Rejected)
                 else db, OutRejected)
    case _ => Reconciled(db, OutPending)
  }

  // ----- redeeming -----

  /** The row test of the conditional update in `redeemAccessReceiptAtomically`. */
  predicate UpdateMatches(row: Receipt, snapshot: Receipt, now: int) {
    row.active && row.status == Issued && row.count == snapshot.count && row.exp > now
  }

  /** What that update writes; exhaustion is computed from the snapshot, the count is incremented in place. */
  function UpdateWrites(row: Receipt, snapshot: Receipt, now: int): Receipt {
    var exhausted := snapshot.count + 1 >= snapshot.maxRedemptions;
    row.(count := row.count + 1, active := !exhausted, status := if exhausted then Exhausted else Issued,
         redeemedAt := Some(now), exhaustedAt := if exhausted then Some(now) else None)
  }

  function SetReceipt(db: Db, r: nat, row: Receipt): Db
    requires r < |db.receipts|
  {
    db.(receipts := db.receipts[r := row])
  }

  /** `setReceiptExpired`: unconditional. */
  function SetExpired(db: Db, r: nat): Db
    requires r < |db.receipts|
  {
    SetReceipt(db, r, db.receipts[r].(status := Expired, active := false))
  }

  // ----- lifecycle invariant -----

  predicate HasReceipt(receipts: seq<Receipt>, intent: nat) {
    exists r :: 0 <= r < |receipts| && receipts[r].intent == intent
  }

  function CountEvents(events: seq<Event>, kind: EventType, intent: nat): nat {
    if events == [] then 0
    else
      CountEvents(events[..|events| - 1], kind, intent)
      + if events[|events| - 1].kind == kind && events[|events| - 1].intent == intent then 1 else 0
  }

  /** The state of one receipt row: active exactly while ISSUED, ISSUED below the limit, EXHAUSTED at it. */
  predicate RowOk(r: Receipt) {
    && 1 <= r.maxRedemptions && 0 <= r.count <= r.maxRedemptions
    && r.status != Revoked
    && (r.active <==> r.status == Issued)
    && (r.status == Issued ==> r.count < r.maxRedemptions)
    && (r.status == Exhausted ==> r.count == r.maxRedemptions)
  }

  predicate PoliciesOk(policies: seq<Policy>) {
    && (forall i | 0 <= i < |policies| :: policies[i].ttlSeconds >= 1 && policies[i].maxRedemptions >= 1)
    && (forall i, j | 0 <= i < |policies| && 0 <= j < |policies| && i != j ::
          policies[i].resource != policies[j].resource)
  }

  predicate IntentsOk(db: Db) {
    && PoliciesExist(db)
    && (forall i | 0 <= i < |db.intents| :: db.policies[db.intents[i].policy].resource == db.intents[i].resource)
    && (forall i, j | 0 <= i < |db.intents| && 0 <= j < |db.intents| && i != j && db.intents[i].paymentRef.Some? ::
          db.intents[i].paymentRef != db.intents[j].paymentRef)
    && (forall i, j | 0 <= i < |db.intents| && 0 <= j < |db.intents| && i != j && db.intents[i].idempotencyKey.Some? ::
          db.intents[i].idempotencyKey != db.intents[j].idempotencyKey)
  }

  /** A receipt copies its intent and carries its policy's terms. */
  predicate Copies(r: Receipt, i: Intent, p: Policy) {
    && r.policy == i.policy && r.resource == i.resource && r.subject == i.subject
    && r.maxRedemptions == p.maxRedemptions
    && r.nbf == r.issuedAt && r.exp == r.issuedAt + p.ttlSeconds * 1000
  }

  predicate ReceiptsOk(db: Db)
    requires PoliciesExist(db)
  {
    && (forall r | 0 <= r < |db.receipts| ::
          && db.receipts[r].intent < |db.intents| && RowOk(db.receipts[r])
          && Copies(db.receipts[r], db.intents[db.receipts[r].intent],
                    db.policies[db.intents[db.receipts[r].intent].policy]))
    && (forall r, s | 0 <= r < |db.receipts| && 0 <= s < |db.receipts| && r != s ::
          db.receipts[r].intent != db.receipts[s].intent && db.receipts[r].jti != db.receipts[s].jti)
  }

  /** Status, receipt and ACCESS_RECEIPT_ISSUED events agree. */
  predicate LifecycleAt(db: Db, i: nat)
    requires i < |db.intents|
  {
    && (HasReceipt(db.receipts, i) <==> db.intents[i].status == ReceiptIssued)
    && CountEvents(db.events, ReceiptIssuedEvent, i) == if HasReceipt(db.receipts, i) then 1 else 0
  }

  /** No event speaks of an intent that does not exist. */
  predicate EventsOk(db: Db) {
    forall k | 0 <= k < |db.events| :: db.events[k].intent < |db.intents|
  }

  predicate CoreOk(db: Db) {
    PoliciesOk(db.policies) && IntentsOk(db) && ReceiptsOk(db) && EventsOk(db)
  }

  predicate Inv(db: Db) {
    CoreOk(db) && forall i | 0 <= i < |db.intents| :: LifecycleAt(db, i)
  }
}
