/** The boundary between redemption and a receipt store
    (packages/access/src/access-receipt-store.ts). */
module StoreContract {
  import opened Basics
  import opened ReceiptClaims

  datatype Command = Command(
    jti: string, iss: string, sub: string, aud: string,
    intentId: string, resourceId: string, policyId: string,
    grantType: string, maxRedemptions: int, exp: int,
    currentTime: int, expectedMax: Option<int>)

  datatype ConsumeResult =
    | Consumed(exhausted: bool)
    | ReceiptMissing
    | ReceiptRevoked
    | ReceiptExhausted
    | ReceiptExpired
    | AuthorityMismatch
    | ConcurrencyConflict
    | SystemFailure

  /** `validCommand` of the PostgreSQL store (packages/postgres-store/src/index.ts:51-62). */
  predicate ValidCommand(c: Command) {
    && c.jti != "" && c.iss != "" && c.sub != "" && c.aud != ""
    && c.intentId != "" && c.resourceId != "" && c.policyId != ""
    && SafeInteger(c.maxRedemptions) && c.maxRedemptions > 0
    && SafeInteger(c.exp)
    && SafeInteger(c.currentTime) && c.currentTime >= 0
    && (c.expectedMax.Some? ==> SafeInteger(c.expectedMax.value) && c.expectedMax.value > 0)
    && GrantAgrees(c.grantType, c.maxRedemptions)
  }

  /** The outcome strings of the contract; `consumed` is the one that also carries a flag. */
  function Denial(outcome: string): (r: Option<ConsumeResult>)
    ensures r.Some? ==> !r.value.Consumed? && !r.value.SystemFailure?
  {
    match outcome
    case "receipt_missing" => Some(ReceiptMissing)
    case "authority_mismatch" => Some(AuthorityMismatch)
    case "receipt_revoked" => Some(ReceiptRevoked)
    case "receipt_expired" => Some(ReceiptExpired)
    case "receipt_exhausted" => Some(ReceiptExhausted)
    case "concurrency_conflict" => Some(ConcurrencyConflict)
    case _ => None
  }

  /** The JavaScript object a store answers with. */
  function AnswerRecord(r: ConsumeResult): JsRecord {
    match r
    case Consumed(exhausted) => map["outcome" := Text("consumed"), "exhausted" := Bool(exhausted)]
    case ReceiptMissing => map["outcome" := Text("receipt_missing")]
    case AuthorityMismatch => map["outcome" := Text("authority_mismatch")]
    case ReceiptRevoked => map["outcome" := Text("receipt_revoked")]
    case ReceiptExpired => map["outcome" := Text("receipt_expired")]
    case ReceiptExhausted => map["outcome" := Text("receipt_exhausted")]
    case ConcurrencyConflict => map["outcome" := Text("concurrency_conflict")]
    case SystemFailure => map["outcome" := Text("system_failure")]
  }
}
