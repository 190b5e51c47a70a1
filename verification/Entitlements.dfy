/** What consuming a receipt means, with no SQL in sight: look the receipt up, decide, count one use. */
module Entitlements {
  import opened Basics
  import opened ReceiptClaims
  import opened StoreContract

  /** The authoritative state of one receipt. */
  datatype Entry = Entry(
    iss: string, sub: string, aud: string,
    intentId: string, resourceId: string, policyId: string,
    grantType: string, maxRedemptions: int, count: int,
    iat: int, nbf: int, exp: int,
    paymentRef: Option<string>, revoked: bool)

  type Ledger = map<string, Entry>

  /** The row constraints of packages/postgres-store/sql/001_access_receipts.sql. */
  predicate ValidEntry(e: Entry) {
    && e.iss != "" && e.sub != "" && e.aud != ""
    && e.intentId != "" && e.resourceId != "" && e.policyId != ""
    && 1 <= e.maxRedemptions <= MAX_SAFE_INTEGER
    && SafeInteger(e.iat) && SafeInteger(e.nbf) && SafeInteger(e.exp)
    && 0 <= e.count <= e.maxRedemptions
    && e.iat <= e.nbf < e.exp
    && GrantAgrees(e.grantType, e.maxRedemptions)
  }

  predicate ValidLedger(m: Ledger) {
    forall k <- m :: k != "" && ValidEntry(m[k])
  }

  predicate SameAuthority(e: Entry, c: Command) {
    && e.iss == c.iss && e.sub == c.sub && e.aud == c.aud
    && e.intentId == c.intentId && e.resourceId == c.resourceId && e.policyId == c.policyId
    && e.grantType == c.grantType && e.maxRedemptions == c.maxRedemptions && e.exp == c.exp
    && (c.expectedMax.Some? ==> e.maxRedemptions == c.expectedMax.value)
  }

  /** The verdict on a stored receipt. `t0` and `t1` are the two database clock readings, in seconds. */
  function Judge(e: Entry, c: Command, t0: int, t1: int): ConsumeResult {
    if !SameAuthority(e, c) then AuthorityMismatch
    else if e.revoked then ReceiptRevoked
    else if e.exp <= c.currentTime || e.exp <= t0 then ReceiptExpired
    else if e.nbf > c.currentTime || e.nbf > t1 then AuthorityMismatch
    else if e.count >= e.maxRedemptions then ReceiptExhausted
    else Consumed(e.count + 1 == e.maxRedemptions)
  }

  function Use(e: Entry): Entry {
    e.(count := e.count + 1)
  }

  datatype Outcome = Outcome(result: ConsumeResult, ledger: Ledger)

  function Consume(m: Ledger, c: Command, t0: int, t1: int): Outcome {
    if c.jti !in m then Outcome(ReceiptMissing, m)
    else
      var r := Judge(m[c.jti], c, t0, t1);
      Outcome(r, if r.Consumed? then m[c.jti := Use(m[c.jti])] else m)
  }

  /** A use is admitted exactly when the stored receipt has the command's authority, is not revoked, has
      uses left, and both the host's time and the database's lie inside its half-open validity window.
      Nothing else changes, and the flag marks exactly the use that fills the last slot. */
  lemma AdmissionIff(m: Ledger, c: Command, t0: int, t1: int)
    requires ValidLedger(m)
    ensures var o := Consume(m, c, t0, t1);
      && (o.result.Consumed? <==>
            && c.jti in m && SameAuthority(m[c.jti], c) && !m[c.jti].revoked
            && m[c.jti].nbf <= c.currentTime < m[c.jti].exp
            && m[c.jti].nbf <= t1 && t0 < m[c.jti].exp
            && m[c.jti].count < m[c.jti].maxRedemptions)
      && ValidLedger(o.ledger)
      && o.ledger.Keys == m.Keys
      && (forall k <- m :: o.ledger[k] ==
            m[k].(count := m[k].count + if k == c.jti && o.result.Consumed? then 1 else 0))
      && (o.result.Consumed? ==>
            (o.result.exhausted <==> o.ledger[c.jti].count == o.ledger[c.jti].maxRedemptions))
  {
    if c.jti in m && Judge(m[c.jti], c, t0, t1).Consumed? {
      var m' := m[c.jti := Use(m[c.jti])];
      forall k <- m'
        ensures k != "" && ValidEntry(m'[k])
      {
        if k != c.jti {
          assert m'[k] == m[k];
        }
      }
    }
  }
}
