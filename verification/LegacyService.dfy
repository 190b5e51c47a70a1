/** The legacy service as the object it is: four tables and the methods that change them in place. Each
    method is proved against the transaction it implements (src/services/fiber-latch-service.ts,
    src/repositories). */
module LegacyService {
  import opened Basics
  import opened FiberStatus
  import opened LegacyDb
  import opened LegacyLifecycle
  import opened RedemptionPolicy
  import opened LegacyRuns
  import opened LegacyRedemption
  import opened Reconciliation

  class FiberLatchService {
    var policies: seq<Policy>
    var intents: seq<Intent>
    var receipts: seq<Receipt>
    var events: seq<Event>
    const runtime: Runtime

    function Contents(): Db
      reads this
    {
      Db(policies, intents, receipts, events)
    }

    constructor (rt: Runtime)
      ensures Contents() == EMPTY_DB && runtime == rt
    {
      policies, intents, receipts, events := [], [], [], [];
      runtime := rt;
    }

    /** Undo everything a transaction wrote. */
    method Rollback(before: Db)
      modifies this
      ensures Contents() == before
    {
      policies, intents, receipts, events := before.policies, before.intents, before.receipts, before.events;
    }

    // ----- repositories -----

    method AppendEventLog(kind: EventType, intent: nat, receipt: Option<nat>)
      modifies this`events
      ensures Contents() == AppendEvent(old(Contents()), kind, intent, receipt)
    {
      events := events + [Event(kind, intent, receipt)];
    }

    method EnsureResourcePolicy(r: Resource) returns (policy: nat)
      modifies this`policies
      ensures Ensured(Contents(), policy) == EnsurePolicy(old(Contents()), r, runtime)
      ensures policy < |policies| && policies[policy].resource == r
      ensures if exists i :: 0 <= i < |old(policies)| && old(policies)[i].resource == r
              then policies == old(policies)
              else policies == old(policies) + [Policy(r, runtime.ttlSeconds, runtime.maxRedemptions)]
    {
      var k := FindPolicy(policies, r);
      if k.Some? {
        return k.value;
      }
      policy := |policies|;
      policies := policies + [Policy(r, runtime.ttlSeconds, runtime.maxRedemptions)];
    }

    /** False is a unique-constraint failure. */
    method CreateIntentRow(row: Intent) returns (stored: bool)
      modifies this`intents
      ensures stored <==> InsertIntent(old(Contents()), row).Some?
      ensures Contents() == if stored then InsertIntent(old(Contents()), row).value else old(Contents())
    {
      var k := 0;
      while k < |intents|
        invariant 0 <= k <= |intents|
        invariant intents == old(intents)
        invariant forall i | 0 <= i < k ::
          !((row.paymentRef.Some? && intents[i].paymentRef == row.paymentRef)
            || (row.idempotencyKey.Some? && intents[i].idempotencyKey == row.idempotencyKey))
      {
        if (row.paymentRef.Some? && intents[k].paymentRef == row.paymentRef)
           || (row.idempotencyKey.Some? && intents[k].idempotencyKey == row.idempotencyKey)
        {
          return false;
        }
        k := k + 1;
      }
      intents := intents + [row];
      stored := true;
    }

    method MarkAccessIntent(i: nat, status: IntentStatus)
      requires i < |intents|
      modifies this`intents
      ensures Contents() == MarkStatus(old(Contents()), i, status)
    {
      intents := intents[i := intents[i].(status := status)];
    }

    method MarkAccessIntentVerified(i: nat, at: int)
      requires i < |intents|
      modifies this`intents
      ensures Contents() == MarkIssued(old(Contents()), i, at)
    {
      intents := intents[i :=
        intents[i].(status := ReceiptIssued, verifiedAt := Some(at), receiptIssuedAt := Some(at))];
    }

    method UpdateFiberResponse(i: nat, v: FiberVerification)
      requires i < |intents|
      modifies this`intents
      ensures Contents() == SetIntent(old(Contents()), i, old(intents[i]).(fiberResponse := Some(v)))
    {
      intents := intents[i := intents[i].(fiberResponse := Some(v))];
    }

    method CreateReceiptRow(row: Receipt) returns (stored: bool)
      modifies this`receipts
      ensures stored <==> InsertReceipt(old(Contents()), row).Some?
      ensures Contents() == if stored then InsertReceipt(old(Contents()), row).value else old(Contents())
    {
      if FindReceiptOf(receipts, row.intent).Some? || FindByJti(receipts, row.jti).Some? {
        return false;
      }
      receipts := receipts + [row];
      stored := true;
    }

    method SetReceiptExpired(r: nat)
      requires r < |receipts|
      modifies this`receipts
      ensures Contents() == SetExpired(old(Contents()), r)
    {
      receipts := receipts[r := receipts[r].(status := Expired, active := false)];
    }

    /** The three database calls with nothing between them: read, conditional update, read back. */
    method RedeemAccessReceiptAtomically(r: nat, now: int) returns (updated: bool, receipt: Option<Receipt>)
      requires r < |receipts|
      modifies this`receipts
      ensures updated <==> old(receipts)[r].active && old(receipts)[r].status == Issued && old(receipts)[r].exp > now
      ensures Contents() == if updated
                            then SetReceipt(old(Contents()), r, UpdateWrites(old(receipts)[r], old(receipts)[r], now))
                            else old(Contents())
      ensures receipt == if updated then Some(receipts[r]) else None
    {
      var snapshot := receipts[r];
      if !UpdateMatches(receipts[r], snapshot, now) {
        return false, None;
      }
      receipts := receipts[r := UpdateWrites(receipts[r], snapshot, now)];
      return true, Some(receipts[r]);
    }

    // ----- transactions -----

    /** `issueReceiptForIntent`, inside a transaction; false is a thrown error. */
    method IssueReceiptForIntent(i: nat, issuedAt: int, jti: string)
      returns (ok: bool, receipt: nat, token: Option<LegacyClaims>)
      requires i < |intents| && intents[i].policy < |policies|
      modifies this
      ensures var spec := IssueReceipt(old(Contents()), runtime, i, issuedAt, jti);
              if ok then spec == IssueDone(Contents(), receipt, token) else spec == IssueFailed
      ensures ok && old(Inv(Contents())) ==> Inv(Contents())
    {
      IssueKeepsWholeInv(Contents(), runtime, i, issuedAt, jti);
      var existing := FindReceiptOf(receipts, i);
      if existing.Some? {
        if intents[i].status != ReceiptIssued {
          MarkAccessIntentVerified(i, receipts[existing.value].issuedAt);
        }
        return true, existing.value, None;
      }
      var intent := intents[i];
      var policy := policies[intent.policy];
      var stored := CreateReceiptRow(ReceiptFor(intent, i, policy, issuedAt, jti));
      if !stored {
        return false, 0, None;
      }
      receipt := |receipts| - 1;
      MarkAccessIntentVerified(i, issuedAt);
      AppendEventLog(IntentVerified, i, Some(receipt));
      AppendEventLog(ReceiptIssuedEvent, i, Some(receipt));
      ok, token := true, Some(ClaimsFor(runtime, intent, i, policy, issuedAt, jti));
    }

    /** The last part of `createAccessIntent`; false is a thrown error. */
    method ResolveIntent(i: nat, v: Option<FiberVerification>, later: int, jti: string)
      returns (ok: bool, token: Option<LegacyClaims>)
      requires i < |intents| && intents[i].policy < |policies|
      modifies this
      ensures var spec := Resolve(old(Contents()), runtime, i, v, later, jti);
              if ok then spec == Committed(Contents(), i, true, token) else spec == Aborted
    {
      var m := MappingOf(v);
      if m.state == ExpiredState {
        AppendEventLog(IntentExpiredEvent, i, None);
        MarkAccessIntent(i, IntentExpired);
        return true, None;
      }
      if m.state == FailedState {
        AppendEventLog(IntentRejected, i, None);
        MarkAccessIntent(i, Rejected);
        return true, None;
      }
      if v.None? || !m.shouldIssue || runtime.mode == Real {
        if m.state == PaidVerified && runtime.mode == Real {
          AppendEventLog(IntentVerified, i, None);
        }
        return true, None;
      }
      var issued, _, t := IssueReceiptForIntent(i, SettledOr(v, later), jti);
      return issued, t;
    }

    /** `createAccessIntent` from the insert on; false is a thrown error. */
    method InsertAndResolve(row: Intent, v: Option<FiberVerification>, later: int, jti: string)
      returns (ok: bool, intent: nat, token: Option<LegacyClaims>)
      requires row.policy < |policies|
      modifies this
      ensures var spec := StoreIntent(old(Contents()), row, runtime, v, later, jti);
              if ok then spec == Committed(Contents(), intent, true, token) else spec == Aborted
    {
      intent := |intents|;
      var stored := CreateIntentRow(row);
      if !stored {
        return false, intent, None;
      }
      AppendEventLog(IntentCreated, intent, None);
      var m := MappingOf(v);
      if v.None? || m.state == Waiting || m.state == PaymentPending {
        AppendEventLog(IntentPaymentPending, intent, None);
      }
      ok, token := ResolveIntent(intent, v, later, jti);
    }

    /** `createAccessIntent`; false is a thrown error, after which nothing has changed. */
    method CreateAccessIntent(input: CreateInput, fiber: FiberReply, now: int, later: int, jti: string)
      returns (ok: bool, intent: nat, created: bool, token: Option<LegacyClaims>)
      modifies this
      ensures var spec := CreateIntent(old(Contents()), input, runtime, fiber, now, later, jti);
              if ok then spec == Committed(Contents(), intent, created, token)
              else spec == Aborted && Contents() == old(Contents())
      ensures old(Inv(Contents())) && ValidRuntime(runtime) ==> Inv(Contents())
    {
      CreateKeepsWholeInv(Contents(), input, runtime, fiber, now, later, jti);
      var before := Contents();
      intent, created, token := 0, false, None;
      var key := Trimmed(input.idempotencyKey);
      if Truthy(key) {
        var existing := FindByKey(intents, key.value);
        if existing.Some? {
          return true, existing.value, false, None;
        }
      }
      var policy := EnsureResourcePolicy(input.resource);
      var v: Option<FiberVerification> := None;
      if Truthy(Trimmed(input.paymentRef)) {
        if fiber.FiberThrows? {
          Rollback(before);
          return false, intent, created, token;
        }
        v := Some(fiber.v);
      }
      ok, intent, token :=
        InsertAndResolve(NewIntent(input, runtime, policy, policies[policy], v, now, later), v, later, jti);
      if !ok {
        Rollback(before);
        return false, intent, created, token;
      }
      created := true;
    }

    /** `reconcileSingleAccessIntent`; false is a thrown error, after which nothing has changed. */
    method ReconcileSingleAccessIntent(i: nat, fiber: FiberReply, now: int, jti: string)
      returns (ok: bool, outcome: ReconcileOutcome)
      requires Inv(Contents())
      modifies this
      ensures var spec := Reconcile(old(Contents()), runtime, i, fiber, now, jti);
              if ok then spec == Reconciled(Contents(), outcome)
              else spec == ReconcileFailed && Contents() == old(Contents())
      ensures Inv(Contents())
    {
      ReconcileKeepsInv(Contents(), runtime, i, fiber, now, jti);
      var before := Contents();
      if i >= |intents| {
        return true, OutPending;
      }
      var intent := intents[i];
      if FindReceiptOf(receipts, i).Some? && intent.status == ReceiptIssued {
        return true, OutVerified;
      }
      if !Truthy(intent.paymentRef) {
        if intent.expiresAt.Some? && intent.expiresAt.value <= now && intent.status != IntentExpired {
          AppendEventLog(IntentExpiredEvent, i, None);
          MarkAccessIntent(i, IntentExpired);
          return true, OutExpired;
        }
        return true, OutPending;
      }
      if fiber.FiberThrows? {
        return false, OutPending;
      }
      UpdateFiberResponse(i, fiber.v);
      ok, outcome :=
        SettleIntent(i, MapRawStatus(RawStatusOf(fiber.v)).state, SettledOr(Some(fiber.v), now), jti);
      if !ok {
        Rollback(before);
      }
    }

    /** The last part of `reconcileSingleAccessIntent`; false is a thrown error. */
    method SettleIntent(i: nat, state: Normalized, issuedAt: int, jti: string)
      returns (ok: bool, outcome: ReconcileOutcome)
      requires i < |intents| && intents[i].policy < |policies|
      modifies this
      ensures var spec := Settle(old(Contents()), runtime, i, state, issuedAt, jti);
              if ok then spec == Reconciled(Contents(), outcome) else spec == ReconcileFailed
    {
      var status := intents[i].status;
      match state
      case PaidVerified =>
        var issued, _, _ := IssueReceiptForIntent(i, issuedAt, jti);
        return issued, OutVerified;
      case ExpiredState =>
        if status != IntentExpired {
          AppendEventLog(IntentExpiredEvent, i, None);
          MarkAccessIntent(i, IntentExpired);
        }
        return true, OutExpired;
      case FailedState =>
        if status != Rejected {
          AppendEventLog(IntentRejected, i, None);
          MarkAccessIntent(i, Rejected);
        }
        return true, OutRejected;
      case _ =>
        return true, OutPending;
    }

    /** `reconcileOpenAccessIntents`; false is a transaction's error, which ends the pass. */
    method ReconcileOpenAccessIntents(w: World) returns (ok: bool, summary: Summary)
      requires Inv(Contents())
      modifies this
      ensures Inv(Contents())
      ensures ReconcileOpen(old(Contents()), runtime, w)
           == if ok then PassDone(Contents(), summary) else PassFailed(Contents())
    {
      var candidates := List(Contents());
      summary := ZERO_SUMMARY;
      var k := 0;
      while k < |candidates|
        invariant 0 <= k <= |candidates|
        invariant Inv(Contents())
        invariant ReconcileOpen(old(Contents()), runtime, w)
               == Pass(Contents(), runtime, candidates[k..], w, summary)
      {
        var i := candidates[k];
        assert candidates[k..][0] == i && candidates[k..][1..] == candidates[k + 1..];
        var done, outcome := ReconcileSingleAccessIntent(i, w.fiber(i), w.clock(i), w.jti(i));
        if !done {
          return false, summary;
        }
        summary := Tally(summary, outcome);
        k := k + 1;
      }
      ok := true;
    }

    // ----- verification and redemption, with nothing interleaved -----

    /** `verifyAccessReceipt`; `now` is the clock read for the stored deadline. */
    method VerifyAccessReceipt(sig: Signature, now: int) returns (response: Stage)
      modifies this
      ensures var m := VerifyAlone(old(Contents()), sig, now);
              response == m.proc.stage && Contents() == m.db
      ensures old(Inv(Contents())) ==> Inv(Contents())
    {
      VerifyAloneKeepsInv(Contents(), sig, now);
      if sig.claims.None? {
        return Denied(sig.reason);
      }
      var found := FoundByJti(Contents(), sig);
      if found.None? {
        return Denied("RECEIPT_NOT_FOUND");
      }
      var receipt := receipts[found.value];
      if !receipt.active || receipt.status != Issued {
        return Denied("RECEIPT_NOT_ACTIVE");
      }
      if !ClaimsMatch(sig.claims.value, receipt) {
        return Denied("RECEIPT_CLAIMS_MISMATCH");
      }
      if IsExpired(receipt.exp, now) {
        SetReceiptExpired(found.value);
        return Denied("RECEIPT_EXPIRED");
      }
      AppendEventLog(ReceiptVerified, receipt.intent, found);
      response := Confirmed(found.value);
    }

    /** `redeemAccessReceipt`; `t1` is the clock sampled first and `t3` the one sampled for the update. */
    method RedeemAccessReceipt(sig: Signature, resource: Resource, subject: Subject, t1: int, t3: int)
      returns (response: Stage)
      requires Inv(Contents())
      modifies this
      ensures var m := Alone(old(Contents()), sig, resource, subject, t1, t3);
              response == m.proc.stage && Contents() == m.db
      ensures Inv(Contents())
    {
      AloneKeepsInv(Contents(), sig, resource, subject, t1, t3);
      var found := FoundByJti(Contents(), sig);
      var row := if found.None? then None else Some(receipts[found.value]);
      var denial := EvaluateDenial(sig, row, resource, subject, t1);
      ghost var before := Contents();
      ghost var x := Proc(Redeem(sig, resource, subject, t1), Started, None);
      ghost var m1 := AdvanceRedeem(before, x, t3).value;
      assert Alone(before, sig, resource, subject, t1, t3) == RunAlone(m1.db, m1.proc, t3);
      if denial.Some? {
        if denial.value.reason == "RECEIPT_EXPIRED" && found.Some? {
          SetReceiptExpired(found.value);
          AfterDenied(Contents(), x.(stage := Denied(denial.value.reason)), t3);
        } else {
          AfterDenied(before, m1.proc, t3);
        }
        return Denied(denial.value.reason);
      }
      AfterPassed(before, m1.proc, found.value, row.value, t3);
      assert RowOk(row.value);
      var updated, receipt := RedeemAccessReceiptAtomically(found.value, t3);
      if !updated {
        AfterPassedMissed(before, m1.proc, found.value, row.value, t3);
        return Denied("RECEIPT_NOT_ACTIVE");
      }
      GrantEventsWritten(Contents(), found.value, receipt.value);
      AppendEventLog(ReceiptRedeemed, receipt.value.intent, found);
      if receipt.value.status == Exhausted {
        AppendEventLog(RedemptionRejected, receipt.value.intent, found);
      }
      return Granted(found.value, receipt.value.count, receipt.value.maxRedemptions);
    }
  }

  lemma IssueKeepsWholeInv(db: Db, rt: Runtime, i: nat, issuedAt: int, jti: string)
    requires i < |db.intents| && db.intents[i].policy < |db.policies|
    ensures Inv(db) ==>
      var done := IssueReceipt(db, rt, i, issuedAt, jti); done.IssueDone? ==> Inv(done.db)
  {
    if Inv(db) {
      assert LifecycleAt(db, i);
      IssueKeepsInv(db, rt, i, issuedAt, jti);
    }
  }

  lemma CreateKeepsWholeInv(db: Db, input: CreateInput, rt: Runtime, fiber: FiberReply,
                            now: int, later: int, jti: string)
    ensures Inv(db) && ValidRuntime(rt) ==>
      var done := CreateIntent(db, input, rt, fiber, now, later, jti); done.Committed? ==> Inv(done.db)
  {
    if Inv(db) && ValidRuntime(rt) {
      CreateKeepsInv(db, input, rt, fiber, now, later, jti);
    }
  }
}
