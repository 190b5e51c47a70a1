/** A redemption that nothing interleaves with, honest tokens, and the arithmetic of their deadlines
    (src/services/fiber-latch-service.ts:515-621, 786-922, src/domain/receipt-claims.ts:33-49,
    src/integrations/receipts/jwt-access-receipt-signer.ts:67-99). */
module LegacyRedemption {
  import opened Basics
  import opened FiberStatus
  import opened LegacyDb
  import opened LegacyLifecycle
  import opened RedemptionPolicy
  import opened LegacyRuns
  import opened LegacyEffects

  // ----- a request on its own -----

  function Rank(s: Stage): nat {
    match s
    case Started => 6
    case Passed(_, _) => 5
    case Snapped(_, _) => 4
    case MustExpire(_, _, _) => 3
    case Won(_) => 3
    case Missed(_) => 3
    case Logging(_, _, _) => 2
    case _ => 1
  }

  function PendingEvents(s: Stage): nat {
    if s.Logging? then |s.pending| else 0
  }

  /** Every database call of one redemption in a row; `now` is the clock read for the update. */
  function RunAlone(db: Db, x: Proc, now: int): Moved
    requires x.request.Redeem?
    decreases Rank(x.stage), PendingEvents(x.stage)
  {
    var m := AdvanceRedeem(db, x, now);
    if m.None? then Moved(db, x) else RunAlone(m.value.db, m.value.proc, now)
  }

  /** Running alone is running: the same calls are a run of the whole system. */
  lemma {:induction false} RunAloneIsARun(s: State, p: nat, now: int) returns (steps: seq<Step>)
    requires p < |s.procs| && s.procs[p].request.Redeem?
    ensures var m := RunAlone(s.db, s.procs[p], now);
            Run(s, steps) == Some(State(m.db, s.procs[p := m.proc]))
    decreases Rank(s.procs[p].stage), PendingEvents(s.procs[p].stage)
  {
    var m := AdvanceRedeem(s.db, s.procs[p], now);
    if m.None? {
      steps := [];
      assert s.procs[p := s.procs[p]] == s.procs;
    } else {
      var s1 := State(m.value.db, s.procs[p := m.value.proc]);
      assert Next(s, Advance(p, now)) == Some(s1);
      var rest := RunAloneIsARun(s1, p, now);
      steps := [Advance(p, now)] + rest;
      assert steps[1..] == rest;
      var end := RunAlone(s1.db, s1.procs[p], now);
      assert s1.procs[p := end.proc] == s.procs[p := end.proc];
    }
  }

  /** A request may arrive at any time, and be served alone. */
  lemma {:induction false} ArrivesAndRuns(s: State, q: Request, now: int) returns (steps: seq<Step>)
    requires q.Redeem?
    ensures var m := RunAlone(s.db, Proc(q, Started, None), now);
            Run(s, [Arrive(q)] + steps) == Some(State(m.db, s.procs + [m.proc]))
  {
    var x := Proc(q, Started, None);
    var arrived := s.(procs := s.procs + [x]);
    steps := RunAloneIsARun(arrived, |s.procs|, now);
    assert Next(s, Arrive(q)) == Some(arrived);
    assert ([Arrive(q)] + steps)[1..] == steps;
    var m := RunAlone(s.db, x, now);
    assert arrived.procs[|s.procs| := m.proc] == s.procs + [m.proc];
  }

  /** A redemption with nobody in the way, and how it ended. */
  function Alone(db: Db, sig: Signature, resource: Resource, subject: Subject, t1: int, t3: int): Moved {
    RunAlone(db, Proc(Redeem(sig, resource, subject, t1), Started, None), t3)
  }

  /** What must be true of the stored receipt `r` for the request to be granted. */
  predicate Redeemable(db: Db, r: nat, sig: Signature, resource: Resource, subject: Subject, t1: int, t3: int) {
    && r < |db.receipts| && sig.claims.Some? && db.receipts[r].jti == sig.claims.value.jti
    && ClaimsMatch(sig.claims.value, db.receipts[r])
    && resource == db.receipts[r].resource && subject == db.receipts[r].subject
    && t1 < db.receipts[r].exp && t3 < db.receipts[r].exp
    && db.receipts[r].status == Issued
  }

  lemma JtiFindsTheRow(db: Db, r: nat)
    requires Inv(db) && r < |db.receipts|
    ensures FindByJti(db.receipts, db.receipts[r].jti) == Some(r)
  {
  }

  /** The events written after a winning update. */
  function LogEvents(db: Db, id: nat, intent: nat, pending: seq<EventType>): Db
    decreases |pending|
  {
    if pending == [] then db
    else LogEvents(AppendEvent(db, pending[0], intent, Some(id)), id, intent, pending[1..])
  }

  function GrantEvents(seen: Receipt): seq<EventType> {
    [ReceiptRedeemed] + if seen.status == Exhausted then [RedemptionRejected] else []
  }

  lemma GrantEventsWritten(db: Db, id: nat, seen: Receipt)
    ensures var redeemed := AppendEvent(db, ReceiptRedeemed, seen.intent, Some(id));
            LogEvents(db, id, seen.intent, GrantEvents(seen))
            == if seen.status == Exhausted then AppendEvent(redeemed, RedemptionRejected, seen.intent, Some(id))
               else redeemed
  {
    var redeemed := AppendEvent(db, ReceiptRedeemed, seen.intent, Some(id));
    if seen.status == Exhausted {
      var rejected := AppendEvent(redeemed, RedemptionRejected, seen.intent, Some(id));
      assert GrantEvents(seen)[1..] == [RedemptionRejected];
      assert [RedemptionRejected][1..] == [];
      assert LogEvents(rejected, id, seen.intent, []) == rejected;
    } else {
      assert GrantEvents(seen)[1..] == [];
    }
  }

  lemma AfterWin(db: Db, x: Proc, id: nat, now: int)
    requires x.request.Redeem? && x.stage == Won(id) && id < |db.receipts|
    ensures var m := RunAlone(db, x, now);
            var seen := db.receipts[id];
            && m.db == LogEvents(db, id, seen.intent, GrantEvents(seen)) && m.db.receipts == db.receipts
            && m.proc.stage == Granted(id, seen.count, seen.maxRedemptions)
  {
    var seen := db.receipts[id];
    var m := AdvanceRedeem(db, x, now).value;
    AfterLogging(m.db, m.proc, id, seen, now);
  }

  lemma {:induction false} AfterLogging(db: Db, x: Proc, id: nat, seen: Receipt, now: int)
    requires x.request.Redeem? && x.stage.Logging? && x.stage.id == id && x.stage.seen == seen
    ensures var m := RunAlone(db, x, now);
            && m.db == LogEvents(db, id, seen.intent, x.stage.pending) && m.db.receipts == db.receipts
            && m.proc.stage == Granted(id, seen.count, seen.maxRedemptions)
    decreases |x.stage.pending|
  {
    if x.stage.pending != [] {
      var m := AdvanceRedeem(db, x, now).value;
      AfterLogging(m.db, m.proc, id, seen, now);
    } else {
      var m := AdvanceRedeem(db, x, now).value;
      assert AdvanceRedeem(m.db, m.proc, now) == None;
    }
  }

  lemma AfterDenied(db: Db, x: Proc, now: int)
    requires x.request.Redeem? && x.stage.Denied?
    ensures RunAlone(db, x, now) == Moved(db, x)
  {
  }

  lemma AfterMissed(db: Db, x: Proc, now: int)
    requires x.request.Redeem? && x.stage.Missed?
    ensures RunAlone(db, x, now) == Moved(db, x.(stage := Denied("RECEIPT_NOT_ACTIVE")))
  {
    AfterDenied(db, x.(stage := Denied("RECEIPT_NOT_ACTIVE")), now);
  }

  /** A request whose pre-atomic check passed is granted exactly when the row still takes it; then one use is
      counted on that row and nothing else changes, otherwise nothing at all changes. */
  lemma AfterPassed(db: Db, x: Proc, id: nat, row: Receipt, now: int)
    requires Inv(db) && x.request.Redeem? && x.stage == Passed(id, row) && id < |db.receipts| && row == db.receipts[id]
    ensures var m := RunAlone(db, x, now);
      if row.status == Issued && now < row.exp then
        var row1 := UpdateWrites(row, row, now);
        && m.proc.stage == Granted(id, row.count + 1, row.maxRedemptions)
        && m.db == LogEvents(SetReceipt(db, id, row1), id, row.intent, GrantEvents(row1))
        && m.db.receipts == db.receipts[id := row1]
      else m.proc.stage.Denied? && m.db == db
  {
    assert RowOk(row);
    var x1 := AdvanceRedeem(db, x, now).value.proc;
    assert x1.stage == Snapped(id, row);
    var m2 := AdvanceRedeem(db, x1, now).value;
    assert RunAlone(db, x, now) == RunAlone(m2.db, m2.proc, now);
    if UpdateMatches(row, row, now) {
      AfterWin(m2.db, m2.proc, id, now);
    } else {
      AfterMissed(m2.db, m2.proc, now);
    }
  }

  /** Alone, a redemption is granted exactly when some stored receipt has the token's identity, agrees with its
      claims and with the request, is ISSUED and is unexpired at both clock readings. Granted, it moves that
      receipt's count by exactly one and reports the new count; denied, no count moves. */
  lemma AloneGrantedIff(db: Db, sig: Signature, resource: Resource, subject: Subject, t1: int, t3: int)
    requires Inv(db)
    ensures var m := Alone(db, sig, resource, subject, t1, t3);
      && (m.proc.stage.Granted? <==> exists r: nat :: Redeemable(db, r, sig, resource, subject, t1, t3))
      && (m.proc.stage.Granted? ==>
            var r := m.proc.stage.id;
            && Redeemable(db, r, sig, resource, subject, t1, t3)
            && m.proc.stage.count == db.receipts[r].count + 1
            && m.proc.stage.max == db.receipts[r].maxRedemptions
            && m.db.receipts == db.receipts[r := UpdateWrites(db.receipts[r], db.receipts[r], t3)])
      && (!m.proc.stage.Granted? ==>
            && m.proc.stage.Denied? && |m.db.receipts| == |db.receipts|
            && forall k | 0 <= k < |db.receipts| :: m.db.receipts[k].count == db.receipts[k].count)
  {
    var x := Proc(Redeem(sig, resource, subject, t1), Started, None);
    var found := FoundByJti(db, sig);
    var row := if found.None? then None else Some(db.receipts[found.value]);
    PassesIff(sig, row, resource, subject, t1);
    forall r: nat | Redeemable(db, r, sig, resource, subject, t1, t3)
      ensures found == Some(r)
    {
      JtiFindsTheRow(db, r);
    }
    var denial := EvaluateDenial(sig, row, resource, subject, t1);
    var m1 := AdvanceRedeem(db, x, t3).value;
    assert RunAlone(db, x, t3) == RunAlone(m1.db, m1.proc, t3);
    if denial.None? {
      AfterPassed(db, m1.proc, found.value, row.value, t3);
      if row.value.status == Issued && t3 < row.value.exp {
        assert Redeemable(db, found.value, sig, resource, subject, t1, t3);
      }
    } else if m1.proc.stage.MustExpire? {
      var m2 := AdvanceRedeem(m1.db, m1.proc, t3).value;
      AfterDenied(m2.db, m2.proc, t3);
    } else {
      AfterDenied(m1.db, m1.proc, t3);
    }
  }

  /** The same for a token of receipt `r`: no other receipt can be the one granted. */
  lemma AloneGrantedFor(db: Db, r: nat, sig: Signature, resource: Resource, subject: Subject, t1: int, t3: int)
    requires Inv(db) && r < |db.receipts|
    requires sig.claims.Some? ==> sig.claims.value.jti == db.receipts[r].jti
    ensures var row := db.receipts[r];
            var m := Alone(db, sig, resource, subject, t1, t3);
      && (m.proc.stage.Granted? <==> Redeemable(db, r, sig, resource, subject, t1, t3))
      && (m.proc.stage.Granted? ==>
            && m.proc.stage == Granted(r, row.count + 1, row.maxRedemptions)
            && m.db.receipts == db.receipts[r := UpdateWrites(row, row, t3)])
  {
    AloneGrantedIff(db, sig, resource, subject, t1, t3);
    forall k: nat | Redeemable(db, k, sig, resource, subject, t1, t3)
      ensures k == r
    {
      JtiFindsTheRow(db, k);
      JtiFindsTheRow(db, r);
    }
  }

  lemma {:induction false} LoggingKeepsInv(db: Db, id: nat, intent: nat, pending: seq<EventType>)
    requires Inv(db) && intent < |db.intents| && ReceiptIssuedEvent !in pending
    ensures Inv(LogEvents(db, id, intent, pending))
    decreases |pending|
  {
    if pending != [] {
      EventKeepsInv(db, pending[0], intent, Some(id));
      LoggingKeepsInv(AppendEvent(db, pending[0], intent, Some(id)), id, intent, pending[1..]);
    }
  }

  lemma UseKeepsInv(db: Db, id: nat, now: int)
    requires Inv(db) && id < |db.receipts| && db.receipts[id].status == Issued
    ensures var row := UpdateWrites(db.receipts[id], db.receipts[id], now);
            Inv(LogEvents(SetReceipt(db, id, row), id, db.receipts[id].intent, GrantEvents(row)))
  {
    var row := UpdateWrites(db.receipts[id], db.receipts[id], now);
    assert RowOk(db.receipts[id]);
    ReceiptWriteKeepsInv(db, id, row);
    LoggingKeepsInv(SetReceipt(db, id, row), id, db.receipts[id].intent, GrantEvents(row));
  }

  lemma ExpiryKeepsInv(db: Db, id: nat)
    requires Inv(db) && id < |db.receipts|
    ensures Inv(SetExpired(db, id))
  {
    assert RowOk(db.receipts[id]);
    ReceiptWriteKeepsInv(db, id, db.receipts[id].(status := Expired, active := false));
  }

  /** Redeeming keeps the lifecycle invariant. */
  lemma AloneKeepsInv(db: Db, sig: Signature, resource: Resource, subject: Subject, t1: int, t3: int)
    requires Inv(db)
    ensures Inv(Alone(db, sig, resource, subject, t1, t3).db)
  {
    var x := Proc(Redeem(sig, resource, subject, t1), Started, None);
    var m1 := AdvanceRedeem(db, x, t3).value;
    assert RunAlone(db, x, t3) == RunAlone(m1.db, m1.proc, t3);
    if m1.proc.stage.Passed? {
      var id := m1.proc.stage.id;
      AfterPassed(db, m1.proc, id, db.receipts[id], t3);
      if db.receipts[id].status == Issued {
        UseKeepsInv(db, id, t3);
      }
    } else if m1.proc.stage.MustExpire? {
      var m2 := AdvanceRedeem(m1.db, m1.proc, t3).value;
      ExpiryKeepsInv(db, m1.proc.stage.id);
      AfterDenied(m2.db, m2.proc, t3);
    } else {
      AfterDenied(m1.db, m1.proc, t3);
    }
  }

  // ----- every answer -----

  /** The token verified, and this is the stored receipt of its identity. */
  predicate Names(db: Db, sig: Signature, r: nat) {
    r < |db.receipts| && sig.claims.Some? && sig.claims.value.jti == db.receipts[r].jti
  }

  /** The signed claims and the request say what the stored receipt says. */
  predicate SaysTheSame(c: LegacyClaims, row: Receipt, resource: Resource, subject: Subject) {
    && c.intent == row.intent && c.resourceKey == row.resource.key && c.policy == row.policy
    && c.sub == row.subject.id && c.maxRedemptions == row.maxRedemptions
    && resource.key == row.resource.key && resource.kind == row.resource.kind
    && subject.id == row.subject.id && subject.kind == row.subject.kind
  }

  function ExpiredRow(row: Receipt): Receipt {
    row.(status := Expired, active := false)
  }

  /** The row after one more use at `at`. */
  predicate UsedOnce(row: Receipt, row': Receipt, at: int) {
    var last := row.count + 1 == row.maxRedemptions;
    && row' == row.(count := row'.count, status := row'.status, active := row'.active,
                    redeemedAt := row'.redeemedAt, exhaustedAt := row'.exhaustedAt)
    && row'.count == row.count + 1
    && row'.status == (if last then Exhausted else Issued) && (row'.active <==> !last)
    && row'.redeemedAt == Some(at) && row'.exhaustedAt == (if last then Some(at) else None)
  }

  /** The answer to a redemption of receipt `r`, and what it leaves behind: past the stored deadline the row, and
      nothing else, is set EXPIRED; on any other denial nothing changes at all; a grant uses the row once and
      records that, and that it was the last use. */
  predicate RedeemedAs(db: Db, r: nat, c: LegacyClaims, resource: Resource, subject: Subject, t1: int, t3: int,
                       stage: Stage, after: Db)
    requires r < |db.receipts|
  {
    var row := db.receipts[r];
    if row.exp <= t1 then
      stage == Denied("RECEIPT_EXPIRED") && after == db.(receipts := db.receipts[r := ExpiredRow(row)])
    else if !SaysTheSame(c, row, resource, subject) then
      stage == Denied("RECEIPT_CLAIMS_MISMATCH") && after == db
    else if row.status != Issued || row.exp <= t3 then
      stage == Denied("RECEIPT_NOT_ACTIVE") && after == db
    else
      && stage == Granted(r, row.count + 1, row.maxRedemptions)
      && |after.receipts| == |db.receipts| && after.receipts == db.receipts[r := after.receipts[r]]
      && UsedOnce(row, after.receipts[r], t3)
      && after.policies == db.policies && after.intents == db.intents
      && after.events == db.events + [Event(ReceiptRedeemed, row.intent, Some(r))]
           + if row.count + 1 == row.maxRedemptions then [Event(RedemptionRejected, row.intent, Some(r))] else []
  }

  lemma UseIsOnce(row: Receipt, at: int)
    requires RowOk(row) && row.status == Issued
    ensures UsedOnce(row, UpdateWrites(row, row, at), at)
  {
  }

  lemma GrantLeaves(db: Db, r: nat, at: int)
    requires Inv(db) && r < |db.receipts| && db.receipts[r].status == Issued
    ensures var row := db.receipts[r];
            var used := UpdateWrites(row, row, at);
            var after := LogEvents(SetReceipt(db, r, used), r, row.intent, GrantEvents(used));
      && after.receipts == db.receipts[r := used] && UsedOnce(row, used, at)
      && after.policies == db.policies && after.intents == db.intents
      && after.events == db.events + [Event(ReceiptRedeemed, row.intent, Some(r))]
           + if row.count + 1 == row.maxRedemptions then [Event(RedemptionRejected, row.intent, Some(r))] else []
  {
    var row := db.receipts[r];
    assert RowOk(row);
    UseIsOnce(row, at);
    GrantEventsWritten(SetReceipt(db, r, UpdateWrites(row, row, at)), r, UpdateWrites(row, row, at));
  }

  lemma RedeemedRow(db: Db, r: nat, sig: Signature, resource: Resource, subject: Subject, t1: int, t3: int)
    requires Inv(db) && Names(db, sig, r)
    ensures var m := Alone(db, sig, resource, subject, t1, t3);
            RedeemedAs(db, r, sig.claims.value, resource, subject, t1, t3, m.proc.stage, m.db)
  {
    var row := db.receipts[r];
    assert RowOk(row);
    JtiFindsTheRow(db, r);
    var x := Proc(Redeem(sig, resource, subject, t1), Started, None);
    var m1 := AdvanceRedeem(db, x, t3).value;
    assert RunAlone(db, x, t3) == RunAlone(m1.db, m1.proc, t3);
    if row.exp <= t1 {
      var m2 := AdvanceRedeem(m1.db, m1.proc, t3).value;
      AfterDenied(m2.db, m2.proc, t3);
    } else if SaysTheSame(sig.claims.value, row, resource, subject) {
      AfterPassed(db, m1.proc, r, row, t3);
      if row.status == Issued && t3 < row.exp {
        GrantLeaves(db, r, t3);
      } else {
        AfterPassedMissed(db, m1.proc, r, row, t3);
      }
    } else {
      AfterDenied(m1.db, m1.proc, t3);
    }
  }

  lemma AfterPassedMissed(db: Db, x: Proc, id: nat, row: Receipt, now: int)
    requires x.request.Redeem? && x.stage == Passed(id, row) && id < |db.receipts| && row == db.receipts[id]
    requires !UpdateMatches(row, row, now)
    ensures RunAlone(db, x, now).proc.stage == Denied("RECEIPT_NOT_ACTIVE")
  {
    var x1 := AdvanceRedeem(db, x, now).value.proc;
    var m2 := AdvanceRedeem(db, x1, now).value;
    assert RunAlone(db, x, now) == RunAlone(m2.db, m2.proc, now);
    AfterMissed(db, m2.proc, now);
  }

  /** Every answer of an undisturbed redemption, and what it leaves behind. A token that did not verify, or names
      no stored receipt, is denied so and changes nothing; otherwise the answer is that of the receipt it names. */
  lemma RedemptionLeaves(db: Db, sig: Signature, resource: Resource, subject: Subject, t1: int, t3: int)
    requires Inv(db)
    ensures var m := Alone(db, sig, resource, subject, t1, t3);
      && (sig.claims.None? ==> m.proc.stage == Denied(sig.reason) && m.db == db)
      && (sig.claims.Some? && (forall r: nat :: !Names(db, sig, r)) ==>
            m.proc.stage == Denied("RECEIPT_NOT_FOUND") && m.db == db)
      && (forall r: nat | Names(db, sig, r) ::
            RedeemedAs(db, r, sig.claims.value, resource, subject, t1, t3, m.proc.stage, m.db))
  {
    forall r: nat | Names(db, sig, r)
      ensures var m := Alone(db, sig, resource, subject, t1, t3);
              RedeemedAs(db, r, sig.claims.value, resource, subject, t1, t3, m.proc.stage, m.db)
    {
      RedeemedRow(db, r, sig, resource, subject, t1, t3);
    }
    if FoundByJti(db, sig).None? {
      var x := Proc(Redeem(sig, resource, subject, t1), Started, None);
      var m1 := AdvanceRedeem(db, x, t3).value;
      assert RunAlone(db, x, t3) == RunAlone(m1.db, m1.proc, t3);
      AfterDenied(m1.db, m1.proc, t3);
    } else {
      assert Names(db, sig, FoundByJti(db, sig).value);
    }
  }

  // ----- verification and redemption -----

  /** A verification with nobody in the way: at most two database calls. */
  function VerifyAlone(db: Db, sig: Signature, now: int): Moved {
    var x := Proc(Verify(sig), Started, None);
    var first := AdvanceVerify(db, x, now).value;
    var second := AdvanceVerify(first.db, first.proc, now);
    if second.None? then first else second.value
  }

  /** A verification may arrive at any time, and be served alone. */
  lemma VerificationArrivesAndRuns(s: State, sig: Signature, now: int) returns (steps: seq<Step>)
    ensures var m := VerifyAlone(s.db, sig, now);
            Run(s, [Arrive(Verify(sig))] + steps) == Some(State(m.db, s.procs + [m.proc]))
  {
    var x := Proc(Verify(sig), Started, None);
    var p := |s.procs|;
    var s0 := State(s.db, s.procs + [x]);
    var m1 := AdvanceVerify(s.db, x, now).value;
    var s1 := State(m1.db, s.procs + [m1.proc]);
    assert s0.procs[p := m1.proc] == s1.procs;
    var m2 := AdvanceVerify(m1.db, m1.proc, now);
    if m2.None? {
      steps := [Advance(p, now)] + [];
      RunSteps(s, Arrive(Verify(sig)), Advance(p, now), s0, s1, []);
    } else {
      var s2 := State(m2.value.db, s.procs + [m2.value.proc]);
      assert s1.procs[p := m2.value.proc] == s2.procs;
      steps := [Advance(p, now)] + ([Advance(p, now)] + []);
      RunSteps(s, Arrive(Verify(sig)), Advance(p, now), s0, s1, [Advance(p, now)] + []);
      assert Next(s1, Advance(p, now)) == Some(s2);
      assert ([Advance(p, now)] + [])[1..] == [];
      assert Run(s2, []) == Some(s2);
    }
  }

  lemma RunSteps(s: State, e0: Step, e1: Step, s0: State, s1: State, more: seq<Step>)
    requires Next(s, e0) == Some(s0) && Next(s0, e1) == Some(s1)
    ensures Run(s, [e0] + ([e1] + more)) == Run(s1, more)
  {
    assert ([e0] + ([e1] + more))[1..] == [e1] + more && ([e1] + more)[1..] == more;
  }

  /** So does verifying. */
  lemma VerifyAloneKeepsInv(db: Db, sig: Signature, now: int)
    ensures Inv(db) ==> Inv(VerifyAlone(db, sig, now).db)
  {
    var found := FoundByJti(db, sig);
    if Inv(db) && found.Some? {
      var row := db.receipts[found.value];
      ExpiryKeepsInv(db, found.value);
      EventKeepsInv(db, ReceiptVerified, row.intent, found);
    }
  }

  /** The answer to a verification of receipt `r`, and what it leaves behind. */
  predicate VerifiedAs(db: Db, r: nat, c: LegacyClaims, now: int, stage: Stage, after: Db)
    requires r < |db.receipts|
  {
    var row := db.receipts[r];
    if row.status != Issued then stage == Denied("RECEIPT_NOT_ACTIVE") && after == db
    else if !SaysTheSame(c, row, row.resource, row.subject) then
      stage == Denied("RECEIPT_CLAIMS_MISMATCH") && after == db
    else if row.exp <= now then
      stage == Denied("RECEIPT_EXPIRED") && after == db.(receipts := db.receipts[r := ExpiredRow(row)])
    else
      && stage == Confirmed(r)
      && after == db.(events := db.events + [Event(ReceiptVerified, row.intent, Some(r))])
  }

  lemma {:induction false} VerifiedRow(db: Db, r: nat, sig: Signature, now: int)
    requires Inv(db) && Names(db, sig, r)
    ensures var m := VerifyAlone(db, sig, now); VerifiedAs(db, r, sig.claims.value, now, m.proc.stage, m.db)
  {
    JtiFindsTheRow(db, r);
    assert RowOk(db.receipts[r]);
  }

  lemma UnnamedVerification(db: Db, sig: Signature, now: int)
    requires FoundByJti(db, sig).None?
    ensures var m := VerifyAlone(db, sig, now);
            m.proc.stage == Denied(if sig.claims.None? then sig.reason else "RECEIPT_NOT_FOUND") && m.db == db
  {
  }

  /** Every answer of an undisturbed verification, and what it leaves behind. */
  lemma {:induction false} VerificationLeaves(db: Db, sig: Signature, now: int)
    requires Inv(db)
    ensures var m := VerifyAlone(db, sig, now);
      && (sig.claims.None? ==> m.proc.stage == Denied(sig.reason) && m.db == db)
      && (sig.claims.Some? && (forall r: nat :: !Names(db, sig, r)) ==>
            m.proc.stage == Denied("RECEIPT_NOT_FOUND") && m.db == db)
      && (forall r: nat | Names(db, sig, r) :: VerifiedAs(db, r, sig.claims.value, now, m.proc.stage, m.db))
  {
    forall r: nat | Names(db, sig, r)
      ensures var m := VerifyAlone(db, sig, now); VerifiedAs(db, r, sig.claims.value, now, m.proc.stage, m.db)
    {
      VerifiedRow(db, r, sig, now);
    }
    if FoundByJti(db, sig).Some? {
      assert Names(db, sig, FoundByJti(db, sig).value);
    } else {
      UnnamedVerification(db, sig, now);
    }
  }

  lemma VerifyAloneFound(db: Db, sig: Signature, now: int, r: nat)
    ensures VerifyAlone(db, sig, now).proc.stage == Confirmed(r) <==>
            && FoundByJti(db, sig) == Some(r) && db.receipts[r].active && db.receipts[r].status == Issued
            && ClaimsMatch(sig.claims.value, db.receipts[r]) && now < db.receipts[r].exp
    ensures VerifyAlone(db, sig, now).proc.stage == Confirmed(r) ==>
            VerifyAlone(db, sig, now).db == AppendEvent(db, ReceiptVerified, db.receipts[r].intent, Some(r))
  {
  }

  lemma FoundIsRedeemable(db: Db, sig: Signature, now: int, r: nat)
    requires Inv(db) && r < |db.receipts|
    ensures Redeemable(db, r, sig, db.receipts[r].resource, db.receipts[r].subject, now, now) <==>
            && FoundByJti(db, sig) == Some(r) && db.receipts[r].active && db.receipts[r].status == Issued
            && ClaimsMatch(sig.claims.value, db.receipts[r]) && now < db.receipts[r].exp
  {
    JtiFindsTheRow(db, r);
    assert RowOk(db.receipts[r]);
  }

  /** What verification promises: it confirms receipt `r` exactly when redeeming the same token right away,
      for the receipt's own resource and subject, is granted on `r`; confirming changes no receipt. */
  lemma VerificationPredictsRedemption(db: Db, sig: Signature, now: int, r: nat)
    requires Inv(db)
    ensures var m := VerifyAlone(db, sig, now);
      && (m.proc.stage == Confirmed(r) <==>
            && r < |db.receipts|
            && var end := Alone(db, sig, db.receipts[r].resource, db.receipts[r].subject, now, now).proc.stage;
               end.Granted? && end.id == r)
      && (m.proc.stage == Confirmed(r) ==> m.db.receipts == db.receipts && m.db.intents == db.intents)
  {
    VerifyAloneFound(db, sig, now, r);
    if r < |db.receipts| {
      FoundIsRedeemable(db, sig, now, r);
      var resource, subject := db.receipts[r].resource, db.receipts[r].subject;
      if sig.claims.Some? && sig.claims.value.jti == db.receipts[r].jti {
        AloneGrantedFor(db, r, sig, resource, subject, now, now);
      } else {
        AloneGrantedIff(db, sig, resource, subject, now, now);
      }
    }
  }

  // ----- honest tokens -----

  /** `c` is what the service signed when it stored receipt `r`. */
  predicate Honest(db: Db, r: nat, rt: Runtime, c: LegacyClaims) {
    && r < |db.receipts| && db.receipts[r].intent < |db.intents|
    && db.intents[db.receipts[r].intent].policy < |db.policies|
    && var i := db.intents[db.receipts[r].intent];
       c == ClaimsFor(rt, i, db.receipts[r].intent, db.policies[i.policy], db.receipts[r].issuedAt, db.receipts[r].jti)
  }

  /** Intent `i` has receipt `r`, and `c` is its honest token. */
  predicate HandedOut(db: Db, i: nat, r: nat, rt: Runtime, c: LegacyClaims) {
    FindReceiptOf(db.receipts, i) == Some(r) && Honest(db, r, rt, c)
  }

  /** Whenever issuing hands out a token, it is the honest token of the receipt it stored. */
  lemma IssuedTokenIsHonest(db: Db, rt: Runtime, i: nat, issuedAt: int, jti: string)
    requires i < |db.intents| && db.intents[i].policy < |db.policies|
    ensures var done := IssueReceipt(db, rt, i, issuedAt, jti);
            done.IssueDone? && done.token.Some? ==> HandedOut(done.db, i, done.receipt, rt, done.token.value)
  {
    var done := IssueReceipt(db, rt, i, issuedAt, jti);
    if done.IssueDone? && done.token.Some? {
      var row := ReceiptFor(db.intents[i], i, db.policies[db.intents[i].policy], issuedAt, jti);
      LastReceiptIsFound(db.receipts, row);
      assert done.db.receipts == db.receipts + [row];
      assert done.db.intents == db.intents[i := done.db.intents[i]];
      assert SameTerms(done.db.intents[i], db.intents[i]);
    }
  }

  lemma {:induction false} LastReceiptIsFound(receipts: seq<Receipt>, row: Receipt)
    ensures FindReceiptOf(receipts + [row], row.intent) == Some(|receipts|)
  {
    var all := receipts + [row];
    assert all != [] && all[|all| - 1] == row;
  }

  lemma CreatedTokenIsHonest(db: Db, c: Call)
    requires Inv(db) && ValidRuntime(c.rt)
    ensures var done := Perform(db, c);
      done.Committed? && done.token.Some? ==>
        && FindReceiptOf(done.db.receipts, done.intent).Some?
        && Honest(done.db, FindReceiptOf(done.db.receipts, done.intent).value, c.rt, done.token.value)
  {
    var key := Trimmed(c.input.idempotencyKey);
    var asks := Truthy(Trimmed(c.input.paymentRef));
    if !(Truthy(key) && FindByKey(db.intents, key.value).Some?) && !(asks && c.fiber.FiberThrows?) {
      EnsureKeepsInv(db, c.input.resource, c.rt);
      var e := EnsurePolicy(db, c.input.resource, c.rt);
      var v := if asks then Some(c.fiber.v) else None;
      StoredTokenIsHonest(e.db, NewIntent(c.input, c.rt, e.policy, e.db.policies[e.policy], v, c.now, c.later),
        c.rt, v, c.later, c.jti);
    }
  }

  lemma StoredTokenIsHonest(db: Db, row: Intent, rt: Runtime, v: Option<FiberVerification>, later: int, jti: string)
    requires row.policy < |db.policies|
    ensures var done := StoreIntent(db, row, rt, v, later, jti);
      done.Committed? && done.token.Some? ==>
        && FindReceiptOf(done.db.receipts, done.intent).Some?
        && Honest(done.db, FindReceiptOf(done.db.receipts, done.intent).value, rt, done.token.value)
  {
    var inserted := InsertIntent(db, row);
    if inserted.Some? {
      var i := |db.intents|;
      var noted := NotePending(AppendEvent(inserted.value, IntentCreated, i, None), i, v);
      IssuedTokenIsHonest(noted, rt, i, SettledOr(v, later), jti);
    }
  }

  /** A token honest once is honest for good. */
  lemma HonestStays(before: Db, after: Db, r: nat, rt: Runtime, c: LegacyClaims)
    requires Honest(before, r, rt, c) && LaterDb(before, after)
    ensures Honest(after, r, rt, c)
  {
    assert LaterRow(after.receipts[r], before.receipts[r]);
    var k := before.receipts[r].intent;
    assert SameTerms(after.intents[k], before.intents[k]);
  }

  predicate NonEmptyClaims(c: LegacyClaims) {
    c.iss != "" && c.sub != "" && c.aud != "" && c.jti != "" && c.resourceKey != ""
  }

  /** `verify` of the legacy signer on a token it signed, at `t2` milliseconds: issuer, audience and
      not-before, then expiry, then the claim schema. */
  function CheckSigned(c: LegacyClaims, rt: Runtime, t2: int): Signature {
    if c.iss != rt.issuer || c.aud != rt.audience || c.nbf > Seconds(t2) then
      Signature(None, "RECEIPT_CLAIMS_INVALID")
    else if c.exp <= Seconds(t2) then Signature(None, "RECEIPT_EXPIRED")
    else if c.iss == "" || c.sub == "" || c.aud == "" || c.jti == "" || c.resourceKey == "" || c.grantType == ""
            || c.maxRedemptions <= 0 then
      Signature(None, "INVALID_RECEIPT_TOKEN")
    else Signature(Some(c), "")
  }

  /** The floored token deadline is never later than the stored one and at most 999 ms earlier, and the
      signed window is exactly the policy's lifetime, in whole seconds. */
  lemma TokenDeadline(db: Db, r: nat, rt: Runtime, c: LegacyClaims)
    requires Inv(db) && Honest(db, r, rt, c)
    ensures var row := db.receipts[r];
      && c.exp * 1000 <= row.exp <= c.exp * 1000 + 999
      && c.nbf * 1000 <= row.nbf <= c.nbf * 1000 + 999
      && c.iat == c.nbf < c.exp
      && c.exp - c.nbf == db.policies[row.policy].ttlSeconds
  {
    var row := db.receipts[r];
    assert Copies(row, db.intents[row.intent], db.policies[db.intents[row.intent].policy]);
  }

  /** With the clock not running backwards between them, a token that passes the signature check at `t2` never
      meets the stored-expiry denial at the earlier sample `t1`, whatever the request names. */
  lemma HonestTokenNeverStoredExpired(db: Db, r: nat, rt: Runtime, c: LegacyClaims,
                                      resource: Resource, subject: Subject, t1: int, t2: int)
    requires Inv(db) && Honest(db, r, rt, c) && t1 <= t2
    requires CheckSigned(c, rt, t2).claims.Some?
    ensures FoundByJti(db, CheckSigned(c, rt, t2)) == Some(r)
    ensures var denial := EvaluateDenial(CheckSigned(c, rt, t2), Some(db.receipts[r]), resource, subject, t1);
            denial.None? || denial.value.reason != "RECEIPT_EXPIRED"
  {
    TokenDeadline(db, r, rt, c);
    JtiFindsTheRow(db, r);
  }

  /** The order matters: sampled one millisecond late, the same token does meet it. */
  lemma LateSampleMeetsStoredExpiry()
    ensures var rt := Runtime(1, 1, Fake, "i", "a");
            var p := Policy(Resource("k", API), 1, 1);
            var i := Intent(0, Resource("k", API), Subject(END_USER, "s"), None, None, ReceiptIssued,
                       None, None, None, None);
            var row := ReceiptFor(i, 0, p, 0, "j");
            var sig := CheckSigned(ClaimsFor(rt, i, 0, p, 0, "j"), rt, 999);
            && sig.claims.Some?
            && EvaluateDenial(sig, Some(row), row.resource, row.subject, 1000).Some?
            && EvaluateDenial(sig, Some(row), row.resource, row.subject, 1000).value.reason == "RECEIPT_EXPIRED"
  {
  }

  /** What an honest token needs: the signature check is made for the issuer and audience it was signed for,
      none of its texts is empty, it is inside its window there, and its receipt is ISSUED and not past the
      stored deadline at the two other clock readings. */
  predicate Grantable(row: Receipt, c: LegacyClaims, rt: Runtime, t1: int, t2: int, t3: int) {
    && c.iss == rt.issuer && c.aud == rt.audience && NonEmptyClaims(c)
    && c.nbf <= Seconds(t2) < c.exp
    && row.status == Issued && t1 < row.exp && t3 < row.exp
  }

  lemma SignedAlike(db: Db, r: nat, rt: Runtime, c: LegacyClaims)
    requires Inv(db) && Honest(db, r, rt, c)
    ensures ClaimsMatch(c, db.receipts[r]) && c.jti == db.receipts[r].jti
    ensures c.grantType != "" && c.maxRedemptions > 0
  {
    var row := db.receipts[r];
    var i := db.intents[row.intent];
    assert Copies(row, i, db.policies[i.policy]) && RowOk(row);
    assert db.policies[i.policy].resource == i.resource;
  }

  /** Redeemed alone for this resource and subject, token `c` is granted exactly when it is grantable, and then
      receipt `r` is used once and no other receipt changes. */
  predicate RedeemsExactly(db: Db, r: nat, c: LegacyClaims, rt: Runtime, resource: Resource, subject: Subject,
                           t1: int, t2: int, t3: int) {
    && r < |db.receipts|
    && var row := db.receipts[r];
       var m := Alone(db, CheckSigned(c, rt, t2), resource, subject, t1, t3);
       && (m.proc.stage.Granted? <==> Grantable(row, c, rt, t1, t2, t3))
       && (m.proc.stage.Granted? ==>
             && m.proc.stage == Granted(r, row.count + 1, row.maxRedemptions)
             && |m.db.receipts| == |db.receipts| && m.db.receipts == db.receipts[r := m.db.receipts[r]]
             && UsedOnce(row, m.db.receipts[r], t3))
  }

  /** Completeness for the receipt's own resource and subject, under whatever issuer and audience are configured by
      then, for every policy limit and lifetime; being before the token's expiry second is enough for the stored
      deadline. */
  lemma HonestTokenIsGranted(db: Db, r: nat, rt: Runtime, c: LegacyClaims, rt2: Runtime, t1: int, t2: int, t3: int)
    requires Inv(db) && Honest(db, r, rt, c)
    ensures RedeemsExactly(db, r, c, rt2, db.receipts[r].resource, db.receipts[r].subject, t1, t2, t3)
    ensures Seconds(t1) < c.exp ==> t1 < db.receipts[r].exp
  {
    var row := db.receipts[r];
    var sig := CheckSigned(c, rt2, t2);
    SignedAlike(db, r, rt, c);
    TokenDeadline(db, r, rt, c);
    AloneGrantedFor(db, r, sig, row.resource, row.subject, t1, t3);
    assert RowOk(row);
    if row.status == Issued {
      UseIsOnce(row, t3);
    }
  }

  /** Every answer to an honest token, for any resource and subject: under another issuer or audience or before its
      not-before second it is invalid, from its expiry second on it is expired, with an empty text it is no token,
      and none of these changes anything; otherwise the answer is its receipt's. */
  lemma HonestTokenAnswers(db: Db, r: nat, rt: Runtime, c: LegacyClaims, rt2: Runtime, resource: Resource,
                           subject: Subject, t1: int, t2: int, t3: int)
    requires Inv(db) && Honest(db, r, rt, c)
    ensures var m := Alone(db, CheckSigned(c, rt2, t2), resource, subject, t1, t3);
      if c.iss != rt2.issuer || c.aud != rt2.audience || t2 < c.nbf * 1000 then
        m.proc.stage == Denied("RECEIPT_CLAIMS_INVALID") && m.db == db
      else if c.exp * 1000 <= t2 then m.proc.stage == Denied("RECEIPT_EXPIRED") && m.db == db
      else if !NonEmptyClaims(c) then m.proc.stage == Denied("INVALID_RECEIPT_TOKEN") && m.db == db
      else RedeemedAs(db, r, c, resource, subject, t1, t3, m.proc.stage, m.db)
  {
    SignedAlike(db, r, rt, c);
    RedemptionLeaves(db, CheckSigned(c, rt2, t2), resource, subject, t1, t3);
    if CheckSigned(c, rt2, t2).claims.Some? {
      assert Names(db, CheckSigned(c, rt2, t2), r);
    }
  }

  /** From issuing to redeeming: a token handed out by a creation in some run, redeemed alone, for the resource and
      the subject that creation asked for, after any further steps of the system, is granted exactly when it is
      grantable then. It was signed for the issuer and audience configured at its creation. */
  lemma {:induction false} IssuedTokenIsGranted(before: seq<Step>, call: Call, after: seq<Step>, rt2: Runtime,
                                                t1: int, t2: int, t3: int)
    requires Run(EMPTY, before).Some? && ValidRuntime(call.rt)
    requires Perform(Run(EMPTY, before).value.db, call).Committed?
    requires Perform(Run(EMPTY, before).value.db, call).token.Some?
    requires var s := Run(EMPTY, before).value;
             Run(s.(db := Perform(s.db, call).db), after).Some?
    ensures var s := Run(EMPTY, before).value;
            var issued := Perform(s.db, call);
            var r := FindReceiptOf(issued.db.receipts, issued.intent);
      && r.Some?
      && issued.token.value.iss == call.rt.issuer && issued.token.value.aud == call.rt.audience
      && RedeemsExactly(Run(s.(db := issued.db), after).value.db, r.value, issued.token.value, rt2,
           call.input.resource, call.input.subject, t1, t2, t3)
  {
    EmptyIsOk();
    RunKeepsInv(EMPTY, before);
    var s := Run(EMPTY, before).value;
    var issued := Perform(s.db, call);
    var c := issued.token.value;
    CreatedTokenIsHonest(s.db, call);
    CreatedReceiptIsTheCallers(s.db, call);
    var r := FindReceiptOf(issued.db.receipts, issued.intent).value;
    var s1 := s.(db := issued.db);
    assert Next(s, Create(call)) == Some(s1);
    StepKeepsInv(s, Create(call));
    RunIsLater(s1, after);
    var db := Run(s1, after).value.db;
    HonestStays(issued.db, db, r, call.rt, c);
    assert LaterRow(db.receipts[r], issued.db.receipts[r]);
    HonestTokenIsGranted(db, r, call.rt, c, rt2, t1, t2, t3);
  }

  lemma CreatedReceiptIsTheCallers(db: Db, call: Call)
    requires Inv(db) && ValidRuntime(call.rt) && Perform(db, call).Committed? && Perform(db, call).token.Some?
    ensures var issued := Perform(db, call);
            var r := FindReceiptOf(issued.db.receipts, issued.intent);
      && r.Some?
      && issued.db.receipts[r.value].resource == call.input.resource
      && issued.db.receipts[r.value].subject == call.input.subject
      && issued.token.value.iss == call.rt.issuer && issued.token.value.aud == call.rt.audience
  {
    CreationLeaves(db, call);
    CreateKeepsInv(db, call.input, call.rt, call.fiber, call.now, call.later, call.jti);
    var issued := Perform(db, call);
    assert issued.db.receipts[|db.receipts|].intent == issued.intent;
  }
}
