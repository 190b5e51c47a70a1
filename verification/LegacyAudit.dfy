/** The audit trail of redemptions: ACCESS_RECEIPT_REDEEMED events are appended after the winning update, by
    another database call (src/services/fiber-latch-service.ts:572-590). */
module LegacyAudit {
  import opened Basics
  import opened FiberStatus
  import opened LegacyDb
  import opened LegacyLifecycle
  import opened LegacyRuns

  predicate Records(e: Event, r: nat) {
    e.kind == ReceiptRedeemed && e.receipt == Some(r)
  }

  /** The ACCESS_RECEIPT_REDEEMED events of receipt `r`. */
  function Recorded(events: seq<Event>, r: nat): nat {
    if events == [] then 0
    else Recorded(events[..|events| - 1], r) + if Records(events[|events| - 1], r) then 1 else 0
  }

  lemma RecordedAppend(db: Db, kind: EventType, intent: nat, receipt: Option<nat>, r: nat)
    ensures Recorded(AppendEvent(db, kind, intent, receipt).events, r)
         == Recorded(db.events, r) + if kind == ReceiptRedeemed && receipt == Some(r) then 1 else 0
  {
    var e := Event(kind, intent, receipt);
    assert (db.events + [e])[..|db.events + [e]| - 1] == db.events;
  }

  // ----- transactions record no redemption -----

  lemma IssueRecordsNothing(db: Db, rt: Runtime, i: nat, at: int, jti: string, r: nat)
    requires i < |db.intents| && db.intents[i].policy < |db.policies|
    ensures var done := IssueReceipt(db, rt, i, at, jti);
            done.IssueDone? ==> Recorded(done.db.events, r) == Recorded(db.events, r)
  {
    var p := db.policies[db.intents[i].policy];
    var inserted := InsertReceipt(db, ReceiptFor(db.intents[i], i, p, at, jti));
    if inserted.Some? {
      var marked := MarkIssued(inserted.value, i, at);
      var k := Some(|db.receipts|);
      RecordedAppend(marked, IntentVerified, i, k, r);
      RecordedAppend(AppendEvent(marked, IntentVerified, i, k), ReceiptIssuedEvent, i, k, r);
    }
  }

  lemma ResolveRecordsNothing(db: Db, rt: Runtime, i: nat, v: Option<FiberVerification>, later: int, jti: string,
                              r: nat)
    requires i < |db.intents| && db.intents[i].policy < |db.policies|
    ensures var done := Resolve(db, rt, i, v, later, jti);
            done.Committed? ==> Recorded(done.db.events, r) == Recorded(db.events, r)
  {
    RecordedAppend(db, IntentExpiredEvent, i, None, r);
    RecordedAppend(db, IntentRejected, i, None, r);
    RecordedAppend(db, IntentVerified, i, None, r);
    IssueRecordsNothing(db, rt, i, SettledOr(v, later), jti, r);
  }

  lemma StoreRecordsNothing(db: Db, row: Intent, rt: Runtime, v: Option<FiberVerification>, later: int, jti: string,
                            r: nat)
    requires row.policy < |db.policies|
    ensures var done := StoreIntent(db, row, rt, v, later, jti);
            done.Committed? ==> Recorded(done.db.events, r) == Recorded(db.events, r)
  {
    var inserted := InsertIntent(db, row);
    if inserted.Some? {
      var i := |db.intents|;
      var created := AppendEvent(inserted.value, IntentCreated, i, None);
      RecordedAppend(inserted.value, IntentCreated, i, None, r);
      RecordedAppend(created, IntentPaymentPending, i, None, r);
      ResolveRecordsNothing(NotePending(created, i, v), rt, i, v, later, jti, r);
    }
  }

  lemma CreateRecordsNothing(db: Db, c: Call, r: nat)
    ensures Perform(db, c).Committed? ==> Recorded(Perform(db, c).db.events, r) == Recorded(db.events, r)
  {
    var key := Trimmed(c.input.idempotencyKey);
    var e := EnsurePolicy(db, c.input.resource, c.rt);
    var asks := Truthy(Trimmed(c.input.paymentRef));
    if !(Truthy(key) && FindByKey(db.intents, key.value).Some?) && !(asks && c.fiber.FiberThrows?) {
      var v := if asks then Some(c.fiber.v) else None;
      StoreRecordsNothing(e.db, NewIntent(c.input, c.rt, e.policy, e.db.policies[e.policy], v, c.now, c.later),
        c.rt, v, c.later, c.jti, r);
    }
  }

  lemma SettleRecordsNothing(db: Db, rt: Runtime, i: nat, state: Normalized, at: int, jti: string, r: nat)
    requires i < |db.intents| && db.intents[i].policy < |db.policies|
    ensures var done := Settle(db, rt, i, state, at, jti);
            done.Reconciled? ==> Recorded(done.db.events, r) == Recorded(db.events, r)
  {
    RecordedAppend(db, IntentExpiredEvent, i, None, r);
    RecordedAppend(db, IntentRejected, i, None, r);
    IssueRecordsNothing(db, rt, i, at, jti, r);
  }

  lemma ReconcileRecordsNothing(db: Db, rt: Runtime, i: nat, fiber: FiberReply, now: int, jti: string, r: nat)
    requires PoliciesExist(db)
    ensures var done := Reconcile(db, rt, i, fiber, now, jti);
            done.Reconciled? ==> Recorded(done.db.events, r) == Recorded(db.events, r)
  {
    if i < |db.intents| {
      RecordedAppend(db, IntentExpiredEvent, i, None, r);
      if fiber.Reply? {
        SettleRecordsNothing(SetIntent(db, i, db.intents[i].(fiberResponse := Some(fiber.v))), rt, i,
          MapRawStatus(RawStatusOf(fiber.v)).state, SettledOr(Some(fiber.v), now), jti, r);
      }
    }
  }

  // ----- requests -----

  /** The request has written its ACCESS_RECEIPT_REDEEMED event for `r`, and may have answered GRANTED. */
  predicate HasRecorded(x: Proc, r: nat) {
    (x.stage.Logging? && x.stage.id == r && ReceiptRedeemed !in x.stage.pending)
    || (x.stage.Granted? && x.stage.id == r)
  }

  /** The request has won a use of `r` and may have written its event. */
  predicate MayHaveRecorded(x: Proc, r: nat) {
    Wins(x, r) && !x.stage.Won? && !(x.stage.Logging? && ReceiptRedeemed in x.stage.pending)
  }

  /** The event that records the use is written once, before any other. */
  predicate InOrder(x: Proc) {
    x.stage.Logging? && x.stage.pending != [] ==> ReceiptRedeemed !in x.stage.pending[1..]
  }

  function Count(procs: seq<Proc>, f: Proc -> bool): nat {
    if procs == [] then 0
    else Count(procs[..|procs| - 1], f) + if f(procs[|procs| - 1]) then 1 else 0
  }

  function Recording(r: nat): Proc -> bool {
    (x: Proc) => HasRecorded(x, r)
  }

  function PossiblyRecording(r: nat): Proc -> bool {
    (x: Proc) => MayHaveRecorded(x, r)
  }

  lemma {:induction false} CountUpdate(procs: seq<Proc>, p: nat, x: Proc, f: Proc -> bool)
    requires p < |procs|
    ensures Count(procs[p := x], f)
         == Count(procs, f) + (if f(x) then 1 else 0) - (if f(procs[p]) then 1 else 0)
  {
    var n := |procs| - 1;
    if p == n {
      assert procs[p := x][..n] == procs[..n];
    } else {
      assert procs[p := x][..n] == procs[..n][p := x];
      CountUpdate(procs[..n], p, x, f);
    }
  }

  /** Whoever answered GRANTED has recorded, and whoever may have recorded has won. */
  lemma {:induction false} RecordersBetween(procs: seq<Proc>, r: nat)
    ensures CountGrants(procs, r) <= Count(procs, Recording(r))
    ensures Count(procs, PossiblyRecording(r)) <= CountWins(procs, r)
  {
    if procs != [] {
      RecordersBetween(procs[..|procs| - 1], r);
    }
  }

  /** The log neither misses a use that was answered for nor holds one that was not won. */
  ghost predicate TrailOk(s: State) {
    && (forall i | 0 <= i < |s.procs| :: InOrder(s.procs[i]))
    && (forall r: nat ::
          Count(s.procs, Recording(r)) <= Recorded(s.db.events, r) <= Count(s.procs, PossiblyRecording(r)))
  }

  /** One request moved: the log grew by what the request says it wrote. */
  predicate Accounts(before: Db, x: Proc, after: Db, x': Proc, r: nat) {
    var grown := Recorded(after.events, r) - Recorded(before.events, r);
    && (if HasRecorded(x', r) then 1 else 0) - (if HasRecorded(x, r) then 1 else 0) <= grown
    && grown <= (if MayHaveRecorded(x', r) then 1 else 0) - (if MayHaveRecorded(x, r) then 1 else 0)
  }

  lemma FirstIsRecord(pending: seq<EventType>)
    requires pending != [] && ReceiptRedeemed !in pending[1..]
    ensures ReceiptRedeemed in pending <==> pending[0] == ReceiptRedeemed
    ensures |pending| > 1 ==> ReceiptRedeemed !in pending[1..][1..]
  {
    assert pending == [pending[0]] + pending[1..];
  }

  /** A request that has written all its events answers. */
  lemma AnsweringAccounts(db: Db, x: Proc, count: int, max: int, r: nat)
    requires x.stage.Logging? && x.stage.pending == [] && Wins(x, x.stage.id)
    ensures var x' := x.(stage := Granted(x.stage.id, count, max));
            InOrder(x') && Accounts(db, x, db, x', r)
  {
  }

  /** A request that writes its next event. */
  lemma WritingAccounts(db: Db, x: Proc, db': Db, r: nat)
    requires InOrder(x) && x.stage.Logging? && x.stage.pending != [] && Wins(x, x.stage.id)
    requires Recorded(db'.events, r) == Recorded(db.events, r)
               + if x.stage.pending[0] == ReceiptRedeemed && x.stage.id == r then 1 else 0
    ensures var x' := x.(stage := Logging(x.stage.id, x.stage.seen, x.stage.pending[1..]));
            InOrder(x') && Accounts(db, x, db', x', r)
  {
    FirstIsRecord(x.stage.pending);
  }

  lemma LoggingAccounts(db: Db, x: Proc, now: int, r: nat)
    requires InOrder(x) && x.request.Redeem? && x.stage.Logging? && Wins(x, x.stage.id)
    ensures var m := AdvanceRedeem(db, x, now).value;
            InOrder(m.proc) && Accounts(db, x, m.db, m.proc, r)
  {
    var stage := x.stage;
    if stage.pending == [] {
      AnsweringAccounts(db, x, stage.seen.count, stage.seen.maxRedemptions, r);
    } else {
      RecordedAppend(db, stage.pending[0], stage.seen.intent, Some(stage.id), r);
      WritingAccounts(db, x, AppendEvent(db, stage.pending[0], stage.seen.intent, Some(stage.id)), r);
    }
  }

  lemma RedeemAccounts(db: Db, x: Proc, now: int, r: nat)
    requires InOrder(x) && ProcOk(db.receipts, |db.intents|, x) && x.request.Redeem?
    requires AdvanceRedeem(db, x, now).Some? && !x.stage.Logging?
    ensures var m := AdvanceRedeem(db, x, now).value;
            InOrder(m.proc) && Accounts(db, x, m.db, m.proc, r)
  {
  }

  lemma VerifyAccounts(db: Db, x: Proc, now: int, r: nat)
    requires ProcOk(db.receipts, |db.intents|, x) && x.request.Verify? && AdvanceVerify(db, x, now).Some?
    ensures var m := AdvanceVerify(db, x, now).value;
            InOrder(m.proc) && Accounts(db, x, m.db, m.proc, r)
  {
    if x.stage.VerifyLogging? {
      RecordedAppend(db, ReceiptVerified, db.receipts[x.stage.id].intent, Some(x.stage.id), r);
    }
  }

  lemma MoveAccounts(db: Db, x: Proc, now: int, r: nat)
    requires InOrder(x) && ProcOk(db.receipts, |db.intents|, x) && AdvanceProc(db, x, now).Some?
    ensures var m := AdvanceProc(db, x, now).value;
            InOrder(m.proc) && Accounts(db, x, m.db, m.proc, r)
  {
    if x.request.Verify? {
      VerifyAccounts(db, x, now, r);
    } else if x.stage.Logging? {
      LoggingAccounts(db, x, now, r);
    } else {
      RedeemAccounts(db, x, now, r);
    }
  }

  lemma MovedTrail(s: State, p: nat, db: Db, x: Proc)
    requires TrailOk(s) && p < |s.procs| && InOrder(x)
    requires forall r: nat :: Accounts(s.db, s.procs[p], db, x, r)
    ensures TrailOk(State(db, s.procs[p := x]))
  {
    var procs := s.procs[p := x];
    forall r: nat
      ensures Count(procs, Recording(r)) <= Recorded(db.events, r) <= Count(procs, PossiblyRecording(r))
    {
      CountUpdate(s.procs, p, x, Recording(r));
      CountUpdate(s.procs, p, x, PossiblyRecording(r));
      assert Accounts(s.db, s.procs[p], db, x, r);
    }
  }

  lemma ArrivalTrail(s: State, q: Request)
    requires TrailOk(s)
    ensures TrailOk(s.(procs := s.procs + [Proc(q, Started, None)]))
  {
    var procs := s.procs + [Proc(q, Started, None)];
    assert procs[..|procs| - 1] == s.procs;
  }

  lemma TransactionTrail(s: State, db: Db)
    requires TrailOk(s) && forall r: nat :: Recorded(db.events, r) == Recorded(s.db.events, r)
    ensures TrailOk(s.(db := db))
  {
  }

  lemma CreateTrail(s: State, c: Call)
    requires TrailOk(s) && Perform(s.db, c).Committed?
    ensures TrailOk(s.(db := Perform(s.db, c).db))
  {
    forall r: nat
      ensures Recorded(Perform(s.db, c).db.events, r) == Recorded(s.db.events, r)
    {
      CreateRecordsNothing(s.db, c, r);
    }
    TransactionTrail(s, Perform(s.db, c).db);
  }

  lemma ReconcileTrail(s: State, rt: Runtime, i: nat, fiber: FiberReply, now: int, jti: string)
    requires TrailOk(s) && PoliciesExist(s.db) && Reconcile(s.db, rt, i, fiber, now, jti).Reconciled?
    ensures TrailOk(s.(db := Reconcile(s.db, rt, i, fiber, now, jti).db))
  {
    var db := Reconcile(s.db, rt, i, fiber, now, jti).db;
    forall r: nat
      ensures Recorded(db.events, r) == Recorded(s.db.events, r)
    {
      ReconcileRecordsNothing(s.db, rt, i, fiber, now, jti, r);
    }
    TransactionTrail(s, db);
  }

  lemma AdvanceTrail(s: State, p: nat, now: int)
    requires RunInv(s) && TrailOk(s) && p < |s.procs| && AdvanceProc(s.db, s.procs[p], now).Some?
    ensures var m := AdvanceProc(s.db, s.procs[p], now).value;
            TrailOk(State(m.db, s.procs[p := m.proc]))
  {
    var x := s.procs[p];
    var m := AdvanceProc(s.db, x, now).value;
    assert ProcOk(s.db.receipts, |s.db.intents|, x);
    forall r: nat
      ensures InOrder(m.proc) && Accounts(s.db, x, m.db, m.proc, r)
    {
      MoveAccounts(s.db, x, now, r);
    }
    MovedTrail(s, p, m.db, m.proc);
  }

  lemma StepKeepsTrail(s: State, e: Step)
    requires RunInv(s) && TrailOk(s) && Next(s, e).Some?
    ensures TrailOk(Next(s, e).value)
  {
    match e
    case Create(c) =>
      if Perform(s.db, c).Committed? {
        CreateTrail(s, c);
      }
    case ReconcileOne(rt, intent, fiber, now, jti) =>
      if Reconcile(s.db, rt, intent, fiber, now, jti).Reconciled? {
        ReconcileTrail(s, rt, intent, fiber, now, jti);
      }
    case Arrive(q) => ArrivalTrail(s, q);
    case Advance(p, now) => AdvanceTrail(s, p, now);
    case Crash(p) => CrashTrail(s, p);
  }

  /** Who writes: the events of a receipt only grow, by one at a time, and only by the next database call of a
      request that has won a use of that receipt and had not recorded it; after it, it has. */
  lemma RecordedByWinner(s: State, e: Step, r: nat)
    requires RunInv(s) && TrailOk(s) && Next(s, e).Some?
    ensures var s' := Next(s, e).value;
      Recorded(s'.db.events, r) != Recorded(s.db.events, r) ==>
        && Recorded(s'.db.events, r) == Recorded(s.db.events, r) + 1
        && e.Advance?
        && Wins(s.procs[e.p], r) && !HasRecorded(s.procs[e.p], r) && HasRecorded(s'.procs[e.p], r)
  {
    match e
    case Create(c) => CreateRecordsNothing(s.db, c, r);
    case ReconcileOne(rt, intent, fiber, now, jti) =>
      ReconcileRecordsNothing(s.db, rt, intent, fiber, now, jti, r);
    case Advance(p, now) =>
      assert ProcOk(s.db.receipts, |s.db.intents|, s.procs[p]);
      MoveRecords(s.db, s.procs[p], now, r);
    case Arrive(_) =>
    case Crash(_) =>
  }

  lemma MoveRecords(db: Db, x: Proc, now: int, r: nat)
    requires InOrder(x) && ProcOk(db.receipts, |db.intents|, x) && AdvanceProc(db, x, now).Some?
    ensures var m := AdvanceProc(db, x, now).value;
      Recorded(m.db.events, r) != Recorded(db.events, r) ==>
        && Recorded(m.db.events, r) == Recorded(db.events, r) + 1
        && Wins(x, r) && !HasRecorded(x, r) && HasRecorded(m.proc, r)
  {
    if x.request.Verify? {
      VerifyRecordsNothing(db, x, now, r);
    } else if x.stage.Logging? {
      LoggingRecords(db, x, now, r);
    } else {
      OthersRecordNothing(db, x, now, r);
    }
  }

  lemma VerifyRecordsNothing(db: Db, x: Proc, now: int, r: nat)
    requires x.request.Verify? && AdvanceVerify(db, x, now).Some?
    ensures Recorded(AdvanceVerify(db, x, now).value.db.events, r) == Recorded(db.events, r)
  {
    if x.stage.VerifyLogging? {
      RecordedAppend(db, ReceiptVerified, db.receipts[x.stage.id].intent, Some(x.stage.id), r);
    }
  }

  lemma OthersRecordNothing(db: Db, x: Proc, now: int, r: nat)
    requires x.request.Redeem? && AdvanceRedeem(db, x, now).Some? && !x.stage.Logging?
    ensures Recorded(AdvanceRedeem(db, x, now).value.db.events, r) == Recorded(db.events, r)
  {
  }

  lemma LoggingRecords(db: Db, x: Proc, now: int, r: nat)
    requires InOrder(x) && x.request.Redeem? && x.stage.Logging? && Wins(x, x.stage.id)
    ensures var m := AdvanceRedeem(db, x, now).value;
      Recorded(m.db.events, r) != Recorded(db.events, r) ==>
        && Recorded(m.db.events, r) == Recorded(db.events, r) + 1
        && Wins(x, r) && !HasRecorded(x, r) && HasRecorded(m.proc, r)
  {
    if x.stage.pending != [] {
      RecordedAppend(db, x.stage.pending[0], x.stage.seen.intent, Some(x.stage.id), r);
    }
  }

  lemma CrashTrail(s: State, p: nat)
    requires RunInv(s) && TrailOk(s) && p < |s.procs|
    ensures TrailOk(s.(procs := s.procs[p := s.procs[p].(stage := Crashed)]))
  {
    var x := s.procs[p].(stage := Crashed);
    MovedTrail(s, p, s.db, x);
  }

  lemma {:induction false} RunKeepsTrail(s: State, steps: seq<Step>)
    requires RunInv(s) && TrailOk(s) && Run(s, steps).Some?
    ensures TrailOk(Run(s, steps).value)
    decreases |steps|
  {
    if steps != [] {
      StepKeepsInv(s, steps[0]);
      StepKeepsTrail(s, steps[0]);
      RunKeepsTrail(Next(s, steps[0]).value, steps[1..]);
    }
  }

  /** Over all runs, crashes included, the audit trail of every receipt lies between what was answered and
      what was used: each GRANTED response is recorded, and no more is recorded than its row counts. */
  lemma TrailIsHonest(steps: seq<Step>, r: nat)
    requires Run(EMPTY, steps).Some? && r < |Run(EMPTY, steps).value.db.receipts|
    ensures var s := Run(EMPTY, steps).value;
            CountGrants(s.procs, r) <= Recorded(s.db.events, r) <= s.db.receipts[r].count
  {
    EmptyIsOk();
    RunKeepsInv(EMPTY, steps);
    RunKeepsTrail(EMPTY, steps);
    RecordersBetween(Run(EMPTY, steps).value.procs, r);
  }
}
