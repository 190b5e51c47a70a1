/** No receipt without payment: "unknown or ambiguous status never issues a receipt"
    (docs/state-machine.md:78-79, src/services/fiber-latch-service.ts:318-349, 662-784). */
module LegacyPayments {
  import opened Basics
  import opened FiberStatus
  import opened LegacyDb
  import opened LegacyLifecycle
  import opened LegacyRuns
  import opened LegacyVerdicts

  /** The intent names a payment, and the stored answer of the Fiber node says that it was paid. */
  predicate PaidIntent(i: Intent) {
    && i.paymentRef.Some? && i.paymentRef.value != ""
    && i.fiberResponse.Some? && SaysPaid(i.fiberResponse.value)
  }

  /** Every receipt belongs to a paid intent. */
  predicate AllPaid(db: Db) {
    forall r | 0 <= r < |db.receipts| ::
      db.receipts[r].intent < |db.intents| && PaidIntent(db.intents[db.receipts[r].intent])
  }

  /** The columns that payment is read from. */
  predicate SamePayment(a: Intent, b: Intent) {
    a.paymentRef == b.paymentRef && a.fiberResponse == b.fiberResponse
  }

  /** Receipts were not added, and intents that have one keep what was paid for them. */
  lemma PaidAfter(db: Db, db1: Db)
    requires AllPaid(db) && |db1.receipts| == |db.receipts| && |db.intents| <= |db1.intents|
    requires forall r | 0 <= r < |db.receipts| ::
               db1.receipts[r].intent == db.receipts[r].intent
               && SamePayment(db1.intents[db.receipts[r].intent], db.intents[db.receipts[r].intent])
    ensures AllPaid(db1)
  {
    forall r | 0 <= r < |db1.receipts|
      ensures db1.receipts[r].intent < |db1.intents| && PaidIntent(db1.intents[db1.receipts[r].intent])
    {
      assert PaidIntent(db.intents[db.receipts[r].intent]);
    }
  }

  /** Issuing for a paid intent. */
  lemma IssueKeepsPaid(db: Db, rt: Runtime, i: nat, at: int, jti: string)
    requires AllPaid(db) && i < |db.intents| && db.intents[i].policy < |db.policies| && PaidIntent(db.intents[i])
    ensures var done := IssueReceipt(db, rt, i, at, jti);
            done.IssueDone? ==> AllPaid(done.db)
  {
    var done := IssueReceipt(db, rt, i, at, jti);
    if done.IssueDone? {
      IssueTouchesOne(db, rt, i, at, jti);
      assert SamePayment(done.db.intents[i], db.intents[i]);
      forall r | 0 <= r < |done.db.receipts|
        ensures done.db.receipts[r].intent < |done.db.intents|
        ensures PaidIntent(done.db.intents[done.db.receipts[r].intent])
      {
        if r < |db.receipts| {
          assert done.db.receipts[r] == db.receipts[r] && PaidIntent(db.intents[db.receipts[r].intent]);
        }
      }
    }
  }

  lemma EndKeepsPaid(db: Db, i: nat, kind: EventType, status: IntentStatus)
    requires AllPaid(db) && i < |db.intents|
    ensures AllPaid(MarkStatus(AppendEvent(db, kind, i, None), i, status))
  {
    PaidAfter(db, MarkStatus(AppendEvent(db, kind, i, None), i, status));
  }

  lemma SettleKeepsPaid(db: Db, rt: Runtime, i: nat, state: Normalized, at: int, jti: string)
    requires AllPaid(db) && i < |db.intents| && db.intents[i].policy < |db.policies|
    requires state == PaidVerified ==> PaidIntent(db.intents[i])
    ensures var done := Settle(db, rt, i, state, at, jti);
            done.Reconciled? ==> AllPaid(done.db)
  {
    match state
    case PaidVerified => IssueKeepsPaid(db, rt, i, at, jti);
    case ExpiredState => EndKeepsPaid(db, i, IntentExpiredEvent, IntentExpired);
    case FailedState => EndKeepsPaid(db, i, IntentRejected, Rejected);
    case _ =>
  }

  lemma ReconcileKeepsPaid(db: Db, rt: Runtime, i: nat, fiber: FiberReply, now: int, jti: string)
    requires Inv(db) && AllPaid(db)
    ensures var done := Reconcile(db, rt, i, fiber, now, jti);
            done.Reconciled? ==> AllPaid(done.db)
  {
    if i < |db.intents| && !(FindReceiptOf(db.receipts, i).Some? && db.intents[i].status == ReceiptIssued) {
      assert LifecycleAt(db, i);
      if !Truthy(db.intents[i].paymentRef) {
        EndKeepsPaid(db, i, IntentExpiredEvent, IntentExpired);
      } else if fiber.Reply? {
        assert !HasReceipt(db.receipts, i);
        var noted := SetIntent(db, i, db.intents[i].(fiberResponse := Some(fiber.v)));
        PaidAfter(db, noted);
        VerdictIff(fiber.v);
        SettleKeepsPaid(noted, rt, i, MapRawStatus(RawStatusOf(fiber.v)).state, SettledOr(Some(fiber.v), now), jti);
      }
    }
  }

  lemma ResolveKeepsPaid(db: Db, rt: Runtime, i: nat, v: Option<FiberVerification>, later: int, jti: string)
    requires AllPaid(db) && i < |db.intents| && db.intents[i].policy < |db.policies|
    requires v.Some? && MappingOf(v).state == PaidVerified ==> PaidIntent(db.intents[i])
    ensures var done := Resolve(db, rt, i, v, later, jti);
            done.Committed? ==> AllPaid(done.db)
  {
    var m := MappingOf(v);
    MappingIsCoherent(if v.None? then None else RawStatusOf(v.value));
    if m.state == ExpiredState {
      EndKeepsPaid(db, i, IntentExpiredEvent, IntentExpired);
    } else if m.state == FailedState {
      EndKeepsPaid(db, i, IntentRejected, Rejected);
    } else if v.None? || !m.shouldIssue || rt.mode == Real {
      PaidAfter(db, AppendEvent(db, IntentVerified, i, None));
    } else {
      IssueKeepsPaid(db, rt, i, SettledOr(v, later), jti);
    }
  }

  lemma StoreKeepsPaid(db: Db, row: Intent, rt: Runtime, v: Option<FiberVerification>, later: int, jti: string)
    requires AllPaid(db) && row.policy < |db.policies|
    requires row.fiberResponse == v && (v.Some? ==> Truthy(row.paymentRef))
    ensures var done := StoreIntent(db, row, rt, v, later, jti);
            done.Committed? ==> AllPaid(done.db)
  {
    var inserted := InsertIntent(db, row);
    if inserted.Some? {
      var i := |db.intents|;
      var noted := NotePending(AppendEvent(inserted.value, IntentCreated, i, None), i, v);
      PaidAfter(db, noted);
      if v.Some? {
        VerdictIff(v.value);
      }
      ResolveKeepsPaid(noted, rt, i, v, later, jti);
    }
  }

  lemma CreateKeepsPaid(db: Db, c: Call)
    requires AllPaid(db)
    ensures Perform(db, c).Committed? ==> AllPaid(Perform(db, c).db)
  {
    var key := Trimmed(c.input.idempotencyKey);
    var asks := Truthy(Trimmed(c.input.paymentRef));
    if !(Truthy(key) && FindByKey(db.intents, key.value).Some?) && !(asks && c.fiber.FiberThrows?) {
      var e := EnsurePolicy(db, c.input.resource, c.rt);
      PaidAfter(db, e.db);
      var v := if asks then Some(c.fiber.v) else None;
      StoreKeepsPaid(e.db, NewIntent(c.input, c.rt, e.policy, e.db.policies[e.policy], v, c.now, c.later),
        c.rt, v, c.later, c.jti);
    }
  }

  lemma AdvanceKeepsPaid(s: State, p: nat, now: int)
    requires RunInv(s) && AllPaid(s.db) && Next(s, Advance(p, now)).Some?
    ensures AllPaid(Next(s, Advance(p, now)).value.db)
  {
    AdvanceKeepsInv(s, p, now);
    var db, db1 := s.db, Next(s, Advance(p, now)).value.db;
    RequestsKeepTables(db, s.procs[p], now);
    forall r | 0 <= r < |db.receipts|
      ensures db1.receipts[r].intent == db.receipts[r].intent
    {
      assert LaterRow(db1.receipts[r], db.receipts[r]);
    }
    PaidAfter(db, db1);
  }

  lemma StepKeepsPaid(s: State, e: Step)
    requires RunInv(s) && AllPaid(s.db) && Next(s, e).Some?
    ensures AllPaid(Next(s, e).value.db)
  {
    match e
    case Create(c) => CreateKeepsPaid(s.db, c);
    case ReconcileOne(rt, intent, fiber, now, jti) => ReconcileKeepsPaid(s.db, rt, intent, fiber, now, jti);
    case Advance(p, now) => AdvanceKeepsPaid(s, p, now);
    case Arrive(_) =>
    case Crash(_) =>
  }

  lemma {:induction false} RunKeepsPaid(s: State, steps: seq<Step>)
    requires RunInv(s) && AllPaid(s.db) && Run(s, steps).Some?
    ensures AllPaid(Run(s, steps).value.db)
    decreases |steps|
  {
    if steps != [] {
      StepKeepsInv(s, steps[0]);
      StepKeepsPaid(s, steps[0]);
      RunKeepsPaid(Next(s, steps[0]).value, steps[1..]);
    }
  }

  /** Over all runs, every receipt belongs to an intent that names a payment and whose stored Fiber answer says
      paid; and so does the receipt behind every GRANTED response. */
  lemma NoReceiptWithoutPayment(steps: seq<Step>)
    requires Run(EMPTY, steps).Some?
    ensures var s := Run(EMPTY, steps).value;
      && AllPaid(s.db)
      && (forall p | 0 <= p < |s.procs| && s.procs[p].stage.Granted? ::
            var r := s.procs[p].stage.id;
            r < |s.db.receipts| && s.db.receipts[r].intent < |s.db.intents|
            && PaidIntent(s.db.intents[s.db.receipts[r].intent]))
  {
    EmptyIsOk();
    RunKeepsInv(EMPTY, steps);
    RunKeepsPaid(EMPTY, steps);
    var s := Run(EMPTY, steps).value;
    forall p | 0 <= p < |s.procs| && s.procs[p].stage.Granted?
      ensures s.procs[p].stage.id < |s.db.receipts|
    {
      assert ProcOk(s.db.receipts, |s.db.intents|, s.procs[p]);
    }
  }
}
