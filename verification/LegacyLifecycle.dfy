/** What every committed transaction of the legacy service keeps. */
module LegacyLifecycle {
  import opened Basics
  import opened JsText
  import opened FiberStatus
  import opened LegacyDb

  /** An intent row up to the columns that transactions update. */
  predicate SameTerms(a: Intent, b: Intent) {
    a == b.(status := a.status, verifiedAt := a.verifiedAt, receiptIssuedAt := a.receiptIssuedAt,
            fiberResponse := a.fiberResponse)
  }

  /** Transactions only add policies, intents and unused receipts, and never touch an existing receipt. */
  predicate Extends(before: Db, after: Db) {
    && before.policies <= after.policies
    && |before.intents| <= |after.intents|
    && (forall i | 0 <= i < |before.intents| :: SameTerms(after.intents[i], before.intents[i]))
    && before.receipts <= after.receipts
    && (forall r | |before.receipts| <= r < |after.receipts| :: after.receipts[r].count == 0)
  }

  lemma CountAppended(events: seq<Event>, e: Event, kind: EventType, i: nat)
    ensures CountEvents(events + [e], kind, i)
         == CountEvents(events, kind, i) + if e.kind == kind && e.intent == i then 1 else 0
  {
    assert (events + [e])[..|events + [e]| - 1] == events;
  }

  lemma {:induction false} CountOfUnmentioned(events: seq<Event>, kind: EventType, i: nat)
    requires forall k | 0 <= k < |events| :: events[k].intent < i
    ensures CountEvents(events, kind, i) == 0
  {
    if events != [] {
      CountOfUnmentioned(events[..|events| - 1], kind, i);
    }
  }

  lemma AppendKeepsCore(db: Db, kind: EventType, i: nat, r: Option<nat>)
    requires CoreOk(db) && i < |db.intents|
    ensures CoreOk(AppendEvent(db, kind, i, r)) && Extends(db, AppendEvent(db, kind, i, r))
    ensures forall j | 0 <= j < |db.intents| && (kind != ReceiptIssuedEvent || j != i) ::
              LifecycleAt(AppendEvent(db, kind, i, r), j) <==> LifecycleAt(db, j)
    ensures CountEvents(AppendEvent(db, kind, i, r).events, ReceiptIssuedEvent, i)
         == CountEvents(db.events, ReceiptIssuedEvent, i) + if kind == ReceiptIssuedEvent then 1 else 0
  {
    forall j: nat
      ensures CountEvents(AppendEvent(db, kind, i, r).events, ReceiptIssuedEvent, j)
           == CountEvents(db.events, ReceiptIssuedEvent, j) + if kind == ReceiptIssuedEvent && i == j then 1 else 0
    {
      CountAppended(db.events, Event(kind, i, r), ReceiptIssuedEvent, j);
    }
  }

  lemma SetIntentKeepsCore(db: Db, i: nat, row: Intent)
    requires CoreOk(db) && i < |db.intents| && SameTerms(row, db.intents[i])
    ensures CoreOk(SetIntent(db, i, row)) && Extends(db, SetIntent(db, i, row))
    ensures forall j | 0 <= j < |db.intents| && j != i :: LifecycleAt(SetIntent(db, i, row), j) <==> LifecycleAt(db, j)
  {
    var db' := SetIntent(db, i, row);
    forall j | 0 <= j < |db.intents|
      ensures SameTerms(db'.intents[j], db.intents[j])
    {
    }
  }

  lemma ExtendsTransitive(a: Db, b: Db, c: Db)
    requires Extends(a, b) && Extends(b, c)
    ensures Extends(a, c)
  {
    forall i | 0 <= i < |a.intents|
      ensures SameTerms(c.intents[i], a.intents[i])
    {
      assert SameTerms(b.intents[i], a.intents[i]);
      assert SameTerms(c.intents[i], b.intents[i]);
    }
  }

  lemma InsertedReceiptCounts(receipts: seq<Receipt>, row: Receipt, j: nat)
    ensures HasReceipt(receipts + [row], j) <==> HasReceipt(receipts, j) || row.intent == j
  {
    var after := receipts + [row];
    assert after[|receipts|] == row;
    if r :| 0 <= r < |receipts| && receipts[r].intent == j {
      assert after[r].intent == j;
    }
  }

  lemma InsertedReceiptIsOk(db: Db, row: Receipt)
    requires CoreOk(db) && InsertReceipt(db, row).Some?
    requires row.intent < |db.intents| && RowOk(row) && row.count == 0
    requires Copies(row, db.intents[row.intent], db.policies[db.intents[row.intent].policy])
    ensures CoreOk(InsertReceipt(db, row).value) && Extends(db, InsertReceipt(db, row).value)
  {
  }

  lemma InsertReceiptKeepsCore(db: Db, i: nat, issuedAt: int, jti: string)
    requires CoreOk(db) && i < |db.intents|
    requires var row := ReceiptFor(db.intents[i], i, db.policies[db.intents[i].policy], issuedAt, jti);
             InsertReceipt(db, row).Some?
    ensures var row := ReceiptFor(db.intents[i], i, db.policies[db.intents[i].policy], issuedAt, jti);
            var db' := InsertReceipt(db, row).value;
      && CoreOk(db') && Extends(db, db') && HasReceipt(db'.receipts, i)
      && forall j | 0 <= j < |db.intents| && j != i :: LifecycleAt(db', j) <==> LifecycleAt(db, j)
  {
    var row := ReceiptFor(db.intents[i], i, db.policies[db.intents[i].policy], issuedAt, jti);
    InsertedReceiptIsOk(db, row);
    InsertedReceiptCounts(db.receipts, row, i);
    forall j | 0 <= j < |db.intents| && j != i
      ensures HasReceipt(db.receipts + [row], j) <==> HasReceipt(db.receipts, j)
    {
      InsertedReceiptCounts(db.receipts, row, j);
    }
  }

  /** Everything but intent `i` is in order, and `i` has as many issue events as receipts. */
  predicate OnlyStatusOff(db: Db, i: nat)
    requires i < |db.intents|
  {
    && (forall j | 0 <= j < |db.intents| && j != i :: LifecycleAt(db, j))
    && CountEvents(db.events, ReceiptIssuedEvent, i) == if HasReceipt(db.receipts, i) then 1 else 0
  }

  lemma MarkIssuedKeepsInv(db: Db, i: nat, at: int)
    requires CoreOk(db) && i < |db.intents| && OnlyStatusOff(db, i) && HasReceipt(db.receipts, i)
    ensures Inv(MarkIssued(db, i, at)) && Extends(db, MarkIssued(db, i, at))
  {
    SetIntentKeepsCore(db, i, MarkIssued(db, i, at).intents[i]);
  }

  /** The database after a fresh receipt is inserted, its intent marked, and its two events written. */
  function Issued4(db1: Db, i: nat, r: nat, at: int): Db
    requires i < |db1.intents|
  {
    AppendEvent(AppendEvent(MarkIssued(db1, i, at), IntentVerified, i, Some(r)), ReceiptIssuedEvent, i, Some(r))
  }

  lemma FinishIssue(db1: Db, i: nat, r: nat, at: int)
    requires CoreOk(db1) && i < |db1.intents| && HasReceipt(db1.receipts, i)
    requires forall j | 0 <= j < |db1.intents| && j != i :: LifecycleAt(db1, j)
    requires CountEvents(db1.events, ReceiptIssuedEvent, i) == 0
    ensures Inv(Issued4(db1, i, r, at)) && Extends(db1, Issued4(db1, i, r, at))
  {
    var db2 := MarkIssued(db1, i, at);
    SetIntentKeepsCore(db1, i, db2.intents[i]);
    var db3 := AppendEvent(db2, IntentVerified, i, Some(r));
    AppendKeepsCore(db2, IntentVerified, i, Some(r));
    ExtendsTransitive(db1, db2, db3);
    var db4 := AppendEvent(db3, ReceiptIssuedEvent, i, Some(r));
    AppendKeepsCore(db3, ReceiptIssuedEvent, i, Some(r));
    ExtendsTransitive(db1, db3, db4);
    assert LifecycleAt(db4, i);
  }

  /** Issuing changes no intent but the one it is asked about, and adds at most one receipt, for it. */
  lemma IssueTouchesOne(db: Db, rt: Runtime, i: nat, issuedAt: int, jti: string)
    requires i < |db.intents| && db.intents[i].policy < |db.policies|
    ensures var done := IssueReceipt(db, rt, i, issuedAt, jti);
      done.IssueDone? ==>
        && |done.db.intents| == |db.intents|
        && (forall j | 0 <= j < |db.intents| && j != i :: done.db.intents[j] == db.intents[j])
        && db.receipts <= done.db.receipts && |done.db.receipts| <= |db.receipts| + 1
        && (forall r | |db.receipts| <= r < |done.db.receipts| :: done.db.receipts[r].intent == i)
  {
  }

  /** Issuing repairs the lifecycle of the one intent it is asked about. */
  lemma IssueKeepsInv(db: Db, rt: Runtime, i: nat, issuedAt: int, jti: string)
    requires CoreOk(db) && i < |db.intents| && OnlyStatusOff(db, i)
    requires HasReceipt(db.receipts, i) && db.intents[i].status == ReceiptIssued ==> Inv(db)
    ensures var done := IssueReceipt(db, rt, i, issuedAt, jti);
            done.IssueDone? ==>
              && Inv(done.db) && Extends(db, done.db)
              && done.receipt < |done.db.receipts| && done.db.receipts[done.receipt].intent == i
  {
    var existing := FindReceiptOf(db.receipts, i);
    if existing.Some? {
      assert HasReceipt(db.receipts, i);
      if db.intents[i].status != ReceiptIssued {
        MarkIssuedKeepsInv(db, i, db.receipts[existing.value].issuedAt);
      }
    } else {
      assert !HasReceipt(db.receipts, i);
      FreshIssueKeepsInv(db, i, issuedAt, jti);
    }
  }

  lemma FreshIssueKeepsInv(db: Db, i: nat, issuedAt: int, jti: string)
    requires CoreOk(db) && i < |db.intents| && OnlyStatusOff(db, i) && !HasReceipt(db.receipts, i)
    ensures var row := ReceiptFor(db.intents[i], i, db.policies[db.intents[i].policy], issuedAt, jti);
            var inserted := InsertReceipt(db, row);
            inserted.Some? ==>
              var done := Issued4(inserted.value, i, |db.receipts|, issuedAt);
              && Inv(done) && Extends(db, done)
              && |db.receipts| < |done.receipts| && done.receipts[|db.receipts|].intent == i
  {
    var row := ReceiptFor(db.intents[i], i, db.policies[db.intents[i].policy], issuedAt, jti);
    var inserted := InsertReceipt(db, row);
    if inserted.Some? {
      InsertReceiptKeepsCore(db, i, issuedAt, jti);
      FinishIssue(inserted.value, i, |db.receipts|, issuedAt);
      ExtendsTransitive(db, inserted.value, Issued4(inserted.value, i, |db.receipts|, issuedAt));
    }
  }

  lemma EnsureKeepsInv(db: Db, r: Resource, rt: Runtime)
    requires Inv(db) && ValidRuntime(rt)
    ensures var e := EnsurePolicy(db, r, rt);
      && Inv(e.db) && Extends(db, e.db) && e.policy < |e.db.policies|
      && e.db.policies[e.policy].resource == r && e.db.intents == db.intents
      && e.db.receipts == db.receipts && e.db.events == db.events
  {
    var e := EnsurePolicy(db, r, rt);
    forall j | 0 <= j < |db.intents|
      ensures LifecycleAt(e.db, j)
    {
      assert LifecycleAt(db, j);
    }
  }

  /** A new intent has neither receipt nor events. */
  lemma InsertIntentKeepsCore(db: Db, row: Intent)
    requires Inv(db) && InsertIntent(db, row).Some?
    requires row.policy < |db.policies| && db.policies[row.policy].resource == row.resource
    ensures var db' := InsertIntent(db, row).value;
      && CoreOk(db') && Extends(db, db') && |db'.intents| == |db.intents| + 1 && db'.intents[|db.intents|] == row
      && !HasReceipt(db'.receipts, |db.intents|)
      && CountEvents(db'.events, ReceiptIssuedEvent, |db.intents|) == 0
      && forall j | 0 <= j < |db.intents| :: LifecycleAt(db', j)
  {
    var db' := InsertIntent(db, row).value;
    CountOfUnmentioned(db.events, ReceiptIssuedEvent, |db.intents|);
    forall j | 0 <= j < |db.intents|
      ensures LifecycleAt(db', j)
    {
      assert LifecycleAt(db, j);
    }
  }

  lemma ResolveKeepsInv(db: Db, rt: Runtime, i: nat, v: Option<FiberVerification>, later: int, jti: string)
    requires CoreOk(db) && i < |db.intents| && OnlyStatusOff(db, i) && !HasReceipt(db.receipts, i)
    requires db.intents[i].status == ReceiptIssued <==> rt.mode == Fake && MappingOf(v).shouldIssue
    ensures var done := Resolve(db, rt, i, v, later, jti);
            done.Committed? ==> Inv(done.db) && Extends(db, done.db)
  {
    MappingIsCoherent(if v.None? then None else RawStatusOf(v.value));
    var m := MappingOf(v);
    if m.state == ExpiredState {
      EndIntentKeepsInv(db, db, i, IntentExpiredEvent, IntentExpired);
    } else if m.state == FailedState {
      EndIntentKeepsInv(db, db, i, IntentRejected, Rejected);
    } else if v.None? || !m.shouldIssue || rt.mode == Real {
      assert LifecycleAt(db, i);
      AppendKeepsCore(db, IntentVerified, i, None);
    } else {
      IssueKeepsInv(db, rt, i, SettledOr(v, later), jti);
    }
  }

  /** Intent `i` was just added to `db0`: it has neither receipt nor issue event yet. */
  predicate Fresh(db0: Db, db: Db, i: nat, row: Intent) {
    && CoreOk(db) && Extends(db0, db) && |db.intents| == i + 1 && db.intents[i] == row
    && OnlyStatusOff(db, i) && !HasReceipt(db.receipts, i)
  }

  lemma AppendKeepsFresh(db0: Db, db: Db, i: nat, row: Intent, kind: EventType)
    requires Fresh(db0, db, i, row) && kind != ReceiptIssuedEvent
    ensures Fresh(db0, AppendEvent(db, kind, i, None), i, row)
  {
    AppendKeepsCore(db, kind, i, None);
    ExtendsTransitive(db0, db, AppendEvent(db, kind, i, None));
  }

  /** The new intent and the events that announce it. */
  lemma AnnounceKeepsCore(db: Db, row: Intent, v: Option<FiberVerification>)
    requires Inv(db) && InsertIntent(db, row).Some?
    requires row.policy < |db.policies| && db.policies[row.policy].resource == row.resource
    ensures var i := |db.intents|;
            Fresh(db, NotePending(AppendEvent(InsertIntent(db, row).value, IntentCreated, i, None), i, v), i, row)
  {
    InsertIntentKeepsCore(db, row);
    var i := |db.intents|;
    var db1 := InsertIntent(db, row).value;
    AppendKeepsFresh(db, db1, i, row, IntentCreated);
    AppendKeepsFresh(db, AppendEvent(db1, IntentCreated, i, None), i, row, IntentPaymentPending);
  }

  lemma ResolveShape(db: Db, rt: Runtime, i: nat, v: Option<FiberVerification>, later: int, jti: string)
    requires i < |db.intents| && db.intents[i].policy < |db.policies|
    ensures var done := Resolve(db, rt, i, v, later, jti);
            done.Committed? ==>
              && |done.db.intents| == |db.intents| && done.intent == i && done.created
              && SameTerms(done.db.intents[i], db.intents[i])
  {
  }

  /** The transaction from the insert on, over a database that has the policy. */
  lemma StoreIntentKeepsInv(db: Db, row: Intent, rt: Runtime, v: Option<FiberVerification>, later: int, jti: string)
    requires Inv(db)
    requires row.policy < |db.policies| && db.policies[row.policy].resource == row.resource
    requires row.status == ReceiptIssued <==> rt.mode == Fake && MappingOf(v).shouldIssue
    ensures var done := StoreIntent(db, row, rt, v, later, jti);
            done.Committed? ==>
              && Inv(done.db) && Extends(db, done.db) && done.created
              && done.intent == |db.intents| && |done.db.intents| == |db.intents| + 1
              && SameTerms(done.db.intents[done.intent], row)
  {
    if InsertIntent(db, row).Some? {
      var i := |db.intents|;
      var db1 := NotePending(AppendEvent(InsertIntent(db, row).value, IntentCreated, i, None), i, v);
      AnnounceKeepsCore(db, row, v);
      ResolveShape(db1, rt, i, v, later, jti);
      ResolveKeepsInv(db1, rt, i, v, later, jti);
      var done := Resolve(db1, rt, i, v, later, jti);
      if done.Committed? {
        ExtendsTransitive(db, db1, done.db);
      }
    }
  }

  lemma NewIntentStatus(input: CreateInput, rt: Runtime, policy: nat, p: Policy,
                        v: Option<FiberVerification>, now: int, later: int)
    ensures NewIntent(input, rt, policy, p, v, now, later).status == ReceiptIssued
            <==> rt.mode == Fake && MappingOf(v).shouldIssue
  {
    MappingIsCoherent(if v.None? then None else RawStatusOf(v.value));
  }

  /** Creating an intent, whatever the Fiber node answers, keeps the invariant when it commits; a newly
      created intent carries the trimmed key and payment reference it was asked for. */
  lemma CreateKeepsInv(db: Db, input: CreateInput, rt: Runtime, fiber: FiberReply, now: int, later: int, jti: string)
    requires Inv(db) && ValidRuntime(rt)
    ensures var done := CreateIntent(db, input, rt, fiber, now, later, jti);
            done.Committed? ==>
              && Inv(done.db) && Extends(db, done.db) && done.intent < |done.db.intents|
              && (done.created ==>
                    && done.intent == |db.intents| && |done.db.intents| == |db.intents| + 1
                    && done.db.intents[done.intent].idempotencyKey == Trimmed(input.idempotencyKey)
                    && done.db.intents[done.intent].paymentRef == Trimmed(input.paymentRef))
  {
    var done := CreateIntent(db, input, rt, fiber, now, later, jti);
    if done.Committed? && !(Truthy(Trimmed(input.idempotencyKey))
                            && FindByKey(db.intents, Trimmed(input.idempotencyKey).value).Some?) {
      var e := EnsurePolicy(db, input.resource, rt);
      EnsureKeepsInv(db, input.resource, rt);
      var v := if Truthy(Trimmed(input.paymentRef)) then Some(fiber.v) else None;
      var p := e.db.policies[e.policy];
      var row := NewIntent(input, rt, e.policy, p, v, now, later);
      NewIntentStatus(input, rt, e.policy, p, v, now, later);
      StoreIntentKeepsInv(e.db, row, rt, v, later, jti);
      ExtendsTransitive(db, e.db, done.db);
    }
  }

  /** Ending an intent that has no receipt. */
  lemma EndIntentKeepsInv(db0: Db, db: Db, i: nat, kind: EventType, status: IntentStatus)
    requires CoreOk(db) && Extends(db0, db) && i < |db.intents|
    requires OnlyStatusOff(db, i) && !HasReceipt(db.receipts, i)
    requires kind != ReceiptIssuedEvent && status != ReceiptIssued
    ensures var db' := MarkStatus(AppendEvent(db, kind, i, None), i, status);
            Inv(db') && Extends(db0, db')
  {
    var db1 := AppendEvent(db, kind, i, None);
    AppendKeepsCore(db, kind, i, None);
    var db2 := MarkStatus(db1, i, status);
    SetIntentKeepsCore(db1, i, db1.intents[i].(status := status));
    ExtendsTransitive(db0, db, db1);
    ExtendsTransitive(db0, db1, db2);
    forall j | 0 <= j < |db2.intents|
      ensures LifecycleAt(db2, j)
    {
      if j != i {
        assert LifecycleAt(db1, j);
      }
    }
  }

  lemma NoteResponseKeepsInv(db: Db, i: nat, v: FiberVerification)
    requires Inv(db) && i < |db.intents|
    ensures var db1 := SetIntent(db, i, db.intents[i].(fiberResponse := Some(v)));
            Inv(db1) && Extends(db, db1)
  {
    var row := db.intents[i].(fiberResponse := Some(v));
    SetIntentKeepsCore(db, i, row);
    assert LifecycleAt(db, i);
    assert LifecycleAt(SetIntent(db, i, row), i);
  }

  /** The transaction's answer to a Fiber verdict, once the response is noted. */
  lemma SettleKeepsInv(db0: Db, db: Db, rt: Runtime, i: nat, state: Normalized, at: int, jti: string)
    requires Inv(db) && Extends(db0, db) && i < |db.intents|
    requires !HasReceipt(db.receipts, i) && db.intents[i].status != ReceiptIssued
    ensures var done := Settle(db, rt, i, state, at, jti);
            done.Reconciled? ==> Inv(done.db) && Extends(db0, done.db)
  {
    assert LifecycleAt(db, i);
    match state
    case ExpiredState => EndIntentKeepsInv(db0, db, i, IntentExpiredEvent, IntentExpired);
    case FailedState => EndIntentKeepsInv(db0, db, i, IntentRejected, Rejected);
    case PaidVerified => IssueFurther(db0, db, rt, i, at, jti);
    case _ =>
  }

  lemma IssueFurther(db0: Db, db: Db, rt: Runtime, i: nat, at: int, jti: string)
    requires CoreOk(db) && Extends(db0, db) && i < |db.intents|
    requires OnlyStatusOff(db, i) && !HasReceipt(db.receipts, i)
    ensures var issued := IssueReceipt(db, rt, i, at, jti);
            issued.IssueDone? ==> Inv(issued.db) && Extends(db0, issued.db)
  {
    IssueKeepsInv(db, rt, i, at, jti);
    var issued := IssueReceipt(db, rt, i, at, jti);
    if issued.IssueDone? {
      ExtendsTransitive(db0, db, issued.db);
    }
  }

  /** Reconciling any intent, whatever the Fiber node answers, keeps the invariant when it commits. */
  lemma ReconcileKeepsInv(db: Db, rt: Runtime, i: nat, fiber: FiberReply, now: int, jti: string)
    requires Inv(db)
    ensures var done := Reconcile(db, rt, i, fiber, now, jti);
            done.Reconciled? ==> Inv(done.db) && Extends(db, done.db)
  {
    if i < |db.intents| && !(FindReceiptOf(db.receipts, i).Some? && db.intents[i].status == ReceiptIssued) {
      assert LifecycleAt(db, i);
      if Truthy(db.intents[i].paymentRef) {
        if fiber.Reply? {
          NoteResponseKeepsInv(db, i, fiber.v);
          SettleKeepsInv(db, SetIntent(db, i, db.intents[i].(fiberResponse := Some(fiber.v))), rt, i,
            MapRawStatus(RawStatusOf(fiber.v)).state, SettledOr(Some(fiber.v), now), jti);
        }
      } else {
        EndIntentKeepsInv(db, db, i, IntentExpiredEvent, IntentExpired);
      }
    }
  }

  /** A replayed creation: once an intent holds a non-blank idempotency key, every later call with that key
      returns that intent and changes nothing at all, whatever payment, resource or subject it names,
      whatever the Fiber node would answer and whatever configuration is in force. */
  lemma ReplayedCreationIsInert(db: Db, i: nat, input: CreateInput, rt: Runtime, fiber: FiberReply,
                                now: int, later: int, jti: string)
    requires Inv(db) && i < |db.intents|
    requires input.idempotencyKey.Some? && Trim(input.idempotencyKey.value) != ""
    requires db.intents[i].idempotencyKey == Some(Trim(input.idempotencyKey.value))
    ensures CreateIntent(db, input, rt, fiber, now, later, jti) == Committed(db, i, false, None)
  {
    forall j | 0 <= j < |db.intents| && j != i
      ensures db.intents[j].idempotencyKey != db.intents[i].idempotencyKey
    {
    }
  }

  /** A blank key is trimmed to the empty string, is not looked up, but is stored under the unique index:
      while one such intent exists, every further creation with a blank key fails. */
  lemma BlankKeyBlocksTheNext(db: Db, i: nat, input: CreateInput, rt: Runtime, fiber: FiberReply,
                              now: int, later: int, jti: string)
    requires Inv(db) && i < |db.intents| && db.intents[i].idempotencyKey == Some("")
    requires input.idempotencyKey.Some? && Trim(input.idempotencyKey.value) == ""
    ensures CreateIntent(db, input, rt, fiber, now, later, jti) == Aborted
  {
    var e := EnsurePolicy(db, input.resource, rt);
    var v := if Truthy(Trimmed(input.paymentRef)) && fiber.Reply? then Some(fiber.v) else None;
    assert e.db.intents[i].idempotencyKey == Trimmed(input.idempotencyKey);
  }

  // ----- sequences of creation calls -----

  datatype Call = Call(input: CreateInput, rt: Runtime, fiber: FiberReply, now: int, later: int, jti: string)

  function Perform(db: Db, c: Call): CreateResult {
    CreateIntent(db, c.input, c.rt, c.fiber, c.now, c.later, c.jti)
  }

  /** The answers of consecutive calls; an aborted one leaves the database as it was. */
  function Results(db: Db, calls: seq<Call>): (rs: seq<CreateResult>)
    ensures |rs| == |calls|
    decreases |calls|
  {
    if calls == [] then []
    else
      var r := Perform(db, calls[0]);
      [r] + Results(if r.Committed? then r.db else db, calls[1..])
  }

  predicate ShareKey(calls: seq<Call>, key: string) {
    forall k | 0 <= k < |calls| ::
      ValidRuntime(calls[k].rt) && Trimmed(calls[k].input.idempotencyKey) == Some(key)
  }

  /** The answer to a call once its trimmed key is held: the holder's intent with nothing changed, unless the
      key is blank, which fails. */
  function Replayed(db: Db, i: nat, key: string): CreateResult {
    if key != "" then Committed(db, i, false, None) else Aborted
  }

  lemma HeldKeyReplays(db: Db, i: nat, c: Call, key: string)
    requires Inv(db) && i < |db.intents| && db.intents[i].idempotencyKey == Some(key)
    requires Trimmed(c.input.idempotencyKey) == Some(key)
    ensures Perform(db, c) == Replayed(db, i, key)
  {
    if key != "" {
      ReplayedCreationIsInert(db, i, c.input, c.rt, c.fiber, c.now, c.later, c.jti);
    } else {
      BlankKeyBlocksTheNext(db, i, c.input, c.rt, c.fiber, c.now, c.later, c.jti);
    }
  }

  lemma {:induction false} HeldKeyReplaysAll(db: Db, i: nat, calls: seq<Call>, key: string)
    requires Inv(db) && i < |db.intents| && db.intents[i].idempotencyKey == Some(key)
    requires ShareKey(calls, key)
    ensures forall k | 0 <= k < |calls| :: Results(db, calls)[k] == Replayed(db, i, key)
    decreases |calls|
  {
    if calls != [] {
      HeldKeyReplays(db, i, calls[0], key);
      HeldKeyReplaysAll(db, i, calls[1..], key);
      forall k | 0 <= k < |calls|
        ensures Results(db, calls)[k] == Replayed(db, i, key)
      {
        if k > 0 {
          assert Results(db, calls)[k] == Results(db, calls[1..])[k - 1];
        }
      }
    }
  }

  /** What every call after a committed one answers. */
  predicate AllReplay(rs: seq<CreateResult>, key: string) {
    forall a, b | 0 <= a < b < |rs| && rs[a].Committed? :: rs[b] == Replayed(rs[a].db, rs[a].intent, key)
  }

  lemma ReplayAfterFailure(rest: seq<CreateResult>, key: string)
    requires AllReplay(rest, key)
    ensures AllReplay([Aborted] + rest, key)
  {
    var rs := [Aborted] + rest;
    forall a, b | 0 <= a < b < |rs| && rs[a].Committed?
      ensures rs[b] == Replayed(rs[a].db, rs[a].intent, key)
    {
      assert a > 0 && rs[a] == rest[a - 1] && rs[b] == rest[b - 1];
    }
  }

  lemma ReplayAtOnce(r: CreateResult, rest: seq<CreateResult>, key: string)
    requires r.Committed? && forall k | 0 <= k < |rest| :: rest[k] == Replayed(r.db, r.intent, key)
    ensures AllReplay([r] + rest, key)
  {
    var rs := [r] + rest;
    forall a, b | 0 <= a < b < |rs| && rs[a].Committed?
      ensures rs[b] == Replayed(rs[a].db, rs[a].intent, key)
    {
      assert rs[b] == rest[b - 1];
      if a > 0 {
        assert rs[a] == rest[a - 1];
      }
    }
  }

  lemma {:induction false} SharedKeyReplays(db: Db, calls: seq<Call>, key: string)
    requires Inv(db) && ShareKey(calls, key)
    ensures AllReplay(Results(db, calls), key)
    decreases |calls|
  {
    if calls != [] {
      var c := calls[0];
      var r := Perform(db, c);
      if r.Committed? {
        CreateKeepsInv(db, c.input, c.rt, c.fiber, c.now, c.later, c.jti);
        CreatedHoldsKey(db, c, key);
        HeldKeyReplaysAll(r.db, r.intent, calls[1..], key);
        ReplayAtOnce(r, Results(r.db, calls[1..]), key);
      } else {
        SharedKeyReplays(db, calls[1..], key);
        ReplayAfterFailure(Results(db, calls[1..]), key);
      }
    }
  }

  /** Whether it found the intent or created it, a committed call returns one that holds its key. */
  lemma CreatedHoldsKey(db: Db, c: Call, key: string)
    requires Inv(db) && ValidRuntime(c.rt)
    requires Trimmed(c.input.idempotencyKey) == Some(key) && Perform(db, c).Committed?
    ensures var r := Perform(db, c);
            r.intent < |r.db.intents| && r.db.intents[r.intent].idempotencyKey == Some(key)
  {
    CreateKeepsInv(db, c.input, c.rt, c.fiber, c.now, c.later, c.jti);
  }

  /** Once a call has committed, every later one returns its intent and changes nothing after it. */
  predicate OneCreation(rs: seq<CreateResult>) {
    forall a, b | 0 <= a < b < |rs| && rs[a].Committed? :: rs[b] == Committed(rs[a].db, rs[a].intent, false, None)
  }

  /** In any sequence of creation calls that share a trimmed key, from the first call that commits on, every
      call returns its intent and leaves the database, events included, exactly as it left it, if and only if
      the key is not blank (or no call follows). A blank key makes every later call fail instead. */
  lemma {:induction false} SharedKeyCreatesOnceIff(db: Db, calls: seq<Call>, key: string, first: nat)
    requires Inv(db) && ShareKey(calls, key)
    requires first < |calls| && Results(db, calls)[first].Committed?
    ensures AllReplay(Results(db, calls), key)
    ensures OneCreation(Results(db, calls)[first..]) <==> key != "" || first == |calls| - 1
  {
    SharedKeyReplays(db, calls, key);
    var rs := Results(db, calls)[first..];
    assert rs[0] == Results(db, calls)[first];
    forall a, b | 0 <= a < b < |rs| && rs[a].Committed?
      ensures rs[b] == Replayed(rs[a].db, rs[a].intent, key)
    {
      assert rs[a] == Results(db, calls)[first + a] && rs[b] == Results(db, calls)[first + b];
    }
    if first < |calls| - 1 {
      assert rs[1] == Replayed(rs[0].db, rs[0].intent, key);
    }
  }
}
