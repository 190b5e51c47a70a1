/** One worker's pass over the open intents (src/services/fiber-latch-service.ts:623-656,
    src/repositories/access-intent-repository.ts:80-103). */
module Reconciliation {
  import opened Basics
  import opened FiberStatus
  import opened LegacyDb
  import opened LegacyLifecycle

  datatype Summary = Summary(
    inspected: int, verified: int, receiptsIssued: int, expired: int, rejected: int, pending: int)

  const ZERO_SUMMARY := Summary(0, 0, 0, 0, 0, 0)

  /** What the pass meets at each intent: the node's reply, the clock, and the identity a receipt would get. */
  datatype World = World(fiber: nat -> FiberReply, clock: nat -> int, jti: nat -> string)

  predicate Reconcilable(db: Db, i: nat)
    requires i < |db.intents|
  {
    db.intents[i].status == Pending || (db.intents[i].status == Verified && !HasReceipt(db.receipts, i))
  }

  /** The reconcilable intents among the first `n`, oldest first. */
  function ListUpTo(db: Db, n: nat): seq<nat>
    requires n <= |db.intents|
  {
    if n == 0 then [] else ListUpTo(db, n - 1) + if Reconcilable(db, n - 1) then [n - 1] else []
  }

  /** `listReconcilableAccessIntents`: positions are creation order. */
  function List(db: Db): seq<nat> {
    ListUpTo(db, |db.intents|)
  }

  function Tally(s: Summary, o: ReconcileOutcome): Summary {
    var s1 := s.(inspected := s.inspected + 1);
    match o
    case OutVerified => s1.(verified := s1.verified + 1, receiptsIssued := s1.receiptsIssued + 1)
    case OutExpired => s1.(expired := s1.expired + 1)
    case OutRejected => s1.(rejected := s1.rejected + 1)
    case OutPending => s1.(pending := s1.pending + 1)
  }

  /** `PassFailed` is the thrown error of a transaction; the earlier ones stay committed. */
  datatype PassResult = PassFailed(db: Db) | PassDone(db: Db, summary: Summary)

  function At(db: Db, rt: Runtime, i: nat, w: World): ReconcileResult
    requires Inv(db)
  {
    Reconcile(db, rt, i, w.fiber(i), w.clock(i), w.jti(i))
  }

  /** The loop over the remaining candidates. */
  function Pass(db: Db, rt: Runtime, ids: seq<nat>, w: World, s: Summary): PassResult
    requires Inv(db)
    decreases |ids|
  {
    if ids == [] then PassDone(db, s)
    else
      match At(db, rt, ids[0], w)
      case ReconcileFailed => PassFailed(db)
      case Reconciled(db1, o) =>
        ReconcileKeepsInv(db, rt, ids[0], w.fiber(ids[0]), w.clock(ids[0]), w.jti(ids[0]));
        Pass(db1, rt, ids[1..], w, Tally(s, o))
  }

  function ReconcileOpen(db: Db, rt: Runtime, w: World): PassResult
    requires Inv(db)
  {
    Pass(db, rt, List(db), w, ZERO_SUMMARY)
  }

  // ----- one transaction -----

  /** An intent whose transaction changes nothing and reports PENDING, given these answers. */
  predicate Quiet(row: Intent, i: nat, w: World) {
    if !Truthy(row.paymentRef) then !(row.expiresAt.Some? && row.expiresAt.value <= w.clock(i))
    else
      && w.fiber(i).Reply? && row.fiberResponse == Some(w.fiber(i).v)
      && MapRawStatus(RawStatusOf(w.fiber(i).v)).state in {Waiting, PaymentPending, UnknownState}
  }

  lemma QuietIsInert(db: Db, rt: Runtime, i: nat, w: World)
    requires Inv(db) && i < |db.intents| && Reconcilable(db, i) && Quiet(db.intents[i], i, w)
    ensures At(db, rt, i, w) == Reconciled(db, OutPending)
  {
    var row := db.intents[i];
    if Truthy(row.paymentRef) {
      assert row.(fiberResponse := Some(w.fiber(i).v)) == row;
      assert db.intents[i := row] == db.intents;
      assert SetIntent(db, i, row) == db;
    }
  }

  /** No other intent is touched, and no other intent gains a receipt. */
  predicate LeavesOthers(db: Db, db1: Db, i: nat) {
    && |db1.intents| == |db.intents|
    && forall j | 0 <= j < |db.intents| && j != i ::
         db1.intents[j] == db.intents[j] && (HasReceipt(db1.receipts, j) <==> HasReceipt(db.receipts, j))
  }

  /** Issuing for an intent without a receipt adds exactly one. */
  lemma IssueAddsOne(db: Db, rt: Runtime, i: nat, at: int, jti: string)
    requires i < |db.intents| && db.intents[i].policy < |db.policies| && !HasReceipt(db.receipts, i)
    ensures var done := IssueReceipt(db, rt, i, at, jti);
            done.IssueDone? ==>
              && |done.db.receipts| == |db.receipts| + 1 && LeavesOthers(db, done.db, i)
              && done.db.intents[i].status == ReceiptIssued
  {
    var p := db.policies[db.intents[i].policy];
    var row := ReceiptFor(db.intents[i], i, p, at, jti);
    forall j: nat
      ensures HasReceipt(db.receipts + [row], j) <==> HasReceipt(db.receipts, j) || i == j
    {
      InsertedReceiptCounts(db.receipts, row, j);
    }
  }

  /** What reconciling an open intent comes to: a verified outcome is exactly one new receipt; afterwards
      the intent is no longer open, or it is quiet under the same answers. */
  predicate Effect(db: Db, i: nat, w: World, db1: Db, o: ReconcileOutcome)
    requires i < |db.intents|
  {
    && LeavesOthers(db, db1, i)
    && |db1.receipts| == |db.receipts| + (if o == OutVerified then 1 else 0)
    && (Reconcilable(db1, i) ==> o == OutPending && Quiet(db1.intents[i], i, w))
  }

  lemma IssueHasEffect(db: Db, db1: Db, rt: Runtime, i: nat, at: int, w: World)
    requires PoliciesExist(db) && i < |db.intents| && !HasReceipt(db.receipts, i)
    requires PoliciesExist(db1) && LeavesOthers(db, db1, i) && db1.receipts == db.receipts
    ensures var done := IssueReceipt(db1, rt, i, at, w.jti(i));
            done.IssueDone? ==> Effect(db, i, w, done.db, OutVerified)
  {
    IssueAddsOne(db1, rt, i, at, w.jti(i));
  }

  lemma EndHasEffect(db: Db, db1: Db, i: nat, kind: EventType, status: IntentStatus, o: ReconcileOutcome, w: World)
    requires i < |db.intents| && LeavesOthers(db, db1, i) && db1.receipts == db.receipts
    requires status !in {Pending, Verified} && o != OutVerified
    ensures Effect(db, i, w, MarkStatus(AppendEvent(db1, kind, i, None), i, status), o)
  {
  }

  lemma NoteHasEffect(db: Db, i: nat, v: FiberVerification, w: World)
    requires i < |db.intents| && Truthy(db.intents[i].paymentRef) && w.fiber(i) == Reply(v)
    requires MapRawStatus(RawStatusOf(v)).state in {Waiting, PaymentPending, UnknownState}
    ensures Effect(db, i, w, SetIntent(db, i, db.intents[i].(fiberResponse := Some(v))), OutPending)
  {
  }

  /** Settling has an effect, given that a pending verdict leaves the intent quiet. */
  lemma SettleHasEffect(db: Db, db1: Db, rt: Runtime, i: nat, state: Normalized, at: int, w: World)
    requires PoliciesExist(db) && i < |db.intents| && !HasReceipt(db.receipts, i)
    requires PoliciesExist(db1) && LeavesOthers(db, db1, i) && db1.receipts == db.receipts
    requires db1.intents[i].status in {Pending, Verified}
    requires state in {Waiting, PaymentPending, UnknownState} ==> Effect(db, i, w, db1, OutPending)
    ensures var done := Settle(db1, rt, i, state, at, w.jti(i));
            done.Reconciled? ==> Effect(db, i, w, done.db, done.outcome)
  {
    match state
    case PaidVerified => IssueHasEffect(db, db1, rt, i, at, w);
    case ExpiredState => EndHasEffect(db, db1, i, IntentExpiredEvent, IntentExpired, OutExpired, w);
    case FailedState => EndHasEffect(db, db1, i, IntentRejected, Rejected, OutRejected, w);
    case _ =>
  }

  lemma PaidIntentEffect(db: Db, rt: Runtime, i: nat, v: FiberVerification, w: World)
    requires PoliciesExist(db) && i < |db.intents| && !HasReceipt(db.receipts, i)
    requires Truthy(db.intents[i].paymentRef) && w.fiber(i) == Reply(v)
    requires db.intents[i].status in {Pending, Verified}
    ensures var done := Reconcile(db, rt, i, Reply(v), w.clock(i), w.jti(i));
            done.Reconciled? ==> Effect(db, i, w, done.db, done.outcome)
  {
    var state := MapRawStatus(RawStatusOf(v)).state;
    var db1 := SetIntent(db, i, db.intents[i].(fiberResponse := Some(v)));
    assert FindReceiptOf(db.receipts, i).None?;
    if state in {Waiting, PaymentPending, UnknownState} {
      NoteHasEffect(db, i, v, w);
    }
    SettleHasEffect(db, db1, rt, i, state, SettledOr(Some(v), w.clock(i)), w);
  }

  lemma ReconcileEffect(db: Db, rt: Runtime, i: nat, w: World)
    requires Inv(db) && i < |db.intents| && Reconcilable(db, i)
    ensures At(db, rt, i, w).Reconciled? ==> Effect(db, i, w, At(db, rt, i, w).db, At(db, rt, i, w).outcome)
  {
    assert LifecycleAt(db, i);
    if !Truthy(db.intents[i].paymentRef) {
      EndHasEffect(db, db, i, IntentExpiredEvent, IntentExpired, OutExpired, w);
    } else if w.fiber(i).Reply? {
      PaidIntentEffect(db, rt, i, w.fiber(i).v, w);
    }
  }

  // ----- the whole pass -----

  /** The candidates are open and each occurs once. */
  predicate OpenOnce(db: Db, ids: seq<nat>) {
    && (forall k | 0 <= k < |ids| :: ids[k] < |db.intents| && Reconcilable(db, ids[k]))
    && (forall k, l | 0 <= k < |ids| && 0 <= l < |ids| && k != l :: ids[k] != ids[l])
  }

  /** Every open intent is still to come or already quiet. */
  predicate Covered(db: Db, ids: seq<nat>, w: World) {
    forall j | 0 <= j < |db.intents| && Reconcilable(db, j) :: j in ids || Quiet(db.intents[j], j, w)
  }

  lemma {:induction false} ListIsOpen(db: Db, n: nat)
    requires n <= |db.intents|
    ensures OpenOnce(db, ListUpTo(db, n)) && (forall k | 0 <= k < |ListUpTo(db, n)| :: ListUpTo(db, n)[k] < n)
    ensures forall j | 0 <= j < n && Reconcilable(db, j) :: j in ListUpTo(db, n)
  {
    if n > 0 {
      ListIsOpen(db, n - 1);
    }
  }

  lemma ListCovers(db: Db, w: World)
    ensures OpenOnce(db, List(db)) && Covered(db, List(db), w)
  {
    ListIsOpen(db, |db.intents|);
  }

  lemma StepKeepsCandidates(db: Db, rt: Runtime, ids: seq<nat>, w: World)
    requires Inv(db) && ids != [] && OpenOnce(db, ids) && Covered(db, ids, w)
    requires At(db, rt, ids[0], w).Reconciled?
    ensures var db1 := At(db, rt, ids[0], w).db;
            OpenOnce(db1, ids[1..]) && Covered(db1, ids[1..], w)
  {
    ReconcileEffect(db, rt, ids[0], w);
    var db1 := At(db, rt, ids[0], w).db;
    forall k | 0 <= k < |ids[1..]|
      ensures ids[1..][k] < |db1.intents| && Reconcilable(db1, ids[1..][k])
    {
      assert ids[1..][k] == ids[k + 1] && ids[k + 1] != ids[0];
      assert Reconcilable(db, ids[k + 1]);
    }
    forall j | 0 <= j < |db1.intents| && Reconcilable(db1, j)
      ensures j in ids[1..] || Quiet(db1.intents[j], j, w)
    {
      if j != ids[0] {
        assert Reconcilable(db, j);
        assert j in ids ==> j in ids[1..];
      }
    }
  }

  /** Counting from `s`, the outcomes add up to the `n` intents inspected, and the receipts reported issued
      are exactly the receipt rows added. */
  predicate AddsUp(db: Db, s: Summary, n: nat, done: PassResult)
    requires done.PassDone?
  {
    && done.summary.inspected - s.inspected == n
    && Outcomes(done.summary) - Outcomes(s) == n
    && done.summary.receiptsIssued - s.receiptsIssued == done.summary.verified - s.verified
    && done.summary.receiptsIssued - s.receiptsIssued == |done.db.receipts| - |db.receipts|
  }

  lemma AddsUpOneMore(db: Db, db1: Db, o: ReconcileOutcome, s: Summary, n: nat, done: PassResult)
    requires done.PassDone? && AddsUp(db1, Tally(s, o), n, done)
    requires |db1.receipts| == |db.receipts| + (if o == OutVerified then 1 else 0)
    ensures AddsUp(db, s, n + 1, done)
  {
  }

  /** The counters of a pass, given that each remaining candidate is open when its turn comes. */
  lemma {:induction false} PassAddsUp(db: Db, rt: Runtime, ids: seq<nat>, w: World, s: Summary)
    requires Inv(db) && OpenOnce(db, ids) && Covered(db, ids, w) && Pass(db, rt, ids, w, s).PassDone?
    ensures AddsUp(db, s, |ids|, Pass(db, rt, ids, w, s))
    decreases |ids|
  {
    if ids != [] {
      var i := ids[0];
      var r := At(db, rt, i, w);
      ReconcileKeepsInv(db, rt, i, w.fiber(i), w.clock(i), w.jti(i));
      ReconcileEffect(db, rt, i, w);
      StepKeepsCandidates(db, rt, ids, w);
      PassAddsUp(r.db, rt, ids[1..], w, Tally(s, r.outcome));
      AddsUpOneMore(db, r.db, r.outcome, s, |ids| - 1, Pass(db, rt, ids, w, s));
    }
  }

  /** After a pass every open intent is quiet. */
  lemma {:induction false} PassQuiets(db: Db, rt: Runtime, ids: seq<nat>, w: World, s: Summary)
    requires Inv(db) && OpenOnce(db, ids) && Covered(db, ids, w) && Pass(db, rt, ids, w, s).PassDone?
    ensures var done := Pass(db, rt, ids, w, s);
            Inv(done.db) && Covered(done.db, [], w)
    decreases |ids|
  {
    if ids != [] {
      var i := ids[0];
      ReconcileKeepsInv(db, rt, i, w.fiber(i), w.clock(i), w.jti(i));
      StepKeepsCandidates(db, rt, ids, w);
      PassQuiets(At(db, rt, i, w).db, rt, ids[1..], w, Tally(s, At(db, rt, i, w).outcome));
    }
  }

  function Outcomes(s: Summary): int {
    s.verified + s.expired + s.rejected + s.pending
  }

  /** Single-worker reconciliation of any database: the outcomes add up to the intents inspected, and the
      receipts reported issued are exactly the receipt rows added. */
  lemma ReconciliationAddsUp(db: Db, rt: Runtime, w: World)
    requires Inv(db) && ReconcileOpen(db, rt, w).PassDone?
    ensures AddsUp(db, ZERO_SUMMARY, |List(db)|, ReconcileOpen(db, rt, w))
  {
    ListCovers(db, w);
    PassAddsUp(db, rt, List(db), w, ZERO_SUMMARY);
  }

  lemma {:induction false} QuietPass(db: Db, rt: Runtime, ids: seq<nat>, w: World, s: Summary)
    requires Inv(db)
    requires forall k | 0 <= k < |ids| ::
               ids[k] < |db.intents| && Reconcilable(db, ids[k]) && Quiet(db.intents[ids[k]], ids[k], w)
    ensures Pass(db, rt, ids, w, s)
         == PassDone(db, s.(inspected := s.inspected + |ids|, pending := s.pending + |ids|))
    decreases |ids|
  {
    if ids != [] {
      QuietIsInert(db, rt, ids[0], w);
      QuietPass(db, rt, ids[1..], w, Tally(s, OutPending));
    }
  }

  lemma QuietReconciliation(db: Db, rt: Runtime, w: World)
    requires Inv(db) && Covered(db, [], w)
    ensures ReconcileOpen(db, rt, w) == PassDone(db, ZERO_SUMMARY.(inspected := |List(db)|, pending := |List(db)|))
  {
    ListIsOpen(db, |db.intents|);
    QuietPass(db, rt, List(db), w, ZERO_SUMMARY);
  }

  /** A second pass with the same answers and clock leaves the database exactly as the first left it, even if
      the configuration changed in between, and reports every intent it inspects as pending. */
  lemma SecondPassIsInert(db: Db, rt: Runtime, rt2: Runtime, w: World)
    requires Inv(db) && ReconcileOpen(db, rt, w).PassDone?
    ensures var db1 := ReconcileOpen(db, rt, w).db;
      && Inv(db1)
      && ReconcileOpen(db1, rt2, w) == PassDone(db1, ZERO_SUMMARY.(inspected := |List(db1)|, pending := |List(db1)|))
  {
    ListCovers(db, w);
    PassQuiets(db, rt, List(db), w, ZERO_SUMMARY);
    QuietReconciliation(ReconcileOpen(db, rt, w).db, rt2, w);
  }
}
