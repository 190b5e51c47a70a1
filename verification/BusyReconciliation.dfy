/** A worker's pass while the rest of the system runs on: other creations, other workers, redemptions and crashes
    between any two of its transactions (src/services/fiber-latch-service.ts:623-784). */
module BusyReconciliation {
  import opened Basics
  import opened FiberStatus
  import opened LegacyDb
  import opened LegacyRuns
  import opened Reconciliation

  /** What happens before the transaction on a candidate, and what that transaction meets. */
  datatype Turn = Turn(others: seq<Step>, fiber: FiberReply, now: int, jti: string)

  /** The pass's counters; the receipt rows its own transactions added; and the candidates that already had a
      receipt when their turn came. */
  datatype Books = Books(summary: Summary, added: int, found: int)

  const ZERO_BOOKS := Books(ZERO_SUMMARY, 0, 0)

  datatype Progressed = Progressed(s: State, books: Books)

  function Entered(b: Books, before: Db, after: Db, i: nat, o: ReconcileOutcome): Books {
    Books(Tally(b.summary, o), b.added + |after.receipts| - |before.receipts|,
      b.found + if HasReceipt(before.receipts, i) then 1 else 0)
  }

  /** The pass; `None` when a transaction's error ends it, or when others did something impossible. */
  function BusyPass(s: State, rt: Runtime, ids: seq<nat>, turns: seq<Turn>, b: Books): Option<Progressed>
    requires |turns| == |ids|
    decreases |ids|
  {
    if ids == [] then Some(Progressed(s, b))
    else
      var t := turns[0];
      var m := Run(s, t.others);
      if m.None? || !PoliciesExist(m.value.db) then None
      else
        match Reconcile(m.value.db, rt, ids[0], t.fiber, t.now, t.jti)
        case ReconcileFailed => None
        case Reconciled(db, o) =>
          BusyPass(m.value.(db := db), rt, ids[1..], turns[1..], Entered(b, m.value.db, db, ids[0], o))
  }

  /** Settling an intent without a receipt adds one exactly when it is verified. */
  lemma SettleAdds(db: Db, rt: Runtime, i: nat, state: Normalized, at: int, jti: string)
    requires i < |db.intents| && db.intents[i].policy < |db.policies| && !HasReceipt(db.receipts, i)
    ensures var r := Settle(db, rt, i, state, at, jti);
            r.Reconciled? ==> |r.db.receipts| - |db.receipts| == if r.outcome == OutVerified then 1 else 0
  {
    if state == PaidVerified {
      IssueAddsOne(db, rt, i, at, jti);
    }
  }

  /** One transaction, on any intent at any time: it reports VERIFIED exactly when the intent had a receipt
      already or this transaction adds one. */
  lemma OneTurn(db: Db, rt: Runtime, i: nat, fiber: FiberReply, now: int, jti: string)
    requires Inv(db)
    ensures var r := Reconcile(db, rt, i, fiber, now, jti);
      r.Reconciled? ==>
        && (HasReceipt(db.receipts, i) ==> r.outcome == OutVerified && r.db == db)
        && (!HasReceipt(db.receipts, i) ==>
              |r.db.receipts| - |db.receipts| == if r.outcome == OutVerified then 1 else 0)
  {
    if i < |db.intents| {
      assert LifecycleAt(db, i);
      if !HasReceipt(db.receipts, i) && Truthy(db.intents[i].paymentRef) && fiber.Reply? {
        SettleAdds(SetIntent(db, i, db.intents[i].(fiberResponse := Some(fiber.v))), rt, i,
          MapRawStatus(RawStatusOf(fiber.v)).state, SettledOr(Some(fiber.v), now), jti);
      }
    } else {
      NoReceiptBeyond(db, i);
    }
  }

  lemma NoReceiptBeyond(db: Db, i: nat)
    requires Inv(db) && i >= |db.intents|
    ensures !HasReceipt(db.receipts, i)
  {
  }

  /** From `b` to `b'`, `n` candidates were entered: their outcomes add up, each verified one counts as a receipt
      issued, and these are the rows added plus the receipts found. */
  predicate Kept(b: Books, b': Books, n: nat) {
    && b'.summary.inspected - b.summary.inspected == n
    && Outcomes(b'.summary) - Outcomes(b.summary) == n
    && b'.summary.verified - b.summary.verified == b'.summary.receiptsIssued - b.summary.receiptsIssued
    && b'.summary.receiptsIssued - b.summary.receiptsIssued == (b'.added - b.added) + (b'.found - b.found)
  }

  lemma EnteredKeeps(b: Books, before: Db, rt: Runtime, i: nat, t: Turn)
    requires Inv(before) && Reconcile(before, rt, i, t.fiber, t.now, t.jti).Reconciled?
    ensures var r := Reconcile(before, rt, i, t.fiber, t.now, t.jti);
            Kept(b, Entered(b, before, r.db, i, r.outcome), 1)
  {
    OneTurn(before, rt, i, t.fiber, t.now, t.jti);
  }

  lemma {:induction false} BooksAreKept(s: State, rt: Runtime, ids: seq<nat>, turns: seq<Turn>, b: Books)
    requires RunInv(s) && |turns| == |ids| && BusyPass(s, rt, ids, turns, b).Some?
    ensures Kept(b, BusyPass(s, rt, ids, turns, b).value.books, |ids|)
    ensures RunInv(BusyPass(s, rt, ids, turns, b).value.s)
    decreases |ids|
  {
    if ids != [] {
      var t := turns[0];
      RunKeepsInv(s, t.others);
      var m := Run(s, t.others).value;
      var r := Reconcile(m.db, rt, ids[0], t.fiber, t.now, t.jti);
      assert Next(m, ReconcileOne(rt, ids[0], t.fiber, t.now, t.jti)) == Some(m.(db := r.db));
      StepKeepsInv(m, ReconcileOne(rt, ids[0], t.fiber, t.now, t.jti));
      EnteredKeeps(b, m.db, rt, ids[0], t);
      BooksAreKept(m.(db := r.db), rt, ids[1..], turns[1..], Entered(b, m.db, r.db, ids[0], r.outcome));
    }
  }

  /** A pass over any candidates, in any run, with any steps of the rest of the system between its transactions:
      the outcomes still add up to the intents inspected, and `receiptsIssued` exceeds the receipt rows the pass
      added by exactly the candidates that already had a receipt when their turn came. */
  lemma {:induction false} BusyPassAddsUp(steps: seq<Step>, s: State, rt: Runtime, ids: seq<nat>, turns: seq<Turn>,
                                          end: Progressed)
    requires Run(EMPTY, steps) == Some(s) && |turns| == |ids|
    requires BusyPass(s, rt, ids, turns, ZERO_BOOKS) == Some(end)
    ensures Kept(ZERO_BOOKS, end.books, |ids|)
  {
    EmptyIsOk();
    RunKeepsInv(EMPTY, steps);
    BooksAreKept(s, rt, ids, turns, ZERO_BOOKS);
  }

  // ----- the pass as part of a run -----

  /** What happens in a pass, others' steps and its own transactions, in order. */
  function Woven(rt: Runtime, ids: seq<nat>, turns: seq<Turn>): seq<Step>
    requires |turns| == |ids|
    decreases |ids|
  {
    if ids == [] then []
    else
      var t := turns[0];
      t.others + ([ReconcileOne(rt, ids[0], t.fiber, t.now, t.jti)] + Woven(rt, ids[1..], turns[1..]))
  }

  lemma {:induction false} RunOn(s: State, steps: seq<Step>, more: seq<Step>)
    requires Run(s, steps).Some?
    ensures Run(s, steps + more) == Run(Run(s, steps).value, more)
    decreases |steps|
  {
    if steps == [] {
      assert [] + more == more;
    } else {
      assert (steps + more)[0] == steps[0] && (steps + more)[1..] == steps[1..] + more;
      RunOn(Next(s, steps[0]).value, steps[1..], more);
    }
  }

  /** A pass is nothing but a run of the system: weaving its transactions, one for each candidate, between the
      others' steps leads to the same state. */
  lemma {:induction false} BusyPassIsARun(s: State, rt: Runtime, ids: seq<nat>, turns: seq<Turn>, b: Books)
    requires |turns| == |ids| && BusyPass(s, rt, ids, turns, b).Some?
    ensures Run(s, Woven(rt, ids, turns)) == Some(BusyPass(s, rt, ids, turns, b).value.s)
    decreases |ids|
  {
    if ids != [] {
      var t := turns[0];
      var m := Run(s, t.others).value;
      var r := Reconcile(m.db, rt, ids[0], t.fiber, t.now, t.jti);
      var own := ReconcileOne(rt, ids[0], t.fiber, t.now, t.jti);
      var rest := Woven(rt, ids[1..], turns[1..]);
      assert Next(m, own) == Some(m.(db := r.db));
      RunOn(s, t.others, [own] + rest);
      assert ([own] + rest)[1..] == rest;
      BusyPassIsARun(m.(db := r.db), rt, ids[1..], turns[1..], Entered(b, m.db, r.db, ids[0], r.outcome));
    }
  }
}
