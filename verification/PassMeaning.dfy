/** What one worker's pass does to the intents, and what its counters count, said on statuses and stored answers
    (src/services/fiber-latch-service.ts:623-784, src/repositories/access-intent-repository.ts:80-103). */
module PassMeaning {
  import opened Basics
  import opened FiberStatus
  import opened LegacyDb
  import opened LegacyVerdicts
  import opened LegacyEffects
  import opened Reconciliation
  import opened Resumption

  /** Neither expired, nor rejected, nor with its receipt issued. */
  predicate HasNotEnded(row: Intent) {
    row.status == Pending || row.status == Verified
  }

  /** The pass looks at exactly the intents that have not ended, oldest first and each once. */
  lemma ListIsUnended(db: Db)
    requires Inv(db)
    ensures Increasing(List(db))
    ensures forall i: nat :: i in List(db) <==> i < |db.intents| && HasNotEnded(db.intents[i])
  {
    ListIsIncreasing(db, |db.intents|);
    ListIsOpen(db, |db.intents|);
    forall i: nat
      ensures i in List(db) <==> i < |db.intents| && HasNotEnded(db.intents[i])
    {
      if i < |db.intents| {
        assert LifecycleAt(db, i);
      }
    }
  }

  /** How a candidate's row ends: without a payment it expires when its time is over and stays otherwise; with one
      the node's answer is stored, and a paid one has its receipt issued, an expired or a failed one ends the
      intent so, and any other leaves its status. */
  predicate EndsAs(row: Intent, row': Intent, i: nat, w: World) {
    if row.paymentRef.None? || row.paymentRef.value == "" then
      row' == if row.expiresAt.Some? && row.expiresAt.value <= w.clock(i) then row.(status := IntentExpired) else row
    else
      && w.fiber(i).Reply?
      && var v := w.fiber(i).v;
         && row'.fiberResponse == Some(v)
         && row'.status == if SaysPaid(v) then ReceiptIssued
                           else if SaysExpired(v) then IntentExpired
                           else if SaysFailed(v) then Rejected
                           else row.status
  }

  /** The outcome names the status the intent has then. */
  predicate Names(o: ReconcileOutcome, status: IntentStatus) {
    match status
    case ReceiptIssued => o == OutVerified
    case IntentExpired => o == OutExpired
    case Rejected => o == OutRejected
    case _ => o == OutPending
  }

  lemma TurnEnds(db: Db, rt: Runtime, i: nat, w: World)
    requires Inv(db) && i < |db.intents| && Reconcilable(db, i) && At(db, rt, i, w).Reconciled?
    ensures var r := At(db, rt, i, w);
      && i < |r.db.intents| && EndsAs(db.intents[i], r.db.intents[i], i, w)
      && Names(r.outcome, r.db.intents[i].status)
  {
    ReconciliationLeaves(db, rt, i, w.fiber(i), w.clock(i), w.jti(i));
    if w.fiber(i).Reply? {
      VerdictIff(w.fiber(i).v);
    }
  }

  lemma {:induction false} PassEnds(db: Db, rt: Runtime, ids: seq<nat>, w: World, s: Summary, i: nat)
    requires Inv(db) && OpenOnce(db, ids) && Pass(db, rt, ids, w, s).PassDone? && i in ids
    ensures var end := Pass(db, rt, ids, w, s).db;
            i < |db.intents| && i < |end.intents| && EndsAs(db.intents[i], end.intents[i], i, w)
    decreases |ids|
  {
    var r := At(db, rt, ids[0], w);
    FirstStep(db, rt, ids, w);
    PassKeepsOthers(r.db, rt, ids[1..], w, Tally(s, r.outcome));
    if i == ids[0] {
      TurnEnds(db, rt, i, w);
      assert i !in ids[1..];
      assert Untouched(r.db, Pass(db, rt, ids, w, s).db, i);
    } else {
      assert i in ids[1..];
      assert Untouched(db, r.db, i);
      PassEnds(r.db, rt, ids[1..], w, Tally(s, r.outcome), i);
    }
  }

  /** How many of these intents have this status. */
  function CountStatus(db: Db, ids: seq<nat>, status: IntentStatus): nat {
    if ids == [] then 0
    else (if ids[0] < |db.intents| && db.intents[ids[0]].status == status then 1 else 0)
         + CountStatus(db, ids[1..], status)
  }

  /** From `s` to `t`, the counters count what became of the candidates. */
  predicate Counts(s: Summary, t: Summary, end: Db, ids: seq<nat>) {
    && t.inspected == s.inspected + |ids|
    && t.verified == s.verified + CountStatus(end, ids, ReceiptIssued)
    && t.receiptsIssued == s.receiptsIssued + CountStatus(end, ids, ReceiptIssued)
    && t.expired == s.expired + CountStatus(end, ids, IntentExpired)
    && t.rejected == s.rejected + CountStatus(end, ids, Rejected)
    && t.pending == s.pending + CountStatus(end, ids, Pending) + CountStatus(end, ids, Verified)
  }

  lemma CountsOneMore(s: Summary, o: ReconcileOutcome, t: Summary, end: Db, ids: seq<nat>)
    requires ids != [] && ids[0] < |end.intents| && Names(o, end.intents[ids[0]].status)
    requires Counts(Tally(s, o), t, end, ids[1..])
    ensures Counts(s, t, end, ids)
  {
  }

  lemma {:induction false} PassCounts(db: Db, rt: Runtime, ids: seq<nat>, w: World, s: Summary)
    requires Inv(db) && OpenOnce(db, ids) && Pass(db, rt, ids, w, s).PassDone?
    ensures Counts(s, Pass(db, rt, ids, w, s).summary, Pass(db, rt, ids, w, s).db, ids)
    decreases |ids|
  {
    if ids != [] {
      var r := At(db, rt, ids[0], w);
      var done := Pass(db, rt, ids, w, s);
      FirstStep(db, rt, ids, w);
      PassKeepsOthers(r.db, rt, ids[1..], w, Tally(s, r.outcome));
      TurnEnds(db, rt, ids[0], w);
      assert ids[0] !in ids[1..];
      assert Untouched(r.db, done.db, ids[0]);
      PassCounts(r.db, rt, ids[1..], w, Tally(s, r.outcome));
      CountsOneMore(s, r.outcome, done.summary, done.db, ids);
    }
  }

  /** A completed pass: every intent that had not ended ends as its payment and the node's answer say, every other
      is left alone, and each counter is the number of candidates that now have the status it names. */
  lemma PassMeans(db: Db, rt: Runtime, w: World)
    requires Inv(db) && ReconcileOpen(db, rt, w).PassDone?
    ensures var done := ReconcileOpen(db, rt, w);
      && |done.db.intents| == |db.intents|
      && (forall i | 0 <= i < |db.intents| ::
            if HasNotEnded(db.intents[i]) then EndsAs(db.intents[i], done.db.intents[i], i, w)
            else done.db.intents[i] == db.intents[i])
      && Counts(ZERO_SUMMARY, done.summary, done.db, List(db))
  {
    ListIsUnended(db);
    ListCovers(db, w);
    ClosedStaysClosed(db, rt, w);
    PassCounts(db, rt, List(db), w, ZERO_SUMMARY);
    var end := ReconcileOpen(db, rt, w).db;
    forall i | 0 <= i < |db.intents|
      ensures if HasNotEnded(db.intents[i]) then EndsAs(db.intents[i], end.intents[i], i, w)
              else end.intents[i] == db.intents[i]
    {
      if HasNotEnded(db.intents[i]) {
        PassEnds(db, rt, List(db), w, ZERO_SUMMARY, i);
      } else {
        assert !Reconcilable(db, i);
        assert Untouched(db, end, i);
      }
    }
  }
}
