/** Pre-atomic redemption checks (src/domain/redemption-policy.ts, src/domain/access-state.ts:77-79). */
module RedemptionPolicy {
  import opened Basics
  import opened LegacyDb

  /** The outcome of checking a presented token: claims, or why there are none. */
  datatype Signature = Signature(claims: Option<LegacyClaims>, reason: string)

  datatype Denial = Denial(reason: string, status: Option<ReceiptStatus>, count: int, max: int)

  predicate IsExpired(exp: int, now: int) {
    exp <= now
  }

  predicate ClaimsMatch(c: LegacyClaims, r: Receipt) {
    && c.intent == r.intent && c.resourceKey == r.resource.key && c.policy == r.policy
    && c.sub == r.subject.id && c.maxRedemptions == r.maxRedemptions
  }

  /** `evaluatePreAtomicRedemptionDenial`. */
  function EvaluateDenial(sig: Signature, receipt: Option<Receipt>, resource: Resource, subject: Subject,
                          now: int): Option<Denial> {
    if sig.claims.None? then
      Some(Denial(sig.reason, if sig.reason == "RECEIPT_EXPIRED" then Some(Expired) else None, 0, 0))
    else if receipt.None? then Some(Denial("RECEIPT_NOT_FOUND", None, 0, 0))
    else
      var r := receipt.value;
      var c := sig.claims.value;
      if IsExpired(r.exp, now) then Some(Denial("RECEIPT_EXPIRED", Some(Expired), r.count, r.maxRedemptions))
      else if c.intent != r.intent || c.resourceKey != r.resource.key || c.policy != r.policy
              || c.sub != r.subject.id || c.maxRedemptions != r.maxRedemptions
              || resource.key != r.resource.key || resource.kind != r.resource.kind
              || subject.id != r.subject.id || subject.kind != r.subject.kind
      then Some(Denial("RECEIPT_CLAIMS_MISMATCH", Some(r.status), r.count, r.maxRedemptions))
      else None
  }

  /** No denial is exactly: a verified token, a stored receipt that is still running, and agreement of the
      signed claims and of the request with that receipt. Status and count are not consulted. */
  lemma PassesIff(sig: Signature, receipt: Option<Receipt>, resource: Resource, subject: Subject, now: int)
    ensures EvaluateDenial(sig, receipt, resource, subject, now) == None <==>
            && sig.claims.Some? && receipt.Some? && now < receipt.value.exp
            && ClaimsMatch(sig.claims.value, receipt.value)
            && resource == receipt.value.resource && subject == receipt.value.subject
  {
  }

  /** What an early denial reports: the reason, the status shown to the caller, and the row's counters where there
      is a row. */
  lemma DenialReports(sig: Signature, receipt: Option<Receipt>, resource: Resource, subject: Subject, now: int)
    ensures var denial := EvaluateDenial(sig, receipt, resource, subject, now);
      && (sig.claims.None? ==>
            denial == Some(Denial(sig.reason, if sig.reason == "RECEIPT_EXPIRED" then Some(Expired) else None, 0, 0)))
      && (sig.claims.Some? && receipt.None? ==> denial == Some(Denial("RECEIPT_NOT_FOUND", None, 0, 0)))
      && (sig.claims.Some? && receipt.Some? ==>
            var r := receipt.value;
            && (r.exp <= now ==> denial == Some(Denial("RECEIPT_EXPIRED", Some(Expired), r.count, r.maxRedemptions)))
            && (r.exp > now && denial.Some? ==>
                  denial == Some(Denial("RECEIPT_CLAIMS_MISMATCH", Some(r.status), r.count, r.maxRedemptions))))
  {
  }
}

/** Whole runs of the legacy service: transactions are single steps; verification and redemption are
    requests in flight whose database calls interleave with everything else
    (src/services/fiber-latch-service.ts, src/repositories/access-receipt-repository.ts:91-158). */
module LegacyRuns {
  import opened Basics
  import opened FiberStatus
  import opened LegacyDb
  import opened LegacyLifecycle
  import opened RedemptionPolicy

  datatype Request =
    | Redeem(sig: Signature, resource: Resource, subject: Subject, now: int)
    | Verify(sig: Signature)

  /** Where a request stands between two database calls. */
  datatype Stage =
    | Started
    | Passed(id: nat, snapshot: Receipt)             // pre-atomic check passed on the row found by jti
    | Snapped(id: nat, snapshot: Receipt)            // the row was read again, the update comes next
    | Won(id: nat)                                   // the conditional update matched
    | Missed(id: nat)                                // it did not
    | Logging(id: nat, seen: Receipt, pending: seq<EventType>)
    | MustExpire(id: nat, reason: string, at: int)   // about to set the row expired, after this clock reading
    | VerifyLogging(id: nat)
    | Granted(id: nat, count: int, max: int)         // the GRANTED response
    | Denied(reason: string)
    | Confirmed(id: nat)                             // a positive verification response
    | Crashed

  /** The moment a conditional update matched: the row it matched, and when. */
  datatype Win = Win(id: nat, row: Receipt, at: int)

  datatype Proc = Proc(request: Request, stage: Stage, win: Option<Win>)

  datatype State = State(db: Db, procs: seq<Proc>)

  datatype Step =
    | Create(call: Call)
    | ReconcileOne(rt: Runtime, intent: nat, fiber: FiberReply, now: int, jti: string)
    | Arrive(request: Request)
    | Advance(p: nat, now: int)
    | Crash(p: nat)

  function FoundByJti(db: Db, sig: Signature): Option<nat> {
    if sig.claims.None? then None else FindByJti(db.receipts, sig.claims.value.jti)
  }

  datatype Moved = Moved(db: Db, proc: Proc)

  /** One database call of a redemption request. */
  function AdvanceRedeem(db: Db, x: Proc, now: int): Option<Moved>
    requires x.request.Redeem?
  {
    var q := x.request;
    match x.stage
    case Started =>
      var found := FoundByJti(db, q.sig);
      var row := if found.None? then None else Some(db.receipts[found.value]);
      var denial := EvaluateDenial(q.sig, row, q.resource, q.subject, q.now);
      if denial.None? && found.Some? then Some(Moved(db, x.(stage := Passed(found.value, row.value))))
      else if denial.None? then None
      else if denial.value.reason == "RECEIPT_EXPIRED" && found.Some? then
        Some(Moved(db, x.(stage := MustExpire(found.value, denial.value.reason, q.now))))
      else Some(Moved(db, x.(stage := Denied(denial.value.reason))))
    case Passed(id, _) =>
      if id >= |db.receipts| then None else Some(Moved(db, x.(stage := Snapped(id, db.receipts[id]))))
    case Snapped(id, snapshot) =>
      if id >= |db.receipts| then None
      else
        var row := db.receipts[id];
        if UpdateMatches(row, snapshot, now) then
          Some(Moved(SetReceipt(db, id, UpdateWrites(row, snapshot, now)),
                     x.(stage := Won(id), win := Some(Win(id, row, now)))))
        else Some(Moved(db, x.(stage := Missed(id))))
    case Won(id) =>
      if id >= |db.receipts| then None
      else
        var seen := db.receipts[id];
        Some(Moved(db, x.(stage := Logging(id, seen,
          [ReceiptRedeemed] + if seen.status == Exhausted then [RedemptionRejected] else []))))
    case Logging(id, seen, pending) =>
      if pending == [] then Some(Moved(db, x.(stage := Granted(id, seen.count, seen.maxRedemptions))))
      else Some(Moved(AppendEvent(db, pending[0], seen.intent, Some(id)), x.(stage := Logging(id, seen, pending[1..]))))
    case Missed(_) => Some(Moved(db, x.(stage := Denied("RECEIPT_NOT_ACTIVE"))))
    case MustExpire(id, reason, _) =>
      if id >= |db.receipts| then None else Some(Moved(SetExpired(db, id), x.(stage := Denied(reason))))
    case _ => None
  }

  /** One database call of `verifyAccessReceipt`. */
  function AdvanceVerify(db: Db, x: Proc, now: int): Option<Moved>
    requires x.request.Verify?
  {
    var sig := x.request.sig;
    match x.stage
    case Started =>
      var found := FoundByJti(db, sig);
      if sig.claims.None? then Some(Moved(db, x.(stage := Denied(sig.reason))))
      else if found.None? then Some(Moved(db, x.(stage := Denied("RECEIPT_NOT_FOUND"))))
      else
        var row := db.receipts[found.value];
        if !row.active || row.status != Issued then Some(Moved(db, x.(stage := Denied("RECEIPT_NOT_ACTIVE"))))
        else if !ClaimsMatch(sig.claims.value, row) then Some(Moved(db, x.(stage := Denied("RECEIPT_CLAIMS_MISMATCH"))))
        else if IsExpired(row.exp, now) then
          Some(Moved(db, x.(stage := MustExpire(found.value, "RECEIPT_EXPIRED", now))))
        else Some(Moved(db, x.(stage := VerifyLogging(found.value))))
    case VerifyLogging(id) =>
      if id >= |db.receipts| then None
      else Some(Moved(AppendEvent(db, ReceiptVerified, db.receipts[id].intent, Some(id)), x.(stage := Confirmed(id))))
    case MustExpire(id, reason, _) =>
      if id >= |db.receipts| then None else Some(Moved(SetExpired(db, id), x.(stage := Denied(reason))))
    case _ => None
  }

  function AdvanceProc(db: Db, x: Proc, now: int): Option<Moved> {
    if x.request.Redeem? then AdvanceRedeem(db, x, now) else AdvanceVerify(db, x, now)
  }

  /** The request has not been answered, and its worker is alive. */
  predicate InFlight(x: Proc) {
    !(x.stage.Granted? || x.stage.Denied? || x.stage.Confirmed? || x.stage.Crashed?)
  }

  /** One step of the whole system; an aborted transaction leaves the state as it was. */
  function Next(s: State, e: Step): Option<State> {
    match e
    case Create(c) =>
      if !ValidRuntime(c.rt) then None
      else
        var r := Perform(s.db, c);
        Some(if r.Committed? then s.(db := r.db) else s)
    case ReconcileOne(rt, intent, fiber, now, jti) =>
      if !PoliciesExist(s.db) then None
      else
        var r := Reconcile(s.db, rt, intent, fiber, now, jti);
        Some(if r.Reconciled? then s.(db := r.db) else s)
    case Arrive(request) => Some(s.(procs := s.procs + [Proc(request, Started, None)]))
    case Advance(p, now) =>
      if p >= |s.procs| then None
      else
        var moved := AdvanceProc(s.db, s.procs[p], now);
        if moved.None? then None else Some(State(moved.value.db, s.procs[p := moved.value.proc]))
    case Crash(p) =>
      if p >= |s.procs| || !InFlight(s.procs[p]) then None
      else Some(s.(procs := s.procs[p := s.procs[p].(stage := Crashed)]))
  }

  function Run(s: State, steps: seq<Step>): Option<State>
    decreases |steps|
  {
    if steps == [] then Some(s)
    else
      var n := Next(s, steps[0]);
      if n.None? then None else Run(n.value, steps[1..])
  }

  const EMPTY := State(EMPTY_DB, [])

  // ----- invariant -----

  /** A receipt row up to the columns that redemption and expiry write. */
  predicate SameReceipt(a: Receipt, b: Receipt) {
    a == b.(status := a.status, active := a.active, count := a.count,
            redeemedAt := a.redeemedAt, exhaustedAt := a.exhaustedAt)
  }

  /** `after` is a later version of `before`: uses only grow, and activity once lost stays lost. */
  predicate LaterRow(after: Receipt, before: Receipt) {
    SameReceipt(after, before) && before.count <= after.count && (after.active ==> before.active)
  }

  predicate RequestMatches(q: Request, r: Receipt) {
    && q.Redeem? && q.sig.claims.Some? && q.sig.claims.value.jti == r.jti
    && ClaimsMatch(q.sig.claims.value, r) && q.resource == r.resource && q.subject == r.subject
  }

  /** The one moment behind a win: the row was active, ISSUED, unexpired and below its limit, and it matched
      both the signed claims and the request. */
  predicate WinOk(receipts: seq<Receipt>, q: Request, w: Win) {
    && w.id < |receipts| && SameReceipt(w.row, receipts[w.id])
    && w.row.active && w.row.status == Issued && w.at < w.row.exp
    && 0 <= w.row.count < w.row.maxRedemptions && w.row.count < receipts[w.id].count
    && RequestMatches(q, w.row)
  }

  predicate StageOk(receipts: seq<Receipt>, intents: nat, x: Proc) {
    match x.stage
    case Started => x.win.None?
    case Passed(id, snapshot) =>
      x.win.None? && id < |receipts| && LaterRow(receipts[id], snapshot) && RequestMatches(x.request, snapshot)
    case Snapped(id, snapshot) =>
      && x.win.None? && id < |receipts| && 0 <= snapshot.count
      && LaterRow(receipts[id], snapshot) && RequestMatches(x.request, snapshot)
    case Won(id) => x.win.Some? && x.win.value.id == id
    case Logging(id, seen, pending) =>
      && x.win.Some? && x.win.value.id == id && id < |receipts| && seen.intent < intents
      && LaterRow(receipts[id], seen) && x.win.value.row.count < seen.count && ReceiptIssuedEvent !in pending
    case Granted(id, count, max) =>
      && x.win.Some? && x.win.value.id == id && id < |receipts|
      && x.win.value.row.count < count <= receipts[id].count && max == receipts[id].maxRedemptions
    case MustExpire(id, reason, at) =>
      && x.win.None? && id < |receipts| && reason == "RECEIPT_EXPIRED"
      && receipts[id].exp <= at && (x.request.Redeem? ==> at == x.request.now)
      && x.request.sig.claims.Some? && x.request.sig.claims.value.jti == receipts[id].jti
    case VerifyLogging(id) => x.win.None? && id < |receipts| && x.request.Verify?
    case Missed(_) => x.win.None? && x.request.Redeem?
    case Denied(_) => x.win.None?
    case Confirmed(_) => x.win.None?
    case Crashed => true
  }

  predicate ProcOk(receipts: seq<Receipt>, intents: nat, x: Proc) {
    StageOk(receipts, intents, x) && (x.win.Some? ==> WinOk(receipts, x.request, x.win.value))
  }

  predicate WonSlot(x: Proc, r: nat, k: int) {
    x.win.Some? && x.win.value.id == r && x.win.value.row.count == k
  }

  predicate SlotTaken(procs: seq<Proc>, r: nat, k: int) {
    exists i :: 0 <= i < |procs| && WonSlot(procs[i], r, k)
  }

  /** No two requests won on the same snapshot count of one receipt. */
  predicate SlotsDistinct(procs: seq<Proc>) {
    forall i, j | 0 <= i < |procs| && 0 <= j < |procs| && i != j && procs[i].win.Some? && procs[j].win.Some? ::
      procs[i].win.value.id == procs[j].win.value.id ==>
        procs[i].win.value.row.count != procs[j].win.value.row.count
  }

  predicate Wins(x: Proc, r: nat) {
    x.win.Some? && x.win.value.id == r
  }

  function CountWins(procs: seq<Proc>, r: nat): nat {
    if procs == [] then 0
    else CountWins(procs[..|procs| - 1], r) + if Wins(procs[|procs| - 1], r) then 1 else 0
  }

  /** Each receipt's winners fill the slots 0 .. count-1, one each. */
  predicate SlotsOk(receipts: seq<Receipt>, procs: seq<Proc>) {
    && SlotsDistinct(procs)
    && (forall r, k: int | 0 <= r < |receipts| && 0 <= k < receipts[r].count :: SlotTaken(procs, r, k))
    && (forall r | 0 <= r < |receipts| :: CountWins(procs, r) == receipts[r].count)
  }

  predicate ProcsOk(receipts: seq<Receipt>, intents: nat, procs: seq<Proc>) {
    forall i | 0 <= i < |procs| :: ProcOk(receipts, intents, procs[i])
  }

  predicate RunInv(s: State) {
    && Inv(s.db)
    && ProcsOk(s.db.receipts, |s.db.intents|, s.procs)
    && SlotsOk(s.db.receipts, s.procs)
  }

  // ----- preservation -----

  lemma {:induction false} CountWinsUpdate(procs: seq<Proc>, i: nat, x: Proc, r: nat)
    requires i < |procs|
    ensures CountWins(procs[i := x], r)
         == CountWins(procs, r) + (if Wins(x, r) then 1 else 0) - (if Wins(procs[i], r) then 1 else 0)
  {
    var n := |procs| - 1;
    if i == n {
      assert procs[i := x][..n] == procs[..n];
    } else {
      assert procs[i := x][..n] == procs[..n][i := x];
      CountWinsUpdate(procs[..n], i, x, r);
    }
  }

  lemma {:induction false} CountWinsZero(procs: seq<Proc>, r: nat)
    requires forall i | 0 <= i < |procs| :: !Wins(procs[i], r)
    ensures CountWins(procs, r) == 0
  {
    if procs != [] {
      CountWinsZero(procs[..|procs| - 1], r);
    }
  }

  /** Rows only move forward. */
  predicate RowsAdvance(before: seq<Receipt>, after: seq<Receipt>) {
    |before| <= |after| && forall r | 0 <= r < |before| :: LaterRow(after[r], before[r])
  }

  lemma ProcsSurvive(before: seq<Receipt>, after: seq<Receipt>, m: nat, n: nat, procs: seq<Proc>)
    requires ProcsOk(before, m, procs) && RowsAdvance(before, after) && m <= n
    ensures ProcsOk(after, n, procs)
  {
    forall i | 0 <= i < |procs|
      ensures ProcOk(after, n, procs[i])
    {
      assert ProcOk(before, m, procs[i]);
    }
  }

  lemma TransactionKeepsInv(s: State, db: Db)
    requires RunInv(s) && Inv(db) && Extends(s.db, db)
    ensures RunInv(s.(db := db)) && RowsAdvance(s.db.receipts, db.receipts)
  {
    ProcsSurvive(s.db.receipts, db.receipts, |s.db.intents|, |db.intents|, s.procs);
    forall r | |s.db.receipts| <= r < |db.receipts|
      ensures CountWins(s.procs, r) == 0
    {
      forall i | 0 <= i < |s.procs|
        ensures !Wins(s.procs[i], r)
      {
        assert ProcOk(s.db.receipts, |s.db.intents|, s.procs[i]);
      }
      CountWinsZero(s.procs, r);
    }
    forall r | 0 <= r < |s.db.receipts|
      ensures db.receipts[r] == s.db.receipts[r]
    {
    }
  }

  lemma ArrivalKeepsInv(s: State, q: Request)
    requires RunInv(s)
    ensures RunInv(s.(procs := s.procs + [Proc(q, Started, None)]))
  {
    var x := Proc(q, Started, None);
    NewcomerKeepsSlots(s.db.receipts, s.procs, x);
    assert ProcOk(s.db.receipts, |s.db.intents|, x);
  }

  lemma NewcomerKeepsSlots(receipts: seq<Receipt>, before: seq<Proc>, x: Proc)
    requires SlotsOk(receipts, before) && x.win.None?
    ensures SlotsOk(receipts, before + [x])
  {
    var procs := before + [x];
    assert procs[..|procs| - 1] == before;
    forall r, k: int | 0 <= r < |receipts| && 0 <= k < receipts[r].count
      ensures SlotTaken(procs, r, k)
    {
      assert SlotTaken(before, r, k);
      var i :| 0 <= i < |before| && WonSlot(before[i], r, k);
      assert WonSlot(procs[i], r, k);
    }
  }

  /** A request that neither wins nor changes a count keeps every slot as it was. */
  lemma QuietMoveKeepsSlots(before: seq<Receipt>, after: seq<Receipt>, procs: seq<Proc>, p: nat, x: Proc)
    requires SlotsOk(before, procs) && p < |procs| && x.win == procs[p].win
    requires |after| == |before| && forall r | 0 <= r < |before| :: after[r].count == before[r].count
    ensures SlotsOk(after, procs[p := x])
  {
    var procs' := procs[p := x];
    forall r, k: int | 0 <= r < |after| && 0 <= k < after[r].count
      ensures SlotTaken(procs', r, k)
    {
      assert SlotTaken(procs, r, k);
      var i :| 0 <= i < |procs| && WonSlot(procs[i], r, k);
      assert WonSlot(procs'[i], r, k);
    }
    forall r | 0 <= r < |after|
      ensures CountWins(procs', r) == after[r].count
    {
      CountWinsUpdate(procs, p, x, r);
    }
  }

  /** A winning update takes exactly the next slot of its receipt. */
  lemma WinKeepsSlots(before: seq<Receipt>, procs: seq<Proc>, intents: nat, p: nat, x: Proc, row: Receipt)
    requires SlotsOk(before, procs) && ProcsOk(before, intents, procs) && p < |procs|
    requires procs[p].win.None? && x.win.Some? && x.win.value.id < |before|
    requires x.win.value.row == before[x.win.value.id] && 0 <= before[x.win.value.id].count
    requires row.count == before[x.win.value.id].count + 1
    ensures SlotsOk(before[x.win.value.id := row], procs[p := x])
  {
    var id := x.win.value.id;
    var n := before[id].count;
    var after, procs' := before[id := row], procs[p := x];
    forall i | 0 <= i < |procs| && procs[i].win.Some? && procs[i].win.value.id == id
      ensures procs[i].win.value.row.count < n
    {
      assert ProcOk(before, intents, procs[i]);
    }
    forall r, k: int | 0 <= r < |after| && 0 <= k < after[r].count
      ensures SlotTaken(procs', r, k)
    {
      if r == id && k == n {
        assert WonSlot(procs'[p], r, k);
      } else {
        assert SlotTaken(procs, r, k);
        var i :| 0 <= i < |procs| && WonSlot(procs[i], r, k);
        assert WonSlot(procs'[i], r, k);
      }
    }
    forall r | 0 <= r < |after|
      ensures CountWins(procs', r) == after[r].count
    {
      CountWinsUpdate(procs, p, x, r);
    }
  }

  lemma ReceiptWriteKeepsInv(db: Db, r: nat, row: Receipt)
    requires Inv(db) && r < |db.receipts| && SameReceipt(row, db.receipts[r]) && RowOk(row)
    ensures Inv(SetReceipt(db, r, row))
  {
    var db' := SetReceipt(db, r, row);
    forall i | 0 <= i < |db.intents|
      ensures HasReceipt(db'.receipts, i) <==> HasReceipt(db.receipts, i)
    {
      if k :| 0 <= k < |db.receipts| && db.receipts[k].intent == i {
        assert db'.receipts[k].intent == i;
      }
      if k :| 0 <= k < |db'.receipts| && db'.receipts[k].intent == i {
        assert db.receipts[k].intent == i;
      }
    }
    forall i | 0 <= i < |db.intents|
      ensures LifecycleAt(db', i)
    {
      assert LifecycleAt(db, i);
    }
  }

  lemma EventKeepsInv(db: Db, kind: EventType, i: nat, r: Option<nat>)
    requires Inv(db) && i < |db.intents| && kind != ReceiptIssuedEvent
    ensures Inv(AppendEvent(db, kind, i, r))
  {
    AppendKeepsCore(db, kind, i, r);
  }

  /** What one database call of one request does to the tables and to the request. */
  predicate MoveOk(db: Db, x: Proc, m: Moved) {
    && Inv(m.db) && m.db.intents == db.intents
    && RowsAdvance(db.receipts, m.db.receipts) && |m.db.receipts| == |db.receipts|
    && ProcOk(m.db.receipts, |db.intents|, m.proc)
    && (m.proc.win == x.win ==> forall r | 0 <= r < |db.receipts| :: m.db.receipts[r].count == db.receipts[r].count)
    && (m.proc.win != x.win ==> WinMove(db, x, m))
  }

  /** A win takes one use of the row it matched, and nothing else changes. */
  predicate WinMove(db: Db, x: Proc, m: Moved) {
    && x.win.None? && m.proc.win.Some? && m.proc.win.value.id < |db.receipts|
    && m.proc.win.value.row == db.receipts[m.proc.win.value.id]
    && |m.db.receipts| == |db.receipts|
    && m.db.receipts == db.receipts[m.proc.win.value.id := m.db.receipts[m.proc.win.value.id]]
    && m.db.receipts[m.proc.win.value.id].count == db.receipts[m.proc.win.value.id].count + 1
  }

  lemma ReadOnlyMove(db: Db, x: Proc, stage: Stage)
    requires Inv(db) && ProcOk(db.receipts, |db.intents|, x)
    requires StageOk(db.receipts, |db.intents|, x.(stage := stage))
    ensures MoveOk(db, x, Moved(db, x.(stage := stage)))
  {
  }

  lemma RedeemStarts(db: Db, x: Proc, now: int)
    requires Inv(db) && ProcOk(db.receipts, |db.intents|, x) && x.request.Redeem? && x.stage == Started
    ensures AdvanceRedeem(db, x, now).Some? && MoveOk(db, x, AdvanceRedeem(db, x, now).value)
  {
    var found := FoundByJti(db, x.request.sig);
    var row := if found.None? then None else Some(db.receipts[found.value]);
    PassesIff(x.request.sig, row, x.request.resource, x.request.subject, x.request.now);
    ReadOnlyMove(db, x, AdvanceRedeem(db, x, now).value.proc.stage);
  }

  lemma UpdateIsSound(db: Db, x: Proc, now: int)
    requires Inv(db) && ProcOk(db.receipts, |db.intents|, x) && x.request.Redeem? && x.stage.Snapped?
    ensures AdvanceRedeem(db, x, now).Some? && MoveOk(db, x, AdvanceRedeem(db, x, now).value)
  {
    var id, snapshot := x.stage.id, x.stage.snapshot;
    var row := db.receipts[id];
    if UpdateMatches(row, snapshot, now) {
      var row' := UpdateWrites(row, snapshot, now);
      assert RowOk(row);
      assert SameReceipt(row, snapshot);
      ReceiptWriteKeepsInv(db, id, row');
      assert RowsAdvance(db.receipts, db.receipts[id := row']);
      assert WinOk(db.receipts[id := row'], x.request, Win(id, row, now));
    } else {
      ReadOnlyMove(db, x, Missed(id));
    }
  }

  lemma LoggingMoves(db: Db, x: Proc, now: int)
    requires Inv(db) && ProcOk(db.receipts, |db.intents|, x) && x.request.Redeem? && x.stage.Logging?
    ensures AdvanceRedeem(db, x, now).Some? && MoveOk(db, x, AdvanceRedeem(db, x, now).value)
  {
    var id, seen, pending := x.stage.id, x.stage.seen, x.stage.pending;
    if pending == [] {
      ReadOnlyMove(db, x, Granted(id, seen.count, seen.maxRedemptions));
    } else {
      EventKeepsInv(db, pending[0], seen.intent, Some(id));
      ReadOnlyMove(AppendEvent(db, pending[0], seen.intent, Some(id)), x, Logging(id, seen, pending[1..]));
    }
  }

  lemma ExpireMove(db: Db, x: Proc, id: nat, reason: string)
    requires Inv(db) && ProcOk(db.receipts, |db.intents|, x) && id < |db.receipts| && x.win.None?
    ensures MoveOk(db, x, Moved(SetExpired(db, id), x.(stage := Denied(reason))))
  {
    var row := db.receipts[id].(status := Expired, active := false);
    assert RowOk(db.receipts[id]);
    ReceiptWriteKeepsInv(db, id, row);
    assert RowsAdvance(db.receipts, db.receipts[id := row]);
  }

  lemma ExpiryMoves(db: Db, x: Proc, now: int)
    requires Inv(db) && ProcOk(db.receipts, |db.intents|, x) && x.stage.MustExpire?
    ensures AdvanceProc(db, x, now).Some? && MoveOk(db, x, AdvanceProc(db, x, now).value)
  {
    ExpireMove(db, x, x.stage.id, x.stage.reason);
  }

  lemma ConfirmMove(db: Db, x: Proc, id: nat)
    requires Inv(db) && ProcOk(db.receipts, |db.intents|, x) && id < |db.receipts| && x.win.None?
    ensures MoveOk(db, x, Moved(AppendEvent(db, ReceiptVerified, db.receipts[id].intent, Some(id)),
                                x.(stage := Confirmed(id))))
  {
    EventKeepsInv(db, ReceiptVerified, db.receipts[id].intent, Some(id));
    ReadOnlyMove(AppendEvent(db, ReceiptVerified, db.receipts[id].intent, Some(id)), x, Confirmed(id));
  }

  lemma VerifyMoves(db: Db, x: Proc, now: int)
    requires Inv(db) && ProcOk(db.receipts, |db.intents|, x) && x.request.Verify? && !x.stage.MustExpire?
    requires AdvanceVerify(db, x, now).Some?
    ensures MoveOk(db, x, AdvanceVerify(db, x, now).value)
  {
    if x.stage == Started {
      VerifyStarts(db, x, now);
    } else {
      ConfirmMove(db, x, x.stage.id);
    }
  }

  lemma VerifyStarts(db: Db, x: Proc, now: int)
    requires Inv(db) && ProcOk(db.receipts, |db.intents|, x) && x.request.Verify? && x.stage == Started
    ensures AdvanceVerify(db, x, now).Some? && MoveOk(db, x, AdvanceVerify(db, x, now).value)
  {
    VerifyStartStage(db, x, now);
    ReadOnlyMove(db, x, AdvanceVerify(db, x, now).value.proc.stage);
  }

  lemma VerifyStartStage(db: Db, x: Proc, now: int)
    requires x.request.Verify? && x.stage == Started && x.win.None?
    ensures var m := AdvanceVerify(db, x, now);
      && m.Some? && m.value.db == db && m.value.proc == x.(stage := m.value.proc.stage)
      && StageOk(db.receipts, |db.intents|, m.value.proc)
  {
  }

  lemma AdvanceProcOk(db: Db, x: Proc, now: int)
    requires Inv(db) && ProcOk(db.receipts, |db.intents|, x) && AdvanceProc(db, x, now).Some?
    ensures MoveOk(db, x, AdvanceProc(db, x, now).value)
  {
    if x.stage.MustExpire? {
      ExpiryMoves(db, x, now);
    } else if x.request.Verify? {
      VerifyMoves(db, x, now);
    } else {
      match x.stage
      case Started => RedeemStarts(db, x, now);
      case Passed(id, _) => ReadOnlyMove(db, x, Snapped(id, db.receipts[id]));
      case Snapped(_, _) => UpdateIsSound(db, x, now);
      case Won(_) => ReadBackMoves(db, x, now);
      case Logging(_, _, _) => LoggingMoves(db, x, now);
      case Missed(_) => ReadOnlyMove(db, x, Denied("RECEIPT_NOT_ACTIVE"));
    }
  }

  lemma ReadBackMoves(db: Db, x: Proc, now: int)
    requires Inv(db) && ProcOk(db.receipts, |db.intents|, x) && x.request.Redeem? && x.stage.Won?
    ensures AdvanceRedeem(db, x, now).Some? && MoveOk(db, x, AdvanceRedeem(db, x, now).value)
  {
    ReadOnlyMove(db, x, AdvanceRedeem(db, x, now).value.proc.stage);
  }

  lemma AdvanceKeepsInv(s: State, p: nat, now: int)
    requires RunInv(s) && p < |s.procs| && AdvanceProc(s.db, s.procs[p], now).Some?
    ensures var m := AdvanceProc(s.db, s.procs[p], now).value;
            RunInv(State(m.db, s.procs[p := m.proc])) && RowsAdvance(s.db.receipts, m.db.receipts)
  {
    var x := s.procs[p];
    assert ProcOk(s.db.receipts, |s.db.intents|, x);
    AdvanceProcOk(s.db, x, now);
    var m := AdvanceProc(s.db, x, now).value;
    ProcsSurvive(s.db.receipts, m.db.receipts, |s.db.intents|, |m.db.intents|, s.procs);
    if m.proc.win == x.win {
      QuietMoveKeepsSlots(s.db.receipts, m.db.receipts, s.procs, p, m.proc);
    } else {
      WinKeepsSlots(s.db.receipts, s.procs, |s.db.intents|, p, m.proc, m.db.receipts[m.proc.win.value.id]);
    }
  }

  /** The invariant survives every step of every participant. */
  lemma StepKeepsInv(s: State, e: Step)
    requires RunInv(s) && Next(s, e).Some?
    ensures RunInv(Next(s, e).value) && RowsAdvance(s.db.receipts, Next(s, e).value.db.receipts)
  {
    match e
    case Create(c) =>
      CreateKeepsInv(s.db, c.input, c.rt, c.fiber, c.now, c.later, c.jti);
      if Perform(s.db, c).Committed? {
        TransactionKeepsInv(s, Perform(s.db, c).db);
      }
    case ReconcileOne(rt, intent, fiber, now, jti) =>
      ReconcileKeepsInv(s.db, rt, intent, fiber, now, jti);
      var r := Reconcile(s.db, rt, intent, fiber, now, jti);
      if r.Reconciled? {
        TransactionKeepsInv(s, r.db);
      }
    case Arrive(q) => ArrivalKeepsInv(s, q);
    case Advance(p, now) => AdvanceKeepsInv(s, p, now);
    case Crash(p) => CrashKeepsInv(s, p);
  }

  lemma CrashKeepsInv(s: State, p: nat)
    requires RunInv(s) && p < |s.procs|
    ensures RunInv(s.(procs := s.procs[p := s.procs[p].(stage := Crashed)]))
  {
    var x := s.procs[p].(stage := Crashed);
    assert ProcOk(s.db.receipts, |s.db.intents|, s.procs[p]);
    QuietMoveKeepsSlots(s.db.receipts, s.db.receipts, s.procs, p, x);
  }

  lemma RowsAdvanceTransitive(a: seq<Receipt>, b: seq<Receipt>, c: seq<Receipt>)
    requires RowsAdvance(a, b) && RowsAdvance(b, c)
    ensures RowsAdvance(a, c)
  {
    forall r | 0 <= r < |a|
      ensures LaterRow(c[r], a[r])
    {
      assert LaterRow(b[r], a[r]) && LaterRow(c[r], b[r]);
    }
  }

  /** Over any run, from any state that keeps the invariant: the invariant holds at the end, no receipt
      disappears, no count ever drops, and a receipt that lost `active` never gets it back. */
  lemma {:induction false} RunKeepsInv(s: State, steps: seq<Step>)
    requires RunInv(s) && Run(s, steps).Some?
    ensures RunInv(Run(s, steps).value) && RowsAdvance(s.db.receipts, Run(s, steps).value.db.receipts)
    decreases |steps|
  {
    if steps != [] {
      var s1 := Next(s, steps[0]).value;
      StepKeepsInv(s, steps[0]);
      RunKeepsInv(s1, steps[1..]);
      RowsAdvanceTransitive(s.db.receipts, s1.db.receipts, Run(s1, steps[1..]).value.db.receipts);
    }
  }

  // ----- what requests never touch -----

  lemma RequestsKeepTables(db: Db, x: Proc, now: int)
    requires AdvanceProc(db, x, now).Some?
    ensures var m := AdvanceProc(db, x, now).value;
            m.db.policies == db.policies && m.db.intents == db.intents
            && |m.db.receipts| == |db.receipts|
  {
  }

  /** What every step of the system keeps: policies, the terms of intents, and the terms of receipts. */
  predicate LaterDb(before: Db, after: Db) {
    && before.policies <= after.policies
    && |before.intents| <= |after.intents|
    && (forall i | 0 <= i < |before.intents| :: SameTerms(after.intents[i], before.intents[i]))
    && RowsAdvance(before.receipts, after.receipts)
  }

  lemma ExtendsIsLater(before: Db, after: Db)
    requires Extends(before, after)
    ensures LaterDb(before, after)
  {
    forall r | 0 <= r < |before.receipts|
      ensures after.receipts[r] == before.receipts[r]
    {
    }
  }

  lemma LaterTransitive(a: Db, b: Db, c: Db)
    requires LaterDb(a, b) && LaterDb(b, c)
    ensures LaterDb(a, c)
  {
    RowsAdvanceTransitive(a.receipts, b.receipts, c.receipts);
    forall i | 0 <= i < |a.intents|
      ensures SameTerms(c.intents[i], a.intents[i])
    {
      assert SameTerms(b.intents[i], a.intents[i]) && SameTerms(c.intents[i], b.intents[i]);
    }
  }

  lemma StepIsLater(s: State, e: Step)
    requires RunInv(s) && Next(s, e).Some?
    ensures LaterDb(s.db, Next(s, e).value.db)
  {
    StepKeepsInv(s, e);
    match e
    case Create(c) =>
      CreateKeepsInv(s.db, c.input, c.rt, c.fiber, c.now, c.later, c.jti);
      ExtendsIsLater(s.db, Next(s, e).value.db);
    case ReconcileOne(rt, intent, fiber, now, jti) =>
      ReconcileKeepsInv(s.db, rt, intent, fiber, now, jti);
      ExtendsIsLater(s.db, Next(s, e).value.db);
    case Advance(p, now) => RequestsKeepTables(s.db, s.procs[p], now);
    case Arrive(_) =>
    case Crash(_) =>
  }

  lemma {:induction false} RunIsLater(s: State, steps: seq<Step>)
    requires RunInv(s) && Run(s, steps).Some?
    ensures RunInv(Run(s, steps).value) && LaterDb(s.db, Run(s, steps).value.db)
    decreases |steps|
  {
    if steps != [] {
      var s1 := Next(s, steps[0]).value;
      StepKeepsInv(s, steps[0]);
      StepIsLater(s, steps[0]);
      RunIsLater(s1, steps[1..]);
      LaterTransitive(s.db, s1.db, Run(s1, steps[1..]).value.db);
    }
  }

  // ----- main results -----

  /** A response once returned stays in the run: no step takes it back or changes it. */
  lemma ResponseIsFinal(s: State, e: Step, p: nat)
    requires Next(s, e).Some? && p < |s.procs| && !InFlight(s.procs[p])
    ensures p < |Next(s, e).value.procs| && Next(s, e).value.procs[p] == s.procs[p]
  {
  }

  lemma ProcCanAdvance(db: Db, x: Proc, now: int)
    requires ProcOk(db.receipts, |db.intents|, x)
    ensures AdvanceProc(db, x, now).Some? <==> InFlight(x)
  {
  }

  /** Nothing gets stuck: at any moment of any run a request that has not been answered can make its next database
      call, whatever the clock shows, or crash, and one that has been answered can do neither; new requests,
      creations under any valid configuration and reconciliations can always take place. */
  lemma NothingIsStuck(steps: seq<Step>, e: Step)
    requires Run(EMPTY, steps).Some?
    ensures var s := Run(EMPTY, steps).value;
            Next(s, e).Some? <==>
              match e
              case Create(c) => c.rt.ttlSeconds >= 1 && c.rt.maxRedemptions >= 1
              case ReconcileOne(_, _, _, _, _) => true
              case Arrive(_) => true
              case Advance(p, _) => p < |s.procs| && InFlight(s.procs[p])
              case Crash(p) => p < |s.procs| && InFlight(s.procs[p])
  {
    EmptyIsOk();
    RunKeepsInv(EMPTY, steps);
    var s := Run(EMPTY, steps).value;
    if e.Advance? && e.p < |s.procs| {
      ProcCanAdvance(s.db, s.procs[e.p], e.now);
    }
  }

  lemma {:induction false} ResponsesStay(s: State, steps: seq<Step>, p: nat)
    requires Run(s, steps).Some? && p < |s.procs| && !InFlight(s.procs[p])
    ensures p < |Run(s, steps).value.procs| && Run(s, steps).value.procs[p] == s.procs[p]
    decreases |steps|
  {
    if steps != [] {
      ResponseIsFinal(s, steps[0], p);
      ResponsesStay(Next(s, steps[0]).value, steps[1..], p);
    }
  }

  predicate GrantedFor(x: Proc, r: nat) {
    x.stage.Granted? && x.stage.id == r
  }

  /** The GRANTED responses returned for one receipt. */
  function CountGrants(procs: seq<Proc>, r: nat): nat {
    if procs == [] then 0
    else CountGrants(procs[..|procs| - 1], r) + if GrantedFor(procs[|procs| - 1], r) then 1 else 0
  }

  predicate GrantedForPayment(db: Db, x: Proc, payment: string) {
    && x.stage.Granted? && x.stage.id < |db.receipts| && db.receipts[x.stage.id].intent < |db.intents|
    && db.intents[db.receipts[x.stage.id].intent].paymentRef == Some(payment)
  }

  /** The GRANTED responses returned for receipts of one payment reference. */
  function CountPaymentGrants(db: Db, procs: seq<Proc>, payment: string): nat {
    if procs == [] then 0
    else CountPaymentGrants(db, procs[..|procs| - 1], payment)
         + if GrantedForPayment(db, procs[|procs| - 1], payment) then 1 else 0
  }

  lemma {:induction false} GrantsAreWins(procs: seq<Proc>, r: nat)
    requires forall i | 0 <= i < |procs| && GrantedFor(procs[i], r) :: Wins(procs[i], r)
    ensures CountGrants(procs, r) <= CountWins(procs, r)
  {
    if procs != [] {
      GrantsAreWins(procs[..|procs| - 1], r);
    }
  }

  lemma {:induction false} PaymentGrantsAreReceiptGrants(db: Db, procs: seq<Proc>, payment: string, r: nat)
    requires forall i | 0 <= i < |procs| && GrantedForPayment(db, procs[i], payment) :: GrantedFor(procs[i], r)
    ensures CountPaymentGrants(db, procs, payment) <= CountGrants(procs, r)
  {
    if procs != [] {
      PaymentGrantsAreReceiptGrants(db, procs[..|procs| - 1], payment, r);
    }
  }

  lemma {:induction false} NoPaymentGrants(db: Db, procs: seq<Proc>, payment: string)
    requires forall i | 0 <= i < |procs| :: !GrantedForPayment(db, procs[i], payment)
    ensures CountPaymentGrants(db, procs, payment) == 0
  {
    if procs != [] {
      NoPaymentGrants(db, procs[..|procs| - 1], payment);
    }
  }

  lemma EmptyIsOk()
    ensures RunInv(EMPTY)
  {
  }

  /** Over all runs of creation, reconciliation, verification and redemption, every database call
      interleaved, with crashes and any Fiber answers, any tokens and any clocks: a payment reference has at
      most one intent and that intent at most one receipt; the GRANTED responses ever returned for the
      payment are at most that receipt's use count, which is at most its maximum; without a receipt there
      are none. */
  lemma GrantsPerPaymentAreBounded(steps: seq<Step>, payment: string)
    requires Run(EMPTY, steps).Some?
    ensures var s := Run(EMPTY, steps).value;
            var db := s.db;
      && (forall i, j | 0 <= i < |db.intents| && 0 <= j < |db.intents|
            && db.intents[i].paymentRef == Some(payment) && db.intents[j].paymentRef == Some(payment) :: i == j)
      && (forall r, t | 0 <= r < |db.receipts| && 0 <= t < |db.receipts|
            && PaidBy(db, r, payment) && PaidBy(db, t, payment) :: r == t)
      && (forall r | 0 <= r < |db.receipts| && PaidBy(db, r, payment) ::
            CountPaymentGrants(db, s.procs, payment) <= db.receipts[r].count <= db.receipts[r].maxRedemptions)
      && ((forall r | 0 <= r < |db.receipts| :: !PaidBy(db, r, payment)) ==>
            CountPaymentGrants(db, s.procs, payment) == 0)
  {
    EmptyIsOk();
    RunKeepsInv(EMPTY, steps);
    var s := Run(EMPTY, steps).value;
    PaymentsAreDistinct(s.db, payment);
    if r :| 0 <= r < |s.db.receipts| && PaidBy(s.db, r, payment) {
      PaidGrantsAreBounded(s, r, payment);
    } else {
      UnpaidHasNoGrants(s, payment);
    }
  }

  lemma PaymentsAreDistinct(db: Db, payment: string)
    requires Inv(db)
    ensures forall i, j | 0 <= i < |db.intents| && 0 <= j < |db.intents|
              && db.intents[i].paymentRef == Some(payment) && db.intents[j].paymentRef == Some(payment) :: i == j
    ensures forall r, t | 0 <= r < |db.receipts| && 0 <= t < |db.receipts|
              && PaidBy(db, r, payment) && PaidBy(db, t, payment) :: r == t
  {
  }

  lemma PaidGrantsAreBounded(s: State, r: nat, payment: string)
    requires RunInv(s) && r < |s.db.receipts| && PaidBy(s.db, r, payment)
    ensures CountPaymentGrants(s.db, s.procs, payment) <= s.db.receipts[r].count <= s.db.receipts[r].maxRedemptions
  {
    var db := s.db;
    PaymentsAreDistinct(db, payment);
    forall i | 0 <= i < |s.procs|
      ensures GrantedForPayment(db, s.procs[i], payment) ==> GrantedFor(s.procs[i], r)
      ensures GrantedFor(s.procs[i], r) ==> Wins(s.procs[i], r)
    {
      assert ProcOk(db.receipts, |db.intents|, s.procs[i]);
      if GrantedForPayment(db, s.procs[i], payment) {
        assert PaidBy(db, s.procs[i].stage.id, payment);
      }
    }
    PaymentGrantsAreReceiptGrants(db, s.procs, payment, r);
    GrantsAreWins(s.procs, r);
    assert RowOk(db.receipts[r]);
  }

  lemma UnpaidHasNoGrants(s: State, payment: string)
    requires RunInv(s) && forall r | 0 <= r < |s.db.receipts| :: !PaidBy(s.db, r, payment)
    ensures CountPaymentGrants(s.db, s.procs, payment) == 0
  {
    forall i | 0 <= i < |s.procs|
      ensures !GrantedForPayment(s.db, s.procs[i], payment)
    {
      if GrantedForPayment(s.db, s.procs[i], payment) {
        assert PaidBy(s.db, s.procs[i].stage.id, payment);
      }
    }
    NoPaymentGrants(s.db, s.procs, payment);
  }

  /** The receipt was issued for this payment. */
  predicate PaidBy(db: Db, r: nat, payment: string)
    requires r < |db.receipts|
  {
    db.receipts[r].intent < |db.intents| && db.intents[db.receipts[r].intent].paymentRef == Some(payment)
  }

  /** Compare-and-swap redemption, over all runs: the snapshot counts of a receipt's winners are pairwise
      distinct and are exactly 0 .. count-1, there are exactly `count` winners, and the row is active
      exactly while ISSUED, below its limit while ISSUED, and at its limit when EXHAUSTED. */
  lemma WinnersFillSlots(steps: seq<Step>, r: nat)
    requires Run(EMPTY, steps).Some? && r < |Run(EMPTY, steps).value.db.receipts|
    ensures var s := Run(EMPTY, steps).value;
            var row := s.db.receipts[r];
      && CountWins(s.procs, r) == row.count && 0 <= row.count <= row.maxRedemptions
      && (row.active <==> row.status == Issued) && (row.status == Issued ==> row.count < row.maxRedemptions)
      && (row.status == Exhausted ==> row.count == row.maxRedemptions) && row.status != Revoked
      && (forall k: int :: 0 <= k < row.count <==> SlotTaken(s.procs, r, k))
      && (forall i, j, k: int | 0 <= i < |s.procs| && 0 <= j < |s.procs|
            && WonSlot(s.procs[i], r, k) && WonSlot(s.procs[j], r, k) :: i == j)
  {
    EmptyIsOk();
    RunKeepsInv(EMPTY, steps);
    var s := Run(EMPTY, steps).value;
    assert RowOk(s.db.receipts[r]);
    forall k: int | SlotTaken(s.procs, r, k)
      ensures 0 <= k < s.db.receipts[r].count
    {
      var i :| 0 <= i < |s.procs| && WonSlot(s.procs[i], r, k);
      assert ProcOk(s.db.receipts, |s.db.intents|, s.procs[i]);
    }
  }

  /** Every GRANTED response, despite its stale snapshot, goes back to one moment at which the receipt was
      active, ISSUED, unexpired and below its limit and matched both the signed claims and the request; the
      count it reports is past its own slot and at most the maximum. */
  lemma GrantIsSound(steps: seq<Step>, p: nat)
    requires Run(EMPTY, steps).Some? && p < |Run(EMPTY, steps).value.procs|
    requires Run(EMPTY, steps).value.procs[p].stage.Granted?
    ensures var s := Run(EMPTY, steps).value;
            var x := s.procs[p];
      && x.win.Some? && x.win.value.id == x.stage.id
      && WinOk(s.db.receipts, x.request, x.win.value)
      && x.win.value.row.count + 1 <= x.stage.count <= x.stage.max
      && x.stage.max == x.win.value.row.maxRedemptions
  {
    EmptyIsOk();
    RunKeepsInv(EMPTY, steps);
    var s := Run(EMPTY, steps).value;
    assert ProcOk(s.db.receipts, |s.db.intents|, s.procs[p]);
    assert RowOk(s.db.receipts[s.procs[p].stage.id]);
  }

  /** After every step of every run, whatever the Fiber node answers: an intent has a receipt exactly when
      its status is RECEIPT_ISSUED, it has as many ACCESS_RECEIPT_ISSUED events as receipts (at most one),
      and every receipt copies its intent's policy, resource and subject and its policy's terms. */
  lemma LifecycleHolds(steps: seq<Step>)
    requires Run(EMPTY, steps).Some?
    ensures var db := Run(EMPTY, steps).value.db;
      && PoliciesExist(db)
      && (forall i | 0 <= i < |db.intents| ::
            && (HasReceipt(db.receipts, i) <==> db.intents[i].status == ReceiptIssued)
            && CountEvents(db.events, ReceiptIssuedEvent, i) == if HasReceipt(db.receipts, i) then 1 else 0)
      && (forall r | 0 <= r < |db.receipts| ::
            db.receipts[r].intent < |db.intents|
            && Copies(db.receipts[r], db.intents[db.receipts[r].intent],
                      db.policies[db.intents[db.receipts[r].intent].policy]))
      && (forall r, t | 0 <= r < |db.receipts| && 0 <= t < |db.receipts| && r != t ::
            db.receipts[r].intent != db.receipts[t].intent)
  {
    EmptyIsOk();
    RunKeepsInv(EMPTY, steps);
    var db := Run(EMPTY, steps).value.db;
    forall i | 0 <= i < |db.intents|
      ensures HasReceipt(db.receipts, i) <==> db.intents[i].status == ReceiptIssued
      ensures CountEvents(db.events, ReceiptIssuedEvent, i) == if HasReceipt(db.receipts, i) then 1 else 0
    {
      assert LifecycleAt(db, i);
    }
  }

  /** In any run: once a creation with some trimmed key has committed, any later creation with that key, whatever
      has happened in between, answers with the intent of the first and changes nothing, if and only if the key
      is not blank; a blank key makes it fail. */
  lemma KeyReplaysInAnyRun(before: seq<Step>, c1: Call, after: seq<Step>, c2: Call, key: string)
    requires Run(EMPTY, before).Some? && ValidRuntime(c1.rt)
    requires Trimmed(c1.input.idempotencyKey) == Some(key) && Trimmed(c2.input.idempotencyKey) == Some(key)
    requires var s := Run(EMPTY, before).value;
      && Perform(s.db, c1).Committed?
      && Run(s.(db := Perform(s.db, c1).db), after).Some?
    ensures var s := Run(EMPTY, before).value;
            var first := Perform(s.db, c1);
            var db := Run(s.(db := first.db), after).value.db;
      && Perform(db, c2) == Replayed(db, first.intent, key)
      && (Perform(db, c2) == Committed(db, first.intent, false, None) <==> key != "")
  {
    EmptyIsOk();
    RunKeepsInv(EMPTY, before);
    var s := Run(EMPTY, before).value;
    var first := Perform(s.db, c1);
    var s1 := s.(db := first.db);
    assert Next(s, Create(c1)) == Some(s1);
    StepKeepsInv(s, Create(c1));
    CreatedHoldsKey(s.db, c1, key);
    RunIsLater(s1, after);
    var db := Run(s1, after).value.db;
    assert SameTerms(db.intents[first.intent], first.db.intents[first.intent]);
    HeldKeyReplays(db, first.intent, c2, key);
  }

  /** Why a request that passed every check can still be refused: in any run, a conditional update misses only
      if the row is no longer ISSUED, or is past its deadline, or another request has won the very slot that
      this one's snapshot pointed at. */
  lemma MissHasCause(steps: seq<Step>, p: nat, now: int)
    requires Run(EMPTY, steps).Some? && p < |Run(EMPTY, steps).value.procs|
    requires var x := Run(EMPTY, steps).value.procs[p]; x.request.Redeem? && x.stage.Snapped?
    ensures var s := Run(EMPTY, steps).value;
            var x := s.procs[p];
            var next := Next(s, Advance(p, now));
      && x.stage.id < |s.db.receipts| && next.Some?
      && var row := s.db.receipts[x.stage.id];
         (next.value.procs[p].stage.Missed? <==>
            || row.status != Issued || row.exp <= now
            || exists j :: 0 <= j < |s.procs| && j != p && WonSlot(s.procs[j], x.stage.id, x.stage.snapshot.count))
  {
    EmptyIsOk();
    RunKeepsInv(EMPTY, steps);
    MissedSlot(Run(EMPTY, steps).value, p);
  }

  /** The row has moved past a snapshot exactly when some other request has won that snapshot's slot. */
  lemma MissedSlot(s: State, p: nat)
    requires RunInv(s) && p < |s.procs| && s.procs[p].stage.Snapped?
    ensures var x := s.procs[p].stage;
      && x.id < |s.db.receipts| && RowOk(s.db.receipts[x.id])
      && (s.db.receipts[x.id].count != x.snapshot.count <==>
            exists j :: 0 <= j < |s.procs| && j != p && WonSlot(s.procs[j], x.id, x.snapshot.count))
  {
    var x := s.procs[p].stage;
    assert ProcOk(s.db.receipts, |s.db.intents|, s.procs[p]);
    var row := s.db.receipts[x.id];
    if row.count != x.snapshot.count {
      assert SlotTaken(s.procs, x.id, x.snapshot.count);
    }
    if j :| 0 <= j < |s.procs| && j != p && WonSlot(s.procs[j], x.id, x.snapshot.count) {
      assert ProcOk(s.db.receipts, |s.db.intents|, s.procs[j]);
    }
  }

  /** A receipt is set EXPIRED only past its deadline: in any run, a step that turns a row's status to EXPIRED is
      the write of one request whose token names that receipt and whose clock reading for the stored deadline was
      at or past it; nothing else of the row changes but its activity. */
  lemma ExpiresPastDeadline(steps: seq<Step>, e: Step, r: nat)
    requires Run(EMPTY, steps).Some? && Next(Run(EMPTY, steps).value, e).Some?
    requires r < |Run(EMPTY, steps).value.db.receipts|
    requires Run(EMPTY, steps).value.db.receipts[r].status != Expired
    ensures var s := Run(EMPTY, steps).value;
            var s' := Next(s, e).value;
      r < |s'.db.receipts|
      && (s'.db.receipts[r].status == Expired ==>
            && e.Advance? && e.p < |s.procs|
            && var x := s.procs[e.p];
               && x.stage.MustExpire? && x.stage.id == r && s.db.receipts[r].exp <= x.stage.at
               && (x.request.Redeem? ==> x.stage.at == x.request.now)
               && x.request.sig.claims.Some? && x.request.sig.claims.value.jti == s.db.receipts[r].jti
               && s'.db.receipts[r] == s.db.receipts[r].(status := Expired, active := false))
  {
    EmptyIsOk();
    RunKeepsInv(EMPTY, steps);
    ExpiryStep(Run(EMPTY, steps).value, e, r);
  }

  lemma ExpiryStep(s: State, e: Step, r: nat)
    requires RunInv(s) && Next(s, e).Some? && r < |s.db.receipts| && s.db.receipts[r].status != Expired
    ensures var s' := Next(s, e).value;
      r < |s'.db.receipts|
      && (s'.db.receipts[r].status == Expired ==>
            && e.Advance? && e.p < |s.procs|
            && s.procs[e.p].stage.MustExpire? && s.procs[e.p].stage.id == r
            && StageOk(s.db.receipts, |s.db.intents|, s.procs[e.p])
            && s'.db.receipts[r] == s.db.receipts[r].(status := Expired, active := false))
  {
    match e
    case Create(c) => CreateKeepsInv(s.db, c.input, c.rt, c.fiber, c.now, c.later, c.jti);
    case ReconcileOne(rt, intent, fiber, now, jti) => ReconcileKeepsInv(s.db, rt, intent, fiber, now, jti);
    case Advance(p, now) =>
      assert ProcOk(s.db.receipts, |s.db.intents|, s.procs[p]);
      MoveExpires(s.db, s.procs[p], now, r);
    case Arrive(_) =>
    case Crash(_) =>
  }

  lemma MoveExpires(db: Db, x: Proc, now: int, r: nat)
    requires AdvanceProc(db, x, now).Some? && r < |db.receipts| && db.receipts[r].status != Expired
    ensures var m := AdvanceProc(db, x, now).value;
      && r < |m.db.receipts|
      && (m.db.receipts[r].status == Expired ==>
            && x.stage.MustExpire? && x.stage.id == r
            && m.db.receipts[r] == db.receipts[r].(status := Expired, active := false))
  {
  }

  /** The reading such a request acts on: the one it was started with, for a redemption, and the one its check of
      the row was made with, for a verification. */
  lemma ReadingOfExpiry(s: State, e: Step, p: nat)
    requires Next(s, e).Some? && p < |s.procs| && !s.procs[p].stage.MustExpire?
    ensures p < |Next(s, e).value.procs|
    ensures Next(s, e).value.procs[p].stage.MustExpire? ==>
              && e.Advance? && e.p == p
              && Next(s, e).value.procs[p].stage.at
                 == if s.procs[p].request.Redeem? then s.procs[p].request.now else e.now
  {
  }

  /** A request whose row is not touched between its second read and its update cannot lose a race: it wins exactly
      when the row is still ISSUED and unexpired. */
  lemma {:induction false} NoRaceNoMiss(s: State, p: nat, earlier: int, now: int)
    requires RunInv(s) && p < |s.procs| && s.procs[p].request.Redeem? && s.procs[p].stage.Passed?
    ensures var read := Next(s, Advance(p, earlier));
      && read.Some? && read.value.db == s.db
      && var updated := Next(read.value, Advance(p, now));
         && updated.Some?
         && var id := s.procs[p].stage.id;
            id < |s.db.receipts|
            && (updated.value.procs[p].stage == Won(id) <==>
                  s.db.receipts[id].status == Issued && now < s.db.receipts[id].exp)
  {
    assert ProcOk(s.db.receipts, |s.db.intents|, s.procs[p]);
    assert RowOk(s.db.receipts[s.procs[p].stage.id]);
  }
}
