/** Any number of host transactions over the receipt relation, interleaved at the steps of the consume
    statement: lock the row, judge it, update it; then commit or roll back
    (packages/postgres-store/src/index.ts:13-49). Row locks follow READ COMMITTED: a lock is taken on the
    latest committed row and held to the end of the transaction. */
module StoreTransactions {
  import opened Basics
  import opened StoreContract
  import opened Entitlements

  /** One answered consume call. */
  datatype Answer = Answer(jti: string, result: ConsumeResult)

  /** Where a session stands inside the statement. */
  datatype Stage =
    | Ready
    | Locked(c: Command, found: bool)
    | Judged(c: Command, verdict: ConsumeResult)

  /** An open transaction: its own version of every row it has locked, and the answers it was given. */
  datatype Session = Session(working: Ledger, stage: Stage, log: seq<Answer>)

  /** `base` is the count each receipt was stored with; `history` the answers of committed transactions. */
  datatype State = State(
    committed: Ledger, base: map<string, int>, open: map<nat, Session>, history: seq<Answer>)

  datatype Event =
    | Register(jti: string, entry: Entry)
    | Begin(t: nat)
    | Lock(t: nat, c: Command)
    | JudgeRow(t: nat, t0: int, t1: int)
    | Update(t: nat)
    | Revoke(t: nat, jti: string)
    | Commit(t: nat)
    | Rollback(t: nat)

  /** Nobody but `t` holds the row. */
  predicate LockFree(s: State, t: nat, jti: string) {
    forall u <- s.open :: u != t ==> jti !in s.open[u].working
  }

  /** The row as transaction `t` sees it. */
  function Seen(s: State, x: Session, jti: string): Entry
    requires jti in s.committed
  {
    if jti in x.working then x.working[jti] else s.committed[jti]
  }

  /** The first step on a session: take the lock on the latest committed row, if there is one. */
  function LockedSession(m: Ledger, x: Session, c: Command): Session {
    if c.jti !in m then x.(stage := Locked(c, false))
    else
      x.(working := x.working[c.jti := if c.jti in x.working then x.working[c.jti] else m[c.jti]],
         stage := Locked(c, true))
  }

  /** The second: judge the locked row under two fresh clock readings. */
  function JudgedSession(x: Session, t0: int, t1: int): Session
    requires x.stage.Locked?
  {
    var c := x.stage.c;
    x.(stage := Judged(c, if x.stage.found && c.jti in x.working
                          then Judge(x.working[c.jti], c, t0, t1) else ReceiptMissing))
  }

  /** The third: the guarded update, and the row the statement answers with. */
  function Updated(x: Session): Session
    requires x.stage.Judged?
  {
    var jti := x.stage.c.jti;
    if !x.stage.verdict.Consumed? then x.(stage := Ready, log := x.log + [Answer(jti, x.stage.verdict)])
    else if jti in x.working && x.working[jti].count < x.working[jti].maxRedemptions then
      var used := Use(x.working[jti]);
      x.(stage := Ready, working := x.working[jti := used],
         log := x.log + [Answer(jti, Consumed(used.count == used.maxRedemptions))])
    else x.(stage := Ready, log := x.log + [Answer(jti, ConcurrencyConflict)])
  }

  /** One step; `None` when the step is not enabled (a lock request then simply waits). */
  function Next(s: State, e: Event): Option<State> {
    match e
    case Register(jti, entry) =>
      if jti in s.committed || jti == "" || !ValidEntry(entry) then None
      else Some(s.(committed := s.committed[jti := entry], base := s.base[jti := entry.count]))
    case Begin(t) =>
      if t in s.open then None else Some(s.(open := s.open[t := Session(map[], Ready, [])]))
    case Lock(t, c) =>
      if t !in s.open || s.open[t].stage != Ready then None
      else if c.jti in s.committed && !LockFree(s, t, c.jti) then None
      else Some(s.(open := s.open[t := LockedSession(s.committed, s.open[t], c)]))
    case JudgeRow(t, t0, t1) =>
      if t !in s.open || !s.open[t].stage.Locked? then None
      else Some(s.(open := s.open[t := JudgedSession(s.open[t], t0, t1)]))
    case Update(t) =>
      if t !in s.open || !s.open[t].stage.Judged? then None
      else Some(s.(open := s.open[t := Updated(s.open[t])]))
    case Revoke(t, jti) =>
      if t !in s.open || s.open[t].stage != Ready || jti !in s.committed || !LockFree(s, t, jti) then None
      else
        var x := s.open[t];
        Some(s.(open := s.open[t := x.(working := x.working[jti := Seen(s, x, jti).(revoked := true)])]))
    case Commit(t) =>
      if t !in s.open || s.open[t].stage != Ready then None
      else Some(s.(committed := s.committed + s.open[t].working,
                   open := s.open - {t},
                   history := s.history + s.open[t].log))
    case Rollback(t) =>
      if t !in s.open then None else Some(s.(open := s.open - {t}))
  }

  const EMPTY := State(map[], map[], map[], [])

  function Run(s: State, events: seq<Event>): Option<State>
    decreases |events|
  {
    if events == [] then Some(s)
    else
      var n := Next(s, events[0]);
      if n.None? then None else Run(n.value, events[1..])
  }

  // ----- what the answers say -----

  predicate IsUse(a: Answer, jti: string) {
    a.jti == jti && a.result.Consumed?
  }

  /** The consumed answers for one receipt. */
  function Uses(log: seq<Answer>, jti: string): nat {
    if log == [] then 0 else (if IsUse(log[0], jti) then 1 else 0) + Uses(log[1..], jti)
  }

  /** Starting from `n` uses, exactly the consumed answer that reaches `max` says so. */
  predicate FlagsRight(log: seq<Answer>, jti: string, n: int, max: int) {
    if log == [] then true
    else if IsUse(log[0], jti) then
      (log[0].result.exhausted <==> n + 1 == max) && FlagsRight(log[1..], jti, n + 1, max)
    else FlagsRight(log[1..], jti, n, max)
  }

  predicate NoConflict(log: seq<Answer>) {
    forall i | 0 <= i < |log| :: !log[i].result.ConcurrencyConflict?
  }

  lemma {:induction false} UsesAppend(a: seq<Answer>, b: seq<Answer>, jti: string)
    ensures Uses(a + b, jti) == Uses(a, jti) + Uses(b, jti)
  {
    if a == [] {
      assert a + b == b;
    } else {
      assert (a + b)[1..] == a[1..] + b;
      UsesAppend(a[1..], b, jti);
    }
  }

  lemma {:induction false} FlagsAppend(a: seq<Answer>, b: seq<Answer>, jti: string, n: int, max: int)
    ensures FlagsRight(a + b, jti, n, max) <==>
            FlagsRight(a, jti, n, max) && FlagsRight(b, jti, n + Uses(a, jti), max)
  {
    if a == [] {
      assert a + b == b;
    } else {
      assert (a + b)[1..] == a[1..] + b;
      FlagsAppend(a[1..], b, jti, if IsUse(a[0], jti) then n + 1 else n, max);
    }
  }

  // ----- invariant -----

  /** `w` is `e` up to uses and revocation. */
  predicate SameReceipt(w: Entry, e: Entry) {
    w == e.(count := w.count, revoked := w.revoked)
  }

  predicate RowOk(w: Entry, e: Entry, log: seq<Answer>, jti: string) {
    && ValidEntry(w) && SameReceipt(w, e)
    && w.count == e.count + Uses(log, jti)
    && FlagsRight(log, jti, e.count, e.maxRedemptions)
  }

  predicate StageOk(x: Session) {
    && (x.stage.Locked? && x.stage.found ==> x.stage.c.jti in x.working)
    && (x.stage.Judged? ==> !x.stage.verdict.ConcurrencyConflict?)
    && (x.stage.Judged? && x.stage.verdict.Consumed? ==>
          x.stage.c.jti in x.working
          && x.working[x.stage.c.jti].count < x.working[x.stage.c.jti].maxRedemptions)
  }

  ghost predicate SessionOk(m: Ledger, x: Session) {
    && (forall k <- x.working :: k in m && RowOk(x.working[k], m[k], x.log, k))
    && (forall k: string :: k !in x.working ==> Uses(x.log, k) == 0)
    && StageOk(x)
    && NoConflict(x.log)
  }

  predicate LocksExclusive(s: State) {
    forall t, u | t in s.open && u in s.open && t != u ::
      s.open[t].working.Keys !! s.open[u].working.Keys
  }

  ghost predicate HistoryOk(s: State) {
    && s.base.Keys == s.committed.Keys
    && (forall k <- s.committed ::
          && s.committed[k].count == s.base[k] + Uses(s.history, k)
          && FlagsRight(s.history, k, s.base[k], s.committed[k].maxRedemptions))
    && (forall k: string :: k !in s.committed ==> Uses(s.history, k) == 0)
    && NoConflict(s.history)
  }

  ghost predicate Inv(s: State) {
    && ValidLedger(s.committed)
    && LocksExclusive(s)
    && (forall t <- s.open :: SessionOk(s.committed, s.open[t]))
    && HistoryOk(s)
  }

  // ----- preservation -----

  lemma SessionStep(s: State, t: nat, x: Session)
    requires Inv(s) && t in s.open && SessionOk(s.committed, x)
    requires forall k <- x.working :: k !in s.open[t].working ==> LockFree(s, t, k)
    ensures Inv(s.(open := s.open[t := x]))
  {
    LocksStayExclusive(s, t, x);
  }

  lemma LocksStayExclusive(s: State, t: nat, x: Session)
    requires LocksExclusive(s) && t in s.open
    requires forall k <- x.working :: k !in s.open[t].working ==> LockFree(s, t, k)
    ensures LocksExclusive(s.(open := s.open[t := x]))
  {
    var s' := s.(open := s.open[t := x]);
    forall u, v | u in s'.open && v in s'.open && u != v
      ensures s'.open[u].working.Keys !! s'.open[v].working.Keys
    {
      if u != t && v != t {
        assert s.open[u].working.Keys !! s.open[v].working.Keys;
      } else {
        var w := if u == t then v else u;
        assert s.open[t].working.Keys !! s.open[w].working.Keys;
      }
    }
  }

  lemma LockKeepsSession(m: Ledger, x: Session, c: Command)
    requires ValidLedger(m) && SessionOk(m, x) && c.jti in m && x.stage == Ready
    ensures var w := if c.jti in x.working then x.working[c.jti] else m[c.jti];
            SessionOk(m, x.(working := x.working[c.jti := w], stage := Locked(c, true)))
  {
    if c.jti !in x.working {
      NoUsesFlags(x.log, c.jti, m[c.jti].count, m[c.jti].maxRedemptions);
    }
  }

  lemma {:induction false} NoUsesFlags(log: seq<Answer>, jti: string, n: int, max: int)
    requires Uses(log, jti) == 0
    ensures FlagsRight(log, jti, n, max)
  {
    if log != [] {
      NoUsesFlags(log[1..], jti, n, max);
    }
  }

  lemma UpdateKeepsSession(m: Ledger, x: Session)
    requires SessionOk(m, x) && x.stage.Judged?
    ensures SessionOk(m, Updated(x))
    ensures x.stage.verdict.Consumed? <==> IsUse(Updated(x).log[|x.log|], x.stage.c.jti)
  {
    var x' := Updated(x);
    var a := x'.log[|x.log|];
    assert x'.log == x.log + [a];
    forall k: string
      ensures Uses(x'.log, k) == Uses(x.log, k) + if IsUse(a, k) then 1 else 0
    {
      AnswerAppended(x.log, a, k);
    }
    forall k <- x'.working
      ensures k in m && RowOk(x'.working[k], m[k], x'.log, k)
    {
      assert RowOk(x.working[k], m[k], x.log, k);
      if IsUse(a, k) {
        UseKeepsRow(x.working[k], m[k], x.log, a, k);
      } else {
        OtherAnswerKeepsRow(x.working[k], m[k], x.log, a, k);
      }
    }
  }

  lemma AnswerAppended(log: seq<Answer>, a: Answer, jti: string)
    ensures Uses(log + [a], jti) == Uses(log, jti) + if IsUse(a, jti) then 1 else 0
  {
    UsesAppend(log, [a], jti);
  }

  lemma UseKeepsRow(w: Entry, e: Entry, log: seq<Answer>, a: Answer, jti: string)
    requires RowOk(w, e, log, jti) && w.count < w.maxRedemptions && IsUse(a, jti)
    requires a.result.exhausted <==> w.count + 1 == w.maxRedemptions
    ensures RowOk(Use(w), e, log + [a], jti)
  {
    AnswerAppended(log, a, jti);
    FlagsAppend(log, [a], jti, e.count, e.maxRedemptions);
    assert FlagsRight([a][1..], jti, w.count + 1, e.maxRedemptions);
  }

  lemma OtherAnswerKeepsRow(w: Entry, e: Entry, log: seq<Answer>, a: Answer, jti: string)
    requires RowOk(w, e, log, jti) && !IsUse(a, jti)
    ensures RowOk(w, e, log + [a], jti)
  {
    AnswerAppended(log, a, jti);
    FlagsAppend(log, [a], jti, e.count, e.maxRedemptions);
    assert FlagsRight([a][1..], jti, w.count, e.maxRedemptions);
  }

  lemma RevokeKeepsSession(m: Ledger, x: Session, jti: string)
    requires ValidLedger(m) && SessionOk(m, x) && jti in m
    ensures var w := if jti in x.working then x.working[jti] else m[jti];
            SessionOk(m, x.(working := x.working[jti := w.(revoked := true)]))
  {
    var w := if jti in x.working then x.working[jti] else m[jti];
    assert RowOk(w, m[jti], x.log, jti) by {
      if jti !in x.working {
        NoUsesFlags(x.log, jti, m[jti].count, m[jti].maxRedemptions);
      }
    }
    var working := x.working[jti := w.(revoked := true)];
    forall k <- working
      ensures k in m && RowOk(working[k], m[k], x.log, k)
    {
      if k != jti {
        assert RowOk(x.working[k], m[k], x.log, k);
      }
    }
  }

  lemma RegisterKeepsInv(s: State, jti: string, entry: Entry)
    requires Inv(s) && Next(s, Register(jti, entry)).Some?
    ensures Inv(Next(s, Register(jti, entry)).value)
  {
    var s' := Next(s, Register(jti, entry)).value;
    NoUsesFlags(s.history, jti, entry.count, entry.maxRedemptions);
    forall t <- s'.open
      ensures SessionOk(s'.committed, s'.open[t])
    {
      RegisterKeepsSession(s.committed, s.open[t], jti, entry);
    }
    assert LocksExclusive(s');
  }

  lemma RegisterKeepsSession(m: Ledger, x: Session, jti: string, entry: Entry)
    requires SessionOk(m, x) && jti !in m
    ensures SessionOk(m[jti := entry], x)
  {
    forall k <- x.working
      ensures k in m[jti := entry] && m[jti := entry][k] == m[k]
    {
      assert k in m;
    }
  }

  /** Committing one session leaves every other one as it was: their locked rows are disjoint. */
  lemma CommitKeepsSession(s: State, t: nat, u: nat)
    requires Inv(s) && t in s.open && u in s.open && t != u
    ensures SessionOk(s.committed + s.open[t].working, s.open[u])
  {
    assert SessionOk(s.committed, s.open[u]);
    assert s.open[t].working.Keys !! s.open[u].working.Keys;
    var m, m' := s.committed, s.committed + s.open[t].working;
    forall k <- s.open[u].working
      ensures k in m' && m'[k] == m[k]
    {
    }
  }

  lemma CommitKeepsLedger(s: State, t: nat)
    requires Inv(s) && t in s.open
    ensures var m' := s.committed + s.open[t].working;
      && ValidLedger(m') && m'.Keys == s.committed.Keys
      && forall k <- m' ::
           && m'[k].maxRedemptions == s.committed[k].maxRedemptions
           && m'[k].count == s.committed[k].count + Uses(s.open[t].log, k)
           && FlagsRight(s.open[t].log, k, s.committed[k].count, s.committed[k].maxRedemptions)
  {
    var x := s.open[t];
    assert SessionOk(s.committed, x);
    var m' := s.committed + x.working;
    assert m'.Keys == s.committed.Keys;
    forall k <- m'
      ensures k != "" && ValidEntry(m'[k])
      ensures m'[k].maxRedemptions == s.committed[k].maxRedemptions
      ensures m'[k].count == s.committed[k].count + Uses(x.log, k)
      ensures FlagsRight(x.log, k, s.committed[k].count, s.committed[k].maxRedemptions)
    {
      if k in x.working {
        assert RowOk(x.working[k], s.committed[k], x.log, k);
      } else {
        NoUsesFlags(x.log, k, s.committed[k].count, s.committed[k].maxRedemptions);
      }
    }
  }

  lemma CommitKeepsHistory(s: State, t: nat)
    requires Inv(s) && t in s.open
    ensures HistoryOk(s.(committed := s.committed + s.open[t].working,
                         open := s.open - {t}, history := s.history + s.open[t].log))
  {
    CommitKeepsLedger(s, t);
    SessionIsOk(s, t);
    HistoryGrows(s, s.committed + s.open[t].working, s.open[t].log);
  }

  lemma SessionIsOk(s: State, t: nat)
    requires Inv(s) && t in s.open
    ensures forall k: string :: k !in s.committed ==> Uses(s.open[t].log, k) == 0
    ensures NoConflict(s.open[t].log)
  {
    assert SessionOk(s.committed, s.open[t]);
  }

  /** The answers `log`, and a ledger that counts their uses, are added to the history. */
  lemma HistoryGrows(s: State, m: Ledger, log: seq<Answer>)
    requires HistoryOk(s) && m.Keys == s.committed.Keys && NoConflict(log)
    requires forall k: string :: k !in s.committed ==> Uses(log, k) == 0
    requires forall k <- m ::
               && m[k].maxRedemptions == s.committed[k].maxRedemptions
               && m[k].count == s.committed[k].count + Uses(log, k)
               && FlagsRight(log, k, s.committed[k].count, s.committed[k].maxRedemptions)
    ensures forall open: map<nat, Session> ::
              HistoryOk(State(m, s.base, open, s.history + log))
  {
    var history := s.history + log;
    forall k: string
      ensures Uses(history, k) == Uses(s.history, k) + Uses(log, k)
    {
      UsesAppend(s.history, log, k);
    }
    forall k <- m
      ensures FlagsRight(history, k, s.base[k], m[k].maxRedemptions)
    {
      FlagsAppend(s.history, log, k, s.base[k], m[k].maxRedemptions);
    }
  }

  lemma CommitKeepsInv(s: State, t: nat)
    requires Inv(s) && Next(s, Commit(t)).Some?
    ensures Inv(Next(s, Commit(t)).value)
  {
    CommitKeepsLedger(s, t);
    CommitKeepsHistory(s, t);
    forall u | u in s.open && u != t
      ensures SessionOk(s.committed + s.open[t].working, s.open[u])
    {
      CommitKeepsSession(s, t, u);
    }
  }

  lemma BeginKeepsInv(s: State, t: nat)
    requires Inv(s) && Next(s, Begin(t)).Some?
    ensures Inv(Next(s, Begin(t)).value)
  {
    assert SessionOk(s.committed, Session(map[], Ready, []));
  }

  lemma LockKeepsInv(s: State, t: nat, c: Command)
    requires Inv(s) && Next(s, Lock(t, c)).Some?
    ensures Inv(Next(s, Lock(t, c)).value)
  {
    if c.jti in s.committed {
      LockKeepsSession(s.committed, s.open[t], c);
    }
    SessionStep(s, t, Next(s, Lock(t, c)).value.open[t]);
  }

  lemma JudgeKeepsInv(s: State, t: nat, t0: int, t1: int)
    requires Inv(s) && Next(s, JudgeRow(t, t0, t1)).Some?
    ensures Inv(Next(s, JudgeRow(t, t0, t1)).value)
  {
    JudgeKeepsSession(s.committed, s.open[t], t0, t1);
    SessionStep(s, t, JudgedSession(s.open[t], t0, t1));
  }

  lemma JudgedHasRoom(w: Entry, c: Command, t0: int, t1: int)
    ensures var verdict := Judge(w, c, t0, t1);
            !verdict.ConcurrencyConflict? && (verdict.Consumed? ==> w.count < w.maxRedemptions)
  {
  }

  lemma JudgedStageOk(x: Session, t0: int, t1: int)
    requires x.stage.Locked? && StageOk(x)
    ensures StageOk(JudgedSession(x, t0, t1))
  {
    var c := x.stage.c;
    if x.stage.found {
      JudgedHasRoom(x.working[c.jti], c, t0, t1);
    }
  }

  lemma JudgeKeepsSession(m: Ledger, x: Session, t0: int, t1: int)
    requires SessionOk(m, x) && x.stage.Locked?
    ensures SessionOk(m, JudgedSession(x, t0, t1))
  {
    JudgedStageOk(x, t0, t1);
    SameRowsOk(m, x, JudgedSession(x, t0, t1));
  }

  /** Only the stage moved. */
  lemma SameRowsOk(m: Ledger, x: Session, x': Session)
    requires SessionOk(m, x) && x' == x.(stage := x'.stage) && StageOk(x')
    ensures SessionOk(m, x')
  {
  }

  /** The invariant survives every step, whoever takes it. */
  lemma StepKeepsInv(s: State, e: Event)
    requires Inv(s) && Next(s, e).Some?
    ensures Inv(Next(s, e).value)
  {
    match e
    case Register(jti, entry) => RegisterKeepsInv(s, jti, entry);
    case Begin(t) => BeginKeepsInv(s, t);
    case Lock(t, c) => LockKeepsInv(s, t, c);
    case JudgeRow(t, t0, t1) => JudgeKeepsInv(s, t, t0, t1);
    case Update(t) =>
      UpdateKeepsSession(s.committed, s.open[t]);
      SessionStep(s, t, Updated(s.open[t]));
    case Revoke(t, jti) =>
      RevokeKeepsSession(s.committed, s.open[t], jti);
      SessionStep(s, t, Next(s, e).value.open[t]);
    case Commit(t) => CommitKeepsInv(s, t);
    case Rollback(t) => assert Next(s, e).value.open == s.open - {t};
  }

  lemma {:induction false} RunKeepsInv(s: State, events: seq<Event>)
    requires Inv(s) && Run(s, events).Some?
    ensures Inv(Run(s, events).value)
    decreases |events|
  {
    if events != [] {
      StepKeepsInv(s, events[0]);
      RunKeepsInv(Next(s, events[0]).value, events[1..]);
    }
  }

  // ----- main results -----

  /** Over every interleaving of any number of transactions from an empty relation: the committed count
      never passes a lock holder's working count, which never passes the maximum; committed count minus
      the count first stored is exactly the number of consumed answers in committed transactions; and
      `concurrency_conflict` is never answered, committed or not. */
  lemma ConsumptionIsBounded(events: seq<Event>)
    requires Run(EMPTY, events).Some?
    ensures var s := Run(EMPTY, events).value;
      && s.base.Keys == s.committed.Keys
      && (forall k <- s.committed ::
            && 0 <= s.base[k] <= s.committed[k].count <= s.committed[k].maxRedemptions <= MAX_SAFE_INTEGER
            && s.committed[k].count - s.base[k] == Uses(s.history, k))
      && (forall t, k | t in s.open && k in s.open[t].working ::
            && k in s.committed
            && s.committed[k].count <= s.open[t].working[k].count <= s.committed[k].maxRedemptions
            && s.open[t].working[k].count - s.committed[k].count == Uses(s.open[t].log, k)
            && LockFree(s, t, k))
      && NoConflict(s.history) && (forall t <- s.open :: NoConflict(s.open[t].log))
  {
    RunKeepsInv(EMPTY, events);
    BaseNotNegative(EMPTY, events);
    var s := Run(EMPTY, events).value;
    forall t, k | t in s.open && k in s.open[t].working
      ensures k in s.committed && RowOk(s.open[t].working[k], s.committed[k], s.open[t].log, k)
      ensures LockFree(s, t, k)
    {
      assert SessionOk(s.committed, s.open[t]);
      forall u | u in s.open && u != t
        ensures k !in s.open[u].working
      {
        assert s.open[t].working.Keys !! s.open[u].working.Keys;
      }
    }
  }

  lemma {:induction false} BaseNotNegative(s: State, events: seq<Event>)
    requires Run(s, events).Some? && forall k <- s.base :: 0 <= s.base[k]
    ensures forall k <- Run(s, events).value.base :: 0 <= Run(s, events).value.base[k]
    decreases |events|
  {
    if events != [] {
      BaseNotNegative(Next(s, events[0]).value, events[1..]);
    }
  }

  /** Among the committed answers for a receipt, the one that fills the last slot is the only one flagged
      as exhausting, and no use is ever answered after it. */
  lemma ExhaustingUseIsLast(events: seq<Event>, k: string, i: nat)
    requires Run(EMPTY, events).Some?
    requires var s := Run(EMPTY, events).value; k in s.committed && i < |s.history| && IsUse(s.history[i], k)
    ensures var s := Run(EMPTY, events).value;
      && k in s.base
      && (s.history[i].result.exhausted <==>
            s.base[k] + Uses(s.history[..i], k) + 1 == s.committed[k].maxRedemptions)
      && (s.history[i].result.exhausted ==> forall j | i < j < |s.history| :: !IsUse(s.history[j], k))
  {
    RunKeepsInv(EMPTY, events);
    var s := Run(EMPTY, events).value;
    var max := s.committed[k].maxRedemptions;
    FlagAt(s.history, k, s.base[k], max, i);
    if s.history[i].result.exhausted {
      forall j | i < j < |s.history|
        ensures !IsUse(s.history[j], k)
      {
        if IsUse(s.history[j], k) {
          UsesGrow(s.history, k, i, j);
          assert false;
        }
      }
    }
  }

  lemma {:induction false} FlagAt(log: seq<Answer>, k: string, n: int, max: int, i: nat)
    requires FlagsRight(log, k, n, max) && i < |log| && IsUse(log[i], k)
    ensures log[i].result.exhausted <==> n + Uses(log[..i], k) + 1 == max
  {
    if i > 0 {
      assert log[..i][1..] == log[1..][..i - 1];
      FlagAt(log[1..], k, if IsUse(log[0], k) then n + 1 else n, max, i - 1);
    }
  }

  lemma UsesGrow(log: seq<Answer>, k: string, i: nat, j: nat)
    requires i < j < |log| && IsUse(log[i], k) && IsUse(log[j], k)
    ensures Uses(log[..i], k) + 2 <= Uses(log, k)
  {
    assert log == log[..i] + [log[i]] + log[i + 1..j] + [log[j]] + log[j + 1..];
    UsesAppend(log[..i] + [log[i]] + log[i + 1..j] + [log[j]], log[j + 1..], k);
    UsesAppend(log[..i] + [log[i]] + log[i + 1..j], [log[j]], k);
    UsesAppend(log[..i] + [log[i]], log[i + 1..j], k);
    UsesAppend(log[..i], [log[i]], k);
  }

  /** The relation as transaction `t` sees it: its own rows over the committed ones. */
  function View(s: State, t: nat): Ledger
    requires t in s.open
  {
    s.committed + s.open[t].working
  }

  /** Lock, judge, update is the whole statement: once the lock is granted, the three steps act on what
      the transaction sees exactly as the specification does, and answer the same. */
  lemma StepsAreTheStatement(s: State, t: nat, c: Command, t0: int, t1: int)
    requires Inv(s) && t in s.open && s.open[t].stage == Ready
    requires c.jti in s.committed ==> LockFree(s, t, c.jti)
    ensures var r := Run(s, [Lock(t, c), JudgeRow(t, t0, t1), Update(t)]);
            var o := Consume(View(s, t), c, t0, t1);
      && r.Some? && t in r.value.open && r.value.open[t].stage == Ready
      && View(r.value, t) == o.ledger
      && r.value.open[t].log == s.open[t].log + [Answer(c.jti, o.result)]
      && r.value.committed == s.committed
  {
    var x := s.open[t];
    var x1 := LockedSession(s.committed, x, c);
    var x2 := JudgedSession(x1, t0, t1);
    StatementOnSession(s.committed, x, c, t0, t1);
    ThreeSteps(s, t, c, t0, t1, x1, x2);
  }

  lemma ThreeSteps(s: State, t: nat, c: Command, t0: int, t1: int, x1: Session, x2: Session)
    requires t in s.open && s.open[t].stage == Ready
    requires c.jti in s.committed ==> LockFree(s, t, c.jti)
    requires x1 == LockedSession(s.committed, s.open[t], c) && x2 == JudgedSession(x1, t0, t1)
    ensures Run(s, [Lock(t, c), JudgeRow(t, t0, t1), Update(t)]) == Some(s.(open := s.open[t := Updated(x2)]))
  {
    var a, b := s.(open := s.open[t := x1]), s.(open := s.open[t := x2]);
    assert s.open[t := x1][t := x2] == s.open[t := x2];
    assert s.open[t := x2][t := Updated(x2)] == s.open[t := Updated(x2)];
    RunThree(s, Lock(t, c), JudgeRow(t, t0, t1), Update(t), a, b, s.(open := s.open[t := Updated(x2)]));
  }

  lemma RunThree(s: State, e1: Event, e2: Event, e3: Event, a: State, b: State, d: State)
    requires Next(s, e1) == Some(a) && Next(a, e2) == Some(b) && Next(b, e3) == Some(d)
    ensures Run(s, [e1, e2, e3]) == Some(d)
  {
    assert [e1, e2, e3][1..] == [e2, e3] && [e2, e3][1..] == [e3] && [e3][1..] == [];
    RunOne(b, e3, d);
    assert Run(a, [e2, e3]) == Run(b, [e3]);
    assert Run(s, [e1, e2, e3]) == Run(a, [e2, e3]);
  }

  lemma RunOne(s: State, e: Event, d: State)
    requires Next(s, e) == Some(d)
    ensures Run(s, [e]) == Some(d)
  {
    assert [e][1..] == [];
    assert Run(d, []) == Some(d);
  }

  lemma StatementOnSession(m: Ledger, x: Session, c: Command, t0: int, t1: int)
    requires ValidLedger(m) && SessionOk(m, x) && x.stage == Ready
    ensures var o := Consume(m + x.working, c, t0, t1);
            var x' := Updated(JudgedSession(LockedSession(m, x, c), t0, t1));
      && x'.stage == Ready
      && m + x'.working == o.ledger
      && x'.log == x.log + [Answer(c.jti, o.result)]
  {
    if c.jti in m {
      var w := if c.jti in x.working then x.working[c.jti] else m[c.jti];
      SeenEntryIsValid(m, x, c.jti);
      FoundSteps(m, x, w, c, t0, t1);
      FoundOnSession(m, x.working, w, c, t0, t1);
    } else {
      assert c.jti !in m + x.working;
    }
  }

  lemma SeenEntryIsValid(m: Ledger, x: Session, jti: string)
    requires ValidLedger(m) && SessionOk(m, x) && jti in m
    ensures ValidEntry(if jti in x.working then x.working[jti] else m[jti])
  {
    if jti in x.working {
      assert RowOk(x.working[jti], m[jti], x.log, jti);
    }
  }

  lemma FoundSteps(m: Ledger, x: Session, w: Entry, c: Command, t0: int, t1: int)
    requires c.jti in m && ValidEntry(w)
    requires w == if c.jti in x.working then x.working[c.jti] else m[c.jti]
    ensures var verdict := Judge(w, c, t0, t1);
            Updated(JudgedSession(LockedSession(m, x, c), t0, t1))
            == Session(if verdict.Consumed? then x.working[c.jti := Use(w)] else x.working[c.jti := w],
                 Ready, x.log + [Answer(c.jti, verdict)])
  {
    var judged := JudgedSession(LockedSession(m, x, c), t0, t1);
    assert judged.working == x.working[c.jti := w];
    assert judged.working[c.jti := Use(w)] == x.working[c.jti := Use(w)];
  }

  lemma FoundOnSession(m: Ledger, working: Ledger, w: Entry, c: Command, t0: int, t1: int)
    requires c.jti in m && ValidEntry(w)
    requires w == if c.jti in working then working[c.jti] else m[c.jti]
    ensures var verdict := Judge(w, c, t0, t1);
            Consume(m + working, c, t0, t1)
            == Outcome(verdict, m + if verdict.Consumed? then working[c.jti := Use(w)] else working[c.jti := w])
  {
    assert (m + working)[c.jti] == w;
    assert m + working[c.jti := w] == m + working;
    assert m + working[c.jti := Use(w)] == (m + working)[c.jti := Use(w)];
  }

  // ----- rollback -----

  function Actor(e: Event): Option<nat> {
    match e
    case Register(_, _) => None
    case Begin(t) => Some(t)
    case Lock(t, _) => Some(t)
    case JudgeRow(t, _, _) => Some(t)
    case Update(t) => Some(t)
    case Revoke(t, _) => Some(t)
    case Commit(t) => Some(t)
    case Rollback(t) => Some(t)
  }

  function Others(events: seq<Event>, t: nat): seq<Event> {
    if events == [] then []
    else (if Actor(events[0]) == Some(t) then [] else [events[0]]) + Others(events[1..], t)
  }

  function Without(s: State, t: nat): State {
    s.(open := s.open - {t})
  }

  lemma ErasedStep(s: State, e: Event, t: nat)
    requires Next(s, e).Some? && e != Commit(t)
    ensures Actor(e) == Some(t) ==> Without(Next(s, e).value, t) == Without(s, t)
    ensures Actor(e) != Some(t) ==>
              Next(Without(s, t), e) == Some(Without(Next(s, e).value, t))
  {
    var s' := Next(s, e).value;
    if Actor(e) == Some(t) {
      assert s'.open - {t} == s.open - {t};
    } else if Actor(e).Some? {
      var u := Actor(e).value;
      assert u in s.open <==> u in Without(s, t).open;
      assert s'.open - {t} == if u in s'.open then (s.open - {t})[u := s'.open[u]] else s.open - {t} - {u};
    }
  }

  /** A transaction that never commits is as if it had never run: erase its steps from any interleaving and
      every other step is still enabled and leads to the same rows, answers, locks and history. */
  lemma {:induction false} UncommittedLeavesNoTrace(s: State, events: seq<Event>, t: nat)
    requires Run(s, events).Some? && Commit(t) !in events
    ensures Run(Without(s, t), Others(events, t)) == Some(Without(Run(s, events).value, t))
    decreases |events|
  {
    if events != [] {
      var s1 := Next(s, events[0]).value;
      ErasedStep(s, events[0], t);
      UncommittedLeavesNoTrace(s1, events[1..], t);
      if Actor(events[0]) != Some(t) {
        var rest := Others(events[1..], t);
        assert ([events[0]] + rest)[1..] == rest;
      } else {
        assert [] + Others(events[1..], t) == Others(events[1..], t);
      }
    }
  }
}
