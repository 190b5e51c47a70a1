/** Transactions that nothing interleaves with: one statement, one revocation, one registration
    (packages/postgres-store/src/index.ts:6-10, 13-49). */
module StoreAutocommit {
  import opened Basics
  import opened StoreContract
  import opened Entitlements
  import opened StoreTransactions

  predicate Unlocked(s: State, k: string) {
    forall u <- s.open :: k !in s.open[u].working
  }

  lemma {:induction false} RunMore(s: State, events: seq<Event>, mid: State, more: seq<Event>)
    requires Run(s, events) == Some(mid) && Run(mid, more).Some?
    ensures Run(s, events + more) == Run(mid, more)
    decreases |events|
  {
    if events == [] {
      assert [] + more == more;
    } else {
      assert (events + more)[0] == events[0] && (events + more)[1..] == events[1..] + more;
      RunMore(Next(s, events[0]).value, events[1..], mid, more);
    }
  }

  lemma {:induction false} BeginOne(s: State, t: nat)
    requires t !in s.open
    ensures Run(s, [Begin(t)]) == Some(Begun(s, t))
  {
    RunOne(s, Begin(t), Begun(s, t));
  }

  lemma {:induction false} CommitOne(s: State, t: nat)
    requires t in s.open && s.open[t].stage == Ready
    ensures Run(s, [Commit(t)])
         == Some(State(s.committed + s.open[t].working, s.base, s.open - {t}, s.history + s.open[t].log))
  {
    RunOne(s, Commit(t), State(s.committed + s.open[t].working, s.base, s.open - {t}, s.history + s.open[t].log));
  }

  lemma {:induction false} RunParts(s: State, a: seq<Event>, s1: State, b: seq<Event>, s2: State, c: seq<Event>,
                                    s3: State)
    requires Run(s, a) == Some(s1) && Run(s1, b) == Some(s2) && Run(s2, c) == Some(s3)
    ensures Run(s, a + b + c) == Some(s3)
  {
    RunMore(s, a, s1, b);
    RunMore(s, a + b, s2, c);
  }

  function Begun(s: State, t: nat): State {
    s.(open := s.open[t := Session(map[], Ready, [])])
  }

  /** The session a transaction has after its one statement. */
  function AfterStatement(m: Ledger, c: Command, t0: int, t1: int): Session {
    Updated(JudgedSession(LockedSession(m, Session(map[], Ready, []), c), t0, t1))
  }

  lemma {:induction false} StatementSession(m: Ledger, c: Command, t0: int, t1: int)
    requires ValidLedger(m)
    ensures var o := Consume(m, c, t0, t1);
            var x := AfterStatement(m, c, t0, t1);
            x.stage == Ready && m + x.working == o.ledger && x.log == [Answer(c.jti, o.result)]
  {
    var x0 := Session(map[], Ready, []);
    assert SessionOk(m, x0);
    StatementOnSession(m, x0, c, t0, t1);
    assert m + map[] == m;
    assert [] + [Answer(c.jti, Consume(m, c, t0, t1).result)] == [Answer(c.jti, Consume(m, c, t0, t1).result)];
  }

  lemma {:induction false} StatementSteps(s: State, t: nat, c: Command, t0: int, t1: int)
    requires t !in s.open && Unlocked(s, c.jti)
    ensures Run(Begun(s, t), [Lock(t, c), JudgeRow(t, t0, t1), Update(t)])
         == Some(s.(open := s.open[t := AfterStatement(s.committed, c, t0, t1)]))
  {
    var x1 := LockedSession(s.committed, Session(map[], Ready, []), c);
    ThreeSteps(Begun(s, t), t, c, t0, t1, x1, JudgedSession(x1, t0, t1));
    var x := AfterStatement(s.committed, c, t0, t1);
    assert Begun(s, t).open[t := x] == s.open[t := x];
  }

  lemma {:induction false} OpenAndClosed(s: State, t: nat, x: Session)
    requires t !in s.open
    ensures s.open[t := x] - {t} == s.open
  {
  }

  /** One statement in a transaction of its own, whatever else is open as long as its row is not locked: it goes
      through, the committed rows become what the specification says, its answer is the specification's and is the
      one added to the history, and every other transaction is as it was. */
  lemma {:induction false} AutocommitIsTheStatement(s: State, t: nat, c: Command, t0: int, t1: int)
    requires ValidLedger(s.committed) && t !in s.open && Unlocked(s, c.jti)
    ensures var o := Consume(s.committed, c, t0, t1);
            Run(s, [Begin(t)] + [Lock(t, c), JudgeRow(t, t0, t1), Update(t)] + [Commit(t)])
            == Some(State(o.ledger, s.base, s.open, s.history + [Answer(c.jti, o.result)]))
  {
    var x := AfterStatement(s.committed, c, t0, t1);
    var o := Consume(s.committed, c, t0, t1);
    BeginOne(s, t);
    StatementSession(s.committed, c, t0, t1);
    StatementSteps(s, t, c, t0, t1);
    CommitAfter(s, t, x, State(o.ledger, s.base, s.open, s.history + [Answer(c.jti, o.result)]));
    RunParts(s, [Begin(t)], Begun(s, t),
      [Lock(t, c), JudgeRow(t, t0, t1), Update(t)], s.(open := s.open[t := x]),
      [Commit(t)], State(o.ledger, s.base, s.open, s.history + [Answer(c.jti, o.result)]));
  }

  lemma {:induction false} CommitAfter(s: State, t: nat, x: Session, end: State)
    requires t !in s.open && x.stage == Ready
    requires end == State(s.committed + x.working, s.base, s.open, s.history + x.log)
    ensures Run(s.(open := s.open[t := x]), [Commit(t)]) == Some(end)
  {
    CommitOne(s.(open := s.open[t := x]), t);
    OpenAndClosed(s, t, x);
  }

  lemma {:induction false} RevokeOne(s: State, t: nat, k: string)
    requires t !in s.open && k in s.committed && Unlocked(s, k)
    ensures var begun := Begun(s, t);
            var x := Session(map[k := s.committed[k].(revoked := true)], Ready, []);
            Run(begun, [Revoke(t, k)]) == Some(s.(open := s.open[t := x]))
  {
    var begun := Begun(s, t);
    var x := Session(map[k := s.committed[k].(revoked := true)], Ready, []);
    assert LockFree(begun, t, k);
    assert begun.open[t := x] == s.open[t := x];
    assert Next(begun, Revoke(t, k)) == Some(s.(open := s.open[t := x]));
    RunOne(begun, Revoke(t, k), s.(open := s.open[t := x]));
  }

  /** One revocation in a transaction of its own sets that row's flag and nothing else. */
  lemma {:induction false} RevocationTakes(s: State, t: nat, k: string)
    requires t !in s.open && k in s.committed && Unlocked(s, k)
    ensures Run(s, [Begin(t)] + [Revoke(t, k)] + [Commit(t)])
         == Some(s.(committed := s.committed[k := s.committed[k].(revoked := true)]))
  {
    var x := Session(map[k := s.committed[k].(revoked := true)], Ready, []);
    var end := s.(committed := s.committed[k := s.committed[k].(revoked := true)]);
    BeginOne(s, t);
    RevokeOne(s, t, k);
    assert s.committed + x.working == s.committed[k := s.committed[k].(revoked := true)];
    assert s.history + [] == s.history;
    CommitAfter(s, t, x, end);
    RunParts(s, [Begin(t)], Begun(s, t), [Revoke(t, k)], s.(open := s.open[t := x]), [Commit(t)], end);
  }

  /** A registration goes through exactly for a new, named and valid receipt, which is stored as it is. */
  lemma {:induction false} RegistrationTakes(s: State, k: string, e: Entry)
    ensures Run(s, [Register(k, e)])
         == if k !in s.committed && k != "" && ValidEntry(e)
            then Some(State(s.committed[k := e], s.base[k := e.count], s.open, s.history)) else None
  {
    assert [Register(k, e)][1..] == [];
  }

  /** A receipt's terms are those it was registered with, in every row and copy of it, whatever happens since. */
  lemma {:induction false} TermsStay(s: State, events: seq<Event>, k: string)
    requires Inv(s) && k in s.committed && Run(s, events).Some?
    ensures var s' := Run(s, events).value;
      && Inv(s') && k in s'.committed && SameReceipt(s'.committed[k], s.committed[k])
      && (forall t | t in s'.open && k in s'.open[t].working :: SameReceipt(s'.open[t].working[k], s.committed[k]))
    decreases |events|
  {
    if events == [] {
      forall t | t in s.open && k in s.open[t].working
        ensures SameReceipt(s.open[t].working[k], s.committed[k])
      {
        assert SessionOk(s.committed, s.open[t]);
      }
    } else {
      StepKeepsInv(s, events[0]);
      TermsStep(s, events[0], k);
      TermsStay(Next(s, events[0]).value, events[1..], k);
    }
  }

  lemma {:induction false} TermsStep(s: State, e: Event, k: string)
    requires Inv(s) && k in s.committed && Next(s, e).Some?
    ensures k in Next(s, e).value.committed && SameReceipt(Next(s, e).value.committed[k], s.committed[k])
  {
    if e.Commit? {
      assert SessionOk(s.committed, s.open[e.t]);
    }
  }
}
