/** What one transaction does, read off its own events: whole statements and revocations between its beginning and
    its end, and one answer for every statement (packages/postgres-store/src/index.ts:13-49, 64-101). */
module StoreScripts {
  import opened Basics
  import opened Entitlements
  import opened StoreTransactions
  import opened Revocations

  datatype Phase = Closed | Idle | Holding | Decided

  /** One event of a transaction: it begins when closed; between statements it may ask, revoke or commit; a
      statement that asked goes on to judge and then to update; it may roll back at any point. */
  function Advance(p: Phase, e: Event): Option<Phase> {
    match e
    case Register(_, _) => None
    case Begin(_) => if p == Closed then Some(Idle) else None
    case Lock(_, _) => if p == Idle then Some(Holding) else None
    case JudgeRow(_, _, _) => if p == Holding then Some(Decided) else None
    case Update(_) => if p == Decided then Some(Idle) else None
    case Revoke(_, _) => if p == Idle then Some(Idle) else None
    case Commit(_) => if p == Idle then Some(Closed) else None
    case Rollback(_) => if p == Closed then None else Some(Closed)
  }

  /** Where the events of `t` have brought it; `None` when they are not those of a transaction. */
  function Stands(events: seq<Event>, t: nat): Option<Phase> {
    if events == [] then Some(Closed)
    else
      var e := events[|events| - 1];
      var p := Stands(events[..|events| - 1], t);
      if Actor(e) != Some(t) || p.None? then p else Advance(p.value, e)
  }

  /** The receipts that `t` has asked for since it began. */
  function Asked(events: seq<Event>, t: nat): seq<string> {
    if events == [] then []
    else
      var e := events[|events| - 1];
      var before := Asked(events[..|events| - 1], t);
      if Ends(e, t) then [] else if e.Lock? && e.t == t then before + [e.c.jti] else before
  }

  /** The receipts asked for by transactions that committed, in the order of the commits. */
  function AskedAndCommitted(events: seq<Event>): seq<string> {
    if events == [] then []
    else
      var e := events[|events| - 1];
      var before := events[..|events| - 1];
      AskedAndCommitted(before) + if e.Commit? then Asked(before, e.t) else []
  }

  /** The receipts that answers are about. */
  function About(log: seq<Answer>): seq<string> {
    seq(|log|, i requires 0 <= i < |log| => log[i].jti)
  }

  function PhaseOf(s: State, t: nat): Phase {
    if t !in s.open then Closed
    else
      match s.open[t].stage
      case Ready => Idle
      case Locked(_, _) => Holding
      case Judged(_, _) => Decided
  }

  /** Answered, and at most one still to be answered. */
  function AskedOf(s: State, t: nat): seq<string> {
    if t !in s.open then []
    else About(s.open[t].log) + if s.open[t].stage == Ready then [] else [s.open[t].stage.c.jti]
  }

  ghost predicate ScriptsOk(s: State, events: seq<Event>) {
    && (forall t: nat :: Stands(events, t) == Some(PhaseOf(s, t)) && Asked(events, t) == AskedOf(s, t))
    && AskedAndCommitted(events) == About(s.history)
  }

  lemma {:induction false} OwnStep(s: State, e: Event, t: nat)
    requires Next(s, e).Some? && Actor(e) == Some(t)
    ensures var s' := Next(s, e).value;
      && Advance(PhaseOf(s, t), e) == Some(PhaseOf(s', t))
      && AskedOf(s', t) == if Ends(e, t) then [] else AskedOf(s, t) + if e.Lock? then [e.c.jti] else []
  {
    var s' := Next(s, e).value;
    if e.Update? {
      var x, x' := s.open[t], Updated(s.open[t]);
      assert x'.log == x.log + [x'.log[|x.log|]] && x'.log[|x.log|].jti == x.stage.c.jti;
      assert About(x'.log) == About(x.log) + [x.stage.c.jti];
    }
  }

  lemma {:induction false} OthersStep(s: State, e: Event, t: nat)
    requires Next(s, e).Some? && Actor(e) != Some(t)
    ensures PhaseOf(Next(s, e).value, t) == PhaseOf(s, t) && AskedOf(Next(s, e).value, t) == AskedOf(s, t)
    ensures !Ends(e, t)
  {
  }

  lemma {:induction false} HistoryStep(s: State, e: Event)
    requires Next(s, e).Some?
    ensures About(Next(s, e).value.history)
         == About(s.history) + if e.Commit? then AskedOf(s, e.t) else []
  {
    if e.Commit? {
      var log := s.open[e.t].log;
      assert About(s.history + log) == About(s.history) + About(log);
      assert AskedOf(s, e.t) == About(log) + [];
    }
  }

  lemma {:induction false} StepKeepsScripts(s: State, events: seq<Event>, e: Event)
    requires ScriptsOk(s, events) && Next(s, e).Some?
    ensures ScriptsOk(Next(s, e).value, events + [e])
  {
    LastEvent(events, e);
    HistoryStep(s, e);
    forall t: nat
      ensures Stands(events + [e], t) == Some(PhaseOf(Next(s, e).value, t))
      ensures Asked(events + [e], t) == AskedOf(Next(s, e).value, t)
    {
      if Actor(e) == Some(t) {
        OwnStep(s, e, t);
      } else {
        OthersStep(s, e, t);
      }
    }
  }

  /** Over every interleaving from an empty relation: the events of each transaction are whole statements and
      revocations between a beginning and an end, so nothing is committed in the middle of a statement and no row is
      revoked between its judgement and its update; and the committed answers are, in order, one for each statement
      of each committed transaction, about the receipt that it asked for. An open transaction has been answered
      every statement but the one it is in. */
  lemma {:induction false} StatementsAreAnsweredOnce(events: seq<Event>)
    requires Run(EMPTY, events).Some?
    ensures ScriptsOk(Run(EMPTY, events).value, events)
    decreases |events|
  {
    if events != [] {
      var front, e := events[..|events| - 1], events[|events| - 1];
      assert events == front + [e];
      RunFront(EMPTY, front, [e]);
      StatementsAreAnsweredOnce(front);
      RunLast(EMPTY, front, e);
      StepKeepsScripts(Run(EMPTY, front).value, front, e);
    }
  }

  predicate Allows(p: Option<Phase>, e: Event) {
    p.Some? && Advance(p.value, e).Some?
  }

  /** Nobody but `t` has a row of this identity locked. */
  predicate Free(s: State, t: nat, k: string) {
    forall u <- s.open :: u == t || k !in s.open[u].working
  }

  /** Nothing blocks but a row lock: in any run, a transaction's next event is possible exactly when its script so far
      allows it and, where it takes a row, no other transaction holds that row. In particular it may roll back at
      any point. A receipt may be registered exactly when it is new and its row meets the constraints. */
  lemma {:induction false} EnabledIff(events: seq<Event>, e: Event)
    requires Run(EMPTY, events).Some?
    ensures var s := Run(EMPTY, events).value;
            Run(EMPTY, events + [e]).Some? <==>
              if e.Register? then e.jti !in s.committed && e.jti != "" && ValidEntry(e.entry)
              else
                && Allows(Stands(events, Actor(e).value), e)
                && (e.Lock? ==> Free(s, e.t, e.c.jti))
                && (e.Revoke? ==> e.jti in s.committed && Free(s, e.t, e.jti))
  {
    var s := Run(EMPTY, events).value;
    RunLast(EMPTY, events, e);
    StatementsAreAnsweredOnce(events);
    RunKeepsInv(EMPTY, events);
    if e.Lock? {
      UnknownIsFree(s, e.t, e.c.jti);
    }
    StepIff(s, e);
  }

  lemma {:induction false} UnknownIsFree(s: State, t: nat, k: string)
    requires Inv(s)
    ensures k !in s.committed ==> Free(s, t, k)
  {
    if k !in s.committed {
      forall u <- s.open
        ensures k !in s.open[u].working
      {
        UnknownIsUnheld(s, u, k);
      }
    }
  }

  lemma {:induction false} StepIff(s: State, e: Event)
    requires e.Lock? && e.c.jti !in s.committed ==> Free(s, e.t, e.c.jti)
    ensures Next(s, e).Some? <==>
              if e.Register? then e.jti !in s.committed && e.jti != "" && ValidEntry(e.entry)
              else
                && Advance(PhaseOf(s, Actor(e).value), e).Some?
                && (e.Lock? ==> Free(s, e.t, e.c.jti))
                && (e.Revoke? ==> e.jti in s.committed && Free(s, e.t, e.jti))
  {
    if e.Lock? {
      assert LockFree(s, e.t, e.c.jti) <==> Free(s, e.t, e.c.jti);
    }
    if e.Revoke? {
      assert LockFree(s, e.t, e.jti) <==> Free(s, e.t, e.jti);
    }
  }
}
