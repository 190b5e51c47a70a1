/** What a revocation does, over every interleaving of transactions; said of events and answers
    (packages/postgres-store/src/index.ts:25, packages/postgres-store/README.md). */
module Revocations {
  import opened Basics
  import opened StoreContract
  import opened Entitlements
  import opened StoreTransactions

  // ----- read off the events alone -----

  predicate Ends(e: Event, t: nat) {
    e == Begin(t) || e == Commit(t) || e == Rollback(t)
  }

  /** Transaction `t` has revoked `k` since it began, and has not ended. */
  predicate Pending(events: seq<Event>, t: nat, k: string) {
    if events == [] then false
    else
      var e := events[|events| - 1];
      if Ends(e, t) then false
      else if e == Revoke(t, k) then true
      else Pending(events[..|events| - 1], t, k)
  }

  /** `k` was registered revoked, or a transaction that revoked it has committed. */
  predicate RevokedIn(events: seq<Event>, k: string) {
    if events == [] then false
    else
      var e := events[|events| - 1];
      var before := events[..|events| - 1];
      || RevokedIn(before, k)
      || (e.Register? && e.jti == k && e.entry.revoked)
      || (e.Commit? && Pending(before, e.t, k))
  }

  lemma LastEvent(events: seq<Event>, e: Event)
    ensures (events + [e])[..|events + [e]| - 1] == events && (events + [e])[|events + [e]| - 1] == e
  {
  }

  lemma {:induction false} RunLast(s: State, events: seq<Event>, e: Event)
    requires Run(s, events).Some?
    ensures Run(s, events + [e]) == Next(Run(s, events).value, e)
    decreases |events|
  {
    if events == [] {
      assert [] + [e] == [e] && [e][1..] == [];
    } else {
      assert (events + [e])[0] == events[0] && (events + [e])[1..] == events[1..] + [e];
      RunLast(Next(s, events[0]).value, events[1..], e);
    }
  }

  lemma {:induction false} RunFront(s: State, events: seq<Event>, more: seq<Event>)
    requires Run(s, events + more).Some?
    ensures Run(s, events).Some? && Run(Run(s, events).value, more) == Run(s, events + more)
    decreases |events|
  {
    if events == [] {
      assert [] + more == more;
    } else {
      assert (events + more)[0] == events[0] && (events + more)[1..] == events[1..] + more;
      RunFront(Next(s, events[0]).value, events[1..], more);
    }
  }

  // ----- the flags of a state -----

  ghost predicate CommittedFlags(s: State, events: seq<Event>) {
    && (forall k <- s.committed :: s.committed[k].revoked <==> RevokedIn(events, k))
    && (forall k: string :: RevokedIn(events, k) ==> k in s.committed)
  }

  /** A session's copies are revoked if the row is or the session revoked it; it has revoked only rows it holds. */
  ghost predicate SessionFlags(x: Session, events: seq<Event>, t: nat) {
    && (forall k <- x.working :: x.working[k].revoked <==> RevokedIn(events, k) || Pending(events, t, k))
    && (forall k: string :: Pending(events, t, k) ==> k in x.working)
  }

  /** A session that has used no receipt `k`, and is not about to. */
  predicate Spares(x: Session, k: string) {
    && Uses(x.log, k) == 0
    && !(x.stage.Judged? && x.stage.c.jti == k && x.stage.verdict.Consumed?)
  }

  ghost predicate SparesRevoked(x: Session, events: seq<Event>) {
    forall k: string :: RevokedIn(events, k) ==> Spares(x, k)
  }

  ghost predicate FlagsOk(s: State, events: seq<Event>) {
    && CommittedFlags(s, events)
    && (forall t <- s.open :: SessionFlags(s.open[t], events, t))
    && (forall t: nat, k: string :: t !in s.open ==> !Pending(events, t, k))
    && (forall t <- s.open :: SparesRevoked(s.open[t], events))
  }

  lemma PendingNext(events: seq<Event>, e: Event, t: nat, k: string)
    ensures Pending(events + [e], t, k) <==> !Ends(e, t) && (e == Revoke(t, k) || Pending(events, t, k))
  {
    LastEvent(events, e);
  }

  lemma RevokedNext(events: seq<Event>, e: Event, k: string)
    ensures RevokedIn(events + [e], k) <==>
            || RevokedIn(events, k)
            || (e.Register? && e.jti == k && e.entry.revoked)
            || (e.Commit? && Pending(events, e.t, k))
  {
    LastEvent(events, e);
  }

  /** The step neither begins, ends, revokes nor registers anything. */
  lemma QuietEvent(events: seq<Event>, e: Event)
    requires e.Lock? || e.JudgeRow? || e.Update?
    ensures forall t: nat, k: string :: Pending(events + [e], t, k) <==> Pending(events, t, k)
    ensures forall k: string :: RevokedIn(events + [e], k) <==> RevokedIn(events, k)
  {
    forall t: nat, k: string
      ensures Pending(events + [e], t, k) <==> Pending(events, t, k)
    {
      PendingNext(events, e, t, k);
    }
    forall k: string
      ensures RevokedIn(events + [e], k) <==> RevokedIn(events, k)
    {
      RevokedNext(events, e, k);
    }
  }

  /** Session `t` is replaced, and every row it has newly locked comes from the committed ones. */
  lemma SessionSwap(s: State, events: seq<Event>, e: Event, t: nat, x: Session)
    requires FlagsOk(s, events) && t in s.open && (e.Lock? || e.JudgeRow? || e.Update?)
    requires s.open[t].working.Keys <= x.working.Keys <= s.open[t].working.Keys + s.committed.Keys
    requires forall k <- x.working :: x.working[k].revoked
               == if k in s.open[t].working then s.open[t].working[k].revoked else s.committed[k].revoked
    requires forall k: string :: RevokedIn(events, k) ==> Spares(x, k)
    ensures FlagsOk(s.(open := s.open[t := x]), events + [e])
  {
    var s' := s.(open := s.open[t := x]);
    QuietEvent(events, e);
    forall u <- s'.open
      ensures SessionFlags(s'.open[u], events + [e], u)
    {
      assert SessionFlags(s.open[u], events, u);
      assert SessionFlags(s.open[t], events, t);
    }
  }

  lemma LockFlags(s: State, events: seq<Event>, t: nat, c: Command)
    requires FlagsOk(s, events) && Next(s, Lock(t, c)).Some?
    ensures FlagsOk(Next(s, Lock(t, c)).value, events + [Lock(t, c)])
  {
    var x := LockedSession(s.committed, s.open[t], c);
    forall k: string | RevokedIn(events, k)
      ensures Spares(x, k)
    {
      assert Spares(s.open[t], k);
    }
    SessionSwap(s, events, Lock(t, c), t, x);
  }

  lemma JudgeRevoked(w: Entry, c: Command, t0: int, t1: int)
    requires w.revoked
    ensures !Judge(w, c, t0, t1).Consumed?
  {
  }

  lemma JudgeFlags(s: State, events: seq<Event>, t: nat, t0: int, t1: int)
    requires FlagsOk(s, events) && Next(s, JudgeRow(t, t0, t1)).Some?
    ensures FlagsOk(Next(s, JudgeRow(t, t0, t1)).value, events + [JudgeRow(t, t0, t1)])
  {
    var x := JudgedSession(s.open[t], t0, t1);
    var c := s.open[t].stage.c;
    forall k: string | RevokedIn(events, k)
      ensures Spares(x, k)
    {
      assert Spares(s.open[t], k);
      if k == c.jti && c.jti in s.open[t].working {
        assert SessionFlags(s.open[t], events, t);
        JudgeRevoked(s.open[t].working[k], c, t0, t1);
      }
    }
    SessionSwap(s, events, JudgeRow(t, t0, t1), t, x);
  }

  lemma UpdateFlags(s: State, events: seq<Event>, t: nat)
    requires FlagsOk(s, events) && Next(s, Update(t)).Some?
    ensures FlagsOk(Next(s, Update(t)).value, events + [Update(t)])
  {
    var x := s.open[t];
    var x' := Updated(x);
    forall k: string | RevokedIn(events, k)
      ensures Spares(x', k)
    {
      assert Spares(x, k);
      AnswerAppended(x.log, x'.log[|x.log|], k);
    }
    SessionSwap(s, events, Update(t), t, x');
  }

  lemma BeginFlags(s: State, events: seq<Event>, t: nat)
    requires FlagsOk(s, events) && Next(s, Begin(t)).Some?
    ensures FlagsOk(Next(s, Begin(t)).value, events + [Begin(t)])
  {
    var s' := Next(s, Begin(t)).value;
    var events' := events + [Begin(t)];
    forall u: nat, k: string
      ensures Pending(events', u, k) <==> u != t && Pending(events, u, k)
    {
      PendingNext(events, Begin(t), u, k);
    }
    forall k: string
      ensures RevokedIn(events', k) <==> RevokedIn(events, k)
    {
      RevokedNext(events, Begin(t), k);
    }
    forall u <- s'.open
      ensures SessionFlags(s'.open[u], events', u)
    {
      if u != t {
        assert SessionFlags(s.open[u], events, u);
      }
    }
  }

  lemma RollbackFlags(s: State, events: seq<Event>, t: nat)
    requires FlagsOk(s, events) && Next(s, Rollback(t)).Some?
    ensures FlagsOk(Next(s, Rollback(t)).value, events + [Rollback(t)])
  {
    var s' := Next(s, Rollback(t)).value;
    var events' := events + [Rollback(t)];
    forall u: nat, k: string
      ensures Pending(events', u, k) <==> u != t && Pending(events, u, k)
    {
      PendingNext(events, Rollback(t), u, k);
    }
    forall k: string
      ensures RevokedIn(events', k) <==> RevokedIn(events, k)
    {
      RevokedNext(events, Rollback(t), k);
    }
    forall u <- s'.open
      ensures SessionFlags(s'.open[u], events', u)
    {
      assert SessionFlags(s.open[u], events, u);
    }
  }

  lemma RevokeFlags(s: State, events: seq<Event>, t: nat, j: string)
    requires FlagsOk(s, events) && Next(s, Revoke(t, j)).Some?
    ensures FlagsOk(Next(s, Revoke(t, j)).value, events + [Revoke(t, j)])
  {
    var s' := Next(s, Revoke(t, j)).value;
    var events' := events + [Revoke(t, j)];
    forall u: nat, k: string
      ensures Pending(events', u, k) <==> (u == t && k == j) || Pending(events, u, k)
    {
      PendingNext(events, Revoke(t, j), u, k);
    }
    forall k: string
      ensures RevokedIn(events', k) <==> RevokedIn(events, k)
    {
      RevokedNext(events, Revoke(t, j), k);
    }
    forall u <- s'.open
      ensures SessionFlags(s'.open[u], events', u)
    {
      assert SessionFlags(s.open[u], events, u);
    }
    forall u, k: string | u in s'.open && RevokedIn(events', k)
      ensures Spares(s'.open[u], k)
    {
      assert Spares(s.open[u], k);
    }
  }

  lemma UnheldIsSpared(s: State, t: nat, k: string)
    requires Inv(s) && t in s.open && k !in s.open[t].working
    ensures Spares(s.open[t], k)
  {
    assert SessionOk(s.committed, s.open[t]);
  }

  lemma RegisterEvents(events: seq<Event>, jti: string, entry: Entry)
    ensures var events' := events + [Register(jti, entry)];
      && (forall u: nat, k: string :: Pending(events', u, k) <==> Pending(events, u, k))
      && (forall k: string :: RevokedIn(events', k) <==> RevokedIn(events, k) || (k == jti && entry.revoked))
  {
    forall u: nat, k: string
      ensures Pending(events + [Register(jti, entry)], u, k) <==> Pending(events, u, k)
    {
      PendingNext(events, Register(jti, entry), u, k);
    }
    forall k: string
      ensures RevokedIn(events + [Register(jti, entry)], k) <==> RevokedIn(events, k) || (k == jti && entry.revoked)
    {
      RevokedNext(events, Register(jti, entry), k);
    }
  }

  lemma {:induction false} RegisterFlags(s: State, events: seq<Event>, jti: string, entry: Entry)
    requires Inv(s) && FlagsOk(s, events) && jti !in s.committed
    ensures FlagsOk(s.(committed := s.committed[jti := entry], base := s.base[jti := entry.count]),
              events + [Register(jti, entry)])
  {
    var s' := s.(committed := s.committed[jti := entry], base := s.base[jti := entry.count]);
    var events' := events + [Register(jti, entry)];
    RegisterEvents(events, jti, entry);
    assert CommittedFlags(s', events');
    forall u <- s'.open
      ensures SessionFlags(s'.open[u], events', u)
      ensures forall k: string | RevokedIn(events', k) :: Spares(s'.open[u], k)
    {
      RegisterSessionFlags(s, events, jti, u);
    }
  }

  lemma RegisterSessionFlags(s: State, events: seq<Event>, jti: string, u: nat)
    requires Inv(s) && FlagsOk(s, events) && jti !in s.committed && u in s.open
    ensures SessionFlags(s.open[u], events, u) && jti !in s.open[u].working
    ensures forall k: string | RevokedIn(events, k) || k == jti :: Spares(s.open[u], k)
  {
    UnknownIsUnheld(s, u, jti);
    forall k: string | RevokedIn(events, k) || k == jti
      ensures Spares(s.open[u], k)
    {
    }
  }

  lemma UnknownIsUnheld(s: State, t: nat, k: string)
    requires Inv(s) && t in s.open && k !in s.committed
    ensures k !in s.open[t].working && Spares(s.open[t], k)
  {
    assert SessionOk(s.committed, s.open[t]);
    UnheldIsSpared(s, t, k);
  }

  lemma CommitEvents(events: seq<Event>, t: nat)
    ensures var events' := events + [Commit(t)];
      && (forall u: nat, k: string :: Pending(events', u, k) <==> u != t && Pending(events, u, k))
      && (forall k: string :: RevokedIn(events', k) <==> RevokedIn(events, k) || Pending(events, t, k))
  {
    forall u: nat, k: string
      ensures Pending(events + [Commit(t)], u, k) <==> u != t && Pending(events, u, k)
    {
      PendingNext(events, Commit(t), u, k);
    }
    forall k: string
      ensures RevokedIn(events + [Commit(t)], k) <==> RevokedIn(events, k) || Pending(events, t, k)
    {
      RevokedNext(events, Commit(t), k);
    }
  }

  lemma {:induction false} CommitRowFlags(s: State, events: seq<Event>, t: nat)
    requires Inv(s) && FlagsOk(s, events) && t in s.open
    ensures var m := s.committed + s.open[t].working;
      && m.Keys == s.committed.Keys
      && (forall k <- m :: m[k].revoked <==> RevokedIn(events, k) || Pending(events, t, k))
      && (forall k: string :: RevokedIn(events, k) || Pending(events, t, k) ==> k in m)
  {
    assert SessionFlags(s.open[t], events, t) && SessionOk(s.committed, s.open[t]);
  }

  lemma CommitFlags(s: State, events: seq<Event>, t: nat)
    requires Inv(s) && FlagsOk(s, events) && t in s.open
    ensures FlagsOk(State(s.committed + s.open[t].working, s.base, s.open - {t}, s.history + s.open[t].log),
              events + [Commit(t)])
  {
    var s' := State(s.committed + s.open[t].working, s.base, s.open - {t}, s.history + s.open[t].log);
    var events' := events + [Commit(t)];
    CommitCommittedFlags(s, events, t);
    forall u <- s'.open
      ensures SessionFlags(s.open[u], events', u) && SparesRevoked(s.open[u], events')
    {
      CommitSessionFlags(s, events, t, u);
    }
    CommitUnopened(s, events, t);
  }

  lemma CommitCommittedFlags(s: State, events: seq<Event>, t: nat)
    requires Inv(s) && FlagsOk(s, events) && t in s.open
    ensures CommittedFlags(State(s.committed + s.open[t].working, s.base, s.open - {t}, s.history + s.open[t].log),
              events + [Commit(t)])
  {
    CommitEvents(events, t);
    CommitRowFlags(s, events, t);
  }

  lemma CommitSessionFlags(s: State, events: seq<Event>, t: nat, u: nat)
    requires Inv(s) && FlagsOk(s, events) && t in s.open && u in s.open && u != t
    ensures SessionFlags(s.open[u], events + [Commit(t)], u) && SparesRevoked(s.open[u], events + [Commit(t)])
  {
    CommitEvents(events, t);
    OtherFlags(s, events, t, u);
  }

  lemma CommitUnopened(s: State, events: seq<Event>, t: nat)
    requires FlagsOk(s, events)
    ensures forall u: nat, k: string :: u !in s.open - {t} ==> !Pending(events + [Commit(t)], u, k)
  {
    CommitEvents(events, t);
  }

  /** What `t` has pending, nobody else holds. */
  lemma {:induction false} OtherFlags(s: State, events: seq<Event>, t: nat, u: nat)
    requires Inv(s) && FlagsOk(s, events) && t in s.open && u in s.open && t != u
    ensures SessionFlags(s.open[u], events, u)
    ensures forall k: string | Pending(events, t, k) :: k !in s.open[u].working
    ensures forall k: string | RevokedIn(events, k) || Pending(events, t, k) :: Spares(s.open[u], k)
  {
    assert SessionFlags(s.open[t], events, t) && SessionFlags(s.open[u], events, u);
    assert s.open[t].working.Keys !! s.open[u].working.Keys;
    forall k: string | RevokedIn(events, k) || Pending(events, t, k)
      ensures Spares(s.open[u], k)
    {
      if !RevokedIn(events, k) {
        UnheldIsSpared(s, u, k);
      }
    }
  }

  lemma StepFlags(s: State, events: seq<Event>, e: Event)
    requires Inv(s) && FlagsOk(s, events) && Next(s, e).Some?
    ensures FlagsOk(Next(s, e).value, events + [e])
  {
    match e
    case Register(jti, entry) => RegisterFlags(s, events, jti, entry);
    case Begin(t) => BeginFlags(s, events, t);
    case Lock(t, c) => LockFlags(s, events, t, c);
    case JudgeRow(t, t0, t1) => JudgeFlags(s, events, t, t0, t1);
    case Update(t) => UpdateFlags(s, events, t);
    case Revoke(t, jti) => RevokeFlags(s, events, t, jti);
    case Commit(t) => CommitFlags(s, events, t);
    case Rollback(t) => RollbackFlags(s, events, t);
  }

  lemma {:induction false} RunFlags(events: seq<Event>)
    requires Run(EMPTY, events).Some?
    ensures Inv(Run(EMPTY, events).value) && FlagsOk(Run(EMPTY, events).value, events)
    decreases |events|
  {
    RunKeepsInv(EMPTY, events);
    if events != [] {
      var n := |events| - 1;
      assert events[..n] + [events[n]] == events;
      RunFront(EMPTY, events[..n], [events[n]]);
      RunFlags(events[..n]);
      RunLast(EMPTY, events[..n], events[n]);
      StepFlags(Run(EMPTY, events[..n]).value, events[..n], events[n]);
    }
  }

  // ----- main results -----

  /** Over every interleaving from an empty relation: a receipt's row is revoked exactly when it was registered
      so or a transaction that revoked it has committed; and the copy a transaction holds is revoked exactly
      when the row is or that transaction has itself revoked it. */
  lemma FlagsAreRevocations(events: seq<Event>, k: string)
    requires Run(EMPTY, events).Some?
    ensures var s := Run(EMPTY, events).value;
      && (k in s.committed ==> (s.committed[k].revoked <==> RevokedIn(events, k)))
      && (forall t | t in s.open && k in s.open[t].working ::
            s.open[t].working[k].revoked <==> RevokedIn(events, k) || Pending(events, t, k))
  {
    RunFlags(events);
    var s := Run(EMPTY, events).value;
    forall t | t in s.open && k in s.open[t].working
      ensures s.open[t].working[k].revoked <==> RevokedIn(events, k) || Pending(events, t, k)
    {
      assert SessionFlags(s.open[t], events, t);
    }
  }

  lemma {:induction false} RevokedStays(events: seq<Event>, more: seq<Event>, k: string)
    requires RevokedIn(events, k)
    ensures RevokedIn(events + more, k)
    decreases |more|
  {
    if more == [] {
      assert events + more == events;
    } else {
      var n := |more| - 1;
      assert events + more == events + more[..n] + [more[n]];
      RevokedStays(events, more[..n], k);
      RevokedNext(events + more[..n], more[n], k);
    }
  }

  /** Once a revocation is committed, the row and every copy of it stay revoked, and no consume is ever answered
      `consumed` for it again: none is in the log of any open transaction, and the committed history gains
      none. */
  lemma {:induction false} NoUseAfterRevocation(events: seq<Event>, more: seq<Event>, k: string)
    requires RevokedIn(events, k) && Run(EMPTY, events + more).Some?
    ensures Run(EMPTY, events).Some?
    ensures var before, s := Run(EMPTY, events).value, Run(EMPTY, events + more).value;
      && k in s.committed && s.committed[k].revoked
      && (forall t | t in s.open && k in s.open[t].working :: s.open[t].working[k].revoked)
      && (forall t | t in s.open :: Uses(s.open[t].log, k) == 0)
      && Uses(s.history, k) == Uses(before.history, k)
    decreases |more|
  {
    RunFront(EMPTY, events, more);
    RevokedStays(events, more, k);
    RunFlags(events + more);
    var s := Run(EMPTY, events + more).value;
    forall t | t in s.open
      ensures Uses(s.open[t].log, k) == 0
      ensures k in s.open[t].working ==> s.open[t].working[k].revoked
    {
      assert Spares(s.open[t], k) && SessionFlags(s.open[t], events + more, t);
    }
    if more == [] {
      assert events + more == events;
    } else {
      var n := |more| - 1;
      assert events + more == events + more[..n] + [more[n]];
      RunFront(EMPTY, events + more[..n], [more[n]]);
      RunLast(EMPTY, events + more[..n], more[n]);
      NoUseAfterRevocation(events, more[..n], k);
      var s1 := Run(EMPTY, events + more[..n]).value;
      if more[n].Commit? {
        UsesAppend(s1.history, s1.open[more[n].t].log, k);
      }
    }
  }

  predicate NoneEnds(events: seq<Event>, t: nat) {
    forall i | 0 <= i < |events| :: !Ends(events[i], t)
  }

  lemma {:induction false} PendingStays(before: seq<Event>, middle: seq<Event>, t: nat, k: string)
    requires NoneEnds(middle, t)
    ensures Pending(before + [Revoke(t, k)] + middle, t, k)
    decreases |middle|
  {
    if middle == [] {
      assert before + [Revoke(t, k)] + middle == before + [Revoke(t, k)];
      PendingNext(before, Revoke(t, k), t, k);
    } else {
      var n := |middle| - 1;
      assert before + [Revoke(t, k)] + middle == before + [Revoke(t, k)] + middle[..n] + [middle[n]];
      PendingStays(before, middle[..n], t, k);
      PendingNext(before + [Revoke(t, k)] + middle[..n], middle[n], t, k);
    }
  }

  /** A transaction revokes a receipt and commits, with anything in between and after: from the commit on, the
      row and every copy of it are revoked, and no consume is answered `consumed` for it. */
  lemma RevocationSticks(before: seq<Event>, t: nat, k: string, middle: seq<Event>, after: seq<Event>)
    requires NoneEnds(middle, t)
    requires Run(EMPTY, before + [Revoke(t, k)] + middle + [Commit(t)] + after).Some?
    ensures var upTo := before + [Revoke(t, k)] + middle + [Commit(t)];
            var s := Run(EMPTY, upTo + after).value;
      && k in s.committed && s.committed[k].revoked
      && (forall u | u in s.open && k in s.open[u].working :: s.open[u].working[k].revoked)
      && (forall u | u in s.open :: Uses(s.open[u].log, k) == 0)
      && Run(EMPTY, upTo).Some? && Uses(s.history, k) == Uses(Run(EMPTY, upTo).value.history, k)
  {
    PendingStays(before, middle, t, k);
    RevokedNext(before + [Revoke(t, k)] + middle, Commit(t), k);
    NoUseAfterRevocation(before + [Revoke(t, k)] + middle + [Commit(t)], after, k);
  }

  predicate Holds(s: State, t: nat, k: string) {
    t in s.open && k in s.open[t].working && k in s.committed
  }

  lemma HeldRowStep(s: State, e: Event, t: nat, k: string)
    requires Inv(s) && Holds(s, t, k) && !Ends(e, t) && Next(s, e).Some?
    ensures Holds(Next(s, e).value, t, k) && Next(s, e).value.committed[k] == s.committed[k]
  {
    match e
    case Commit(u) => OnlyHolder(s, t, u, k);
    case Register(_, _) =>
    case Rollback(_) =>
    case Begin(_) =>
    case _ => SessionKeepsRows(s, e, t, k);
  }

  lemma SessionKeepsRows(s: State, e: Event, t: nat, k: string)
    requires Holds(s, t, k) && Next(s, e).Some? && (e.Lock? || e.JudgeRow? || e.Update? || e.Revoke?)
    ensures Holds(Next(s, e).value, t, k) && Next(s, e).value.committed == s.committed
  {
  }

  lemma OnlyHolder(s: State, t: nat, u: nat, k: string)
    requires Inv(s) && Holds(s, t, k) && u in s.open && u != t
    ensures k !in s.open[u].working
  {
    assert s.open[t].working.Keys !! s.open[u].working.Keys;
  }

  lemma NoneEndsTail(events: seq<Event>, t: nat)
    requires events != [] && NoneEnds(events, t)
    ensures NoneEnds(events[1..], t)
  {
    forall i | 0 <= i < |events[1..]|
      ensures !Ends(events[1..][i], t)
    {
      assert events[1..][i] == events[i + 1];
    }
  }

  /** While a transaction holds a row, nobody else changes it. */
  lemma {:induction false} HeldRowStays(s: State, events: seq<Event>, t: nat, k: string)
    requires Inv(s) && Holds(s, t, k) && NoneEnds(events, t) && Run(s, events).Some?
    ensures Holds(Run(s, events).value, t, k) && Run(s, events).value.committed[k] == s.committed[k]
    decreases |events|
  {
    if events != [] {
      StepKeepsInv(s, events[0]);
      HeldRowStep(s, events[0], t, k);
      NoneEndsTail(events, t);
      HeldRowStays(Next(s, events[0]).value, events[1..], t, k);
    }
  }

  /** A transaction revokes a receipt and rolls back, with anything in between: the row is as it was, flag
      included. */
  lemma {:induction false} RollbackForgets(before: seq<Event>, t: nat, k: string, middle: seq<Event>)
    requires NoneEnds(middle, t)
    requires Run(EMPTY, before + [Revoke(t, k)] + middle + [Rollback(t)]).Some?
    ensures Run(EMPTY, before).Some?
    ensures var s, s' := Run(EMPTY, before).value, Run(EMPTY, before + [Revoke(t, k)] + middle + [Rollback(t)]).value;
            k in s.committed && k in s'.committed && s'.committed[k] == s.committed[k]
  {
    var revoking := before + [Revoke(t, k)];
    RunFront(EMPTY, revoking + middle, [Rollback(t)]);
    RunFront(EMPTY, revoking, middle);
    RunFront(EMPTY, before, [Revoke(t, k)]);
    RunLast(EMPTY, before, Revoke(t, k));
    RunLast(EMPTY, revoking + middle, Rollback(t));
    RunKeepsInv(EMPTY, before);
    RolledBackRow(Run(EMPTY, before).value, t, k, middle,
      Run(EMPTY, revoking).value, Run(EMPTY, revoking + middle).value);
  }

  lemma RolledBackRow(s: State, t: nat, k: string, middle: seq<Event>, s1: State, s2: State)
    requires Inv(s) && Next(s, Revoke(t, k)) == Some(s1) && NoneEnds(middle, t) && Run(s1, middle) == Some(s2)
    ensures k in s.committed && k in s2.committed && s2.committed[k] == s.committed[k]
  {
    StepKeepsInv(s, Revoke(t, k));
    HeldRowStays(s1, middle, t, k);
  }
}
