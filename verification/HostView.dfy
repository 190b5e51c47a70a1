/** What hosts are told while their transactions interleave: every answer of the consume statement reaches its
    host as it was, is lost, or is replaced, and transactions commit or roll back
    (packages/postgres-store/src/index.ts:15-49, 67-98). */
module HostView {
  import opened Basics
  import opened StoreContract
  import opened PostgresStore
  import C = Conservation
  import opened T = StoreTransactions

  /** One step of the database and, for an update, how its answer travels. */
  datatype Happening = Happening(e: T.Event, d: Delivery)

  /** What the store on the host's side makes of an answer. */
  function Told(d: Delivery, made: ConsumeResult): ConsumeResult {
    match d
    case Faithful => made
    case Lost => SystemFailure
    case NotExecuted => SystemFailure
    case Garbled(rows) => ReadRows(rows)
  }

  /** `via` holds, for each open transaction, how its answers travelled; `kept` how those of committed
      transactions did. */
  datatype View = View(s: T.State, via: map<nat, seq<Delivery>>, kept: seq<Delivery>)

  const START := View(T.EMPTY, map[], [])

  /** The answer of an update step. */
  function AnswerOf(s: T.State, t: nat): Answer
    requires t in s.open && s.open[t].stage.Judged?
  {
    Updated(s.open[t]).log[|s.open[t].log|]
  }

  /** One step; a transaction that rolls back takes what its host was told with it. */
  function Watch(v: View, h: Happening): Option<View> {
    var n := T.Next(v.s, h.e);
    if n.None? || (h.e.Update? && h.d.NotExecuted?) then None
    else
      match h.e
      case Begin(t) => Some(View(n.value, v.via[t := []], v.kept))
      case Update(t) =>
        Some(View(n.value, v.via[t := (if t in v.via then v.via[t] else []) + [h.d]], v.kept))
      case Commit(t) =>
        Some(View(n.value, v.via - {t}, v.kept + if t in v.via then v.via[t] else []))
      case Rollback(t) => Some(View(n.value, v.via - {t}, v.kept))
      case _ => Some(v.(s := n.value))
  }

  function WatchAll(v: View, hs: seq<Happening>): Option<View>
    decreases |hs|
  {
    if hs == [] then Some(v)
    else
      var n := Watch(v, hs[0]);
      if n.None? then None else WatchAll(n.value, hs[1..])
  }

  // ----- comparing what was made with what was told -----

  type Report = (Delivery, ConsumeResult) -> bool

  predicate ToldUse(d: Delivery, made: ConsumeResult) {
    Told(d, made).Consumed?
  }

  /** A use whose answer did not arrive. */
  predicate LostUse(d: Delivery, made: ConsumeResult) {
    made.Consumed? && Told(d, made).SystemFailure?
  }

  /** A use that was reported as a denial. */
  predicate DeniedUse(d: Delivery, made: ConsumeResult) {
    made.Consumed? && !Told(d, made).Consumed? && !Told(d, made).SystemFailure?
  }

  /** A reported use that was none. */
  predicate InventedUse(d: Delivery, made: ConsumeResult) {
    !made.Consumed? && Told(d, made).Consumed?
  }

  /** Rows other than the statement's own are malformed, or report a use exactly when one was made. */
  predicate Truthful(d: Delivery, made: ConsumeResult) {
    || !d.Garbled?
    || (!C.SaysConsumed(d.rows) && !C.SaysDenied(d.rows))
    || (C.SaysConsumed(d.rows) <==> made.Consumed?)
  }

  predicate InventsNothing(d: Delivery, made: ConsumeResult) {
    d.Garbled? && C.SaysConsumed(d.rows) ==> made.Consumed?
  }

  /** Said of the rows: only an executor that puts its own well-formed rows in the place of the statement's can
      deny or invent a use, and it does so exactly when it is not truthful. */
  lemma MisreportsAreGarbled(d: Delivery, made: ConsumeResult)
    ensures DeniedUse(d, made) <==> d.Garbled? && C.SaysDenied(d.rows) && made.Consumed?
    ensures InventedUse(d, made) <==> !InventsNothing(d, made)
    ensures Truthful(d, made) <==> !DeniedUse(d, made) && !InventedUse(d, made)
  {
    if d.Garbled? {
      C.RowsAsRead(d.rows);
    }
  }

  /** How many answers about `jti` were reported so. */
  function Count(made: seq<Answer>, via: seq<Delivery>, jti: string, f: Report): nat
    requires |made| == |via|
  {
    if made == [] then 0
    else
      (if made[0].jti == jti && f(via[0], made[0].result) then 1 else 0)
      + Count(made[1..], via[1..], jti, f)
  }

  lemma {:induction false} CountAppend(made: seq<Answer>, via: seq<Delivery>, made': seq<Answer>, via': seq<Delivery>,
                                       jti: string, f: Report)
    requires |made| == |via| && |made'| == |via'|
    ensures Count(made + made', via + via', jti, f) == Count(made, via, jti, f) + Count(made', via', jti, f)
  {
    if made == [] {
      assert made + made' == made' && via + via' == via';
    } else {
      assert (made + made')[1..] == made[1..] + made' && (via + via')[1..] == via[1..] + via';
      CountAppend(made[1..], via[1..], made', via', jti, f);
    }
  }

  /** The uses made are the uses told, less the invented ones, plus the lost and the denied ones. */
  lemma {:induction false} UsesAccountedFor(made: seq<Answer>, via: seq<Delivery>, jti: string)
    requires |made| == |via|
    ensures Uses(made, jti) == Count(made, via, jti, ToldUse) - Count(made, via, jti, InventedUse)
              + Count(made, via, jti, LostUse) + Count(made, via, jti, DeniedUse)
  {
    if made != [] {
      UsesAccountedFor(made[1..], via[1..], jti);
    }
  }

  /** Every answer about `jti` travelled so that `f` holds. */
  predicate AllAbout(made: seq<Answer>, via: seq<Delivery>, jti: string, f: Report) {
    forall i | 0 <= i < |made| && i < |via| && made[i].jti == jti :: f(via[i], made[i].result)
  }

  lemma {:induction false} NoneReported(made: seq<Answer>, via: seq<Delivery>, jti: string, f: Report)
    requires |made| == |via|
    requires forall i | 0 <= i < |made| && made[i].jti == jti :: !f(via[i], made[i].result)
    ensures Count(made, via, jti, f) == 0
  {
    if made != [] {
      forall i | 0 <= i < |made[1..]| && made[1..][i].jti == jti
        ensures !f(via[1..][i], made[1..][i].result)
      {
        assert made[1..][i] == made[i + 1] && via[1..][i] == via[i + 1];
      }
      NoneReported(made[1..], via[1..], jti, f);
    }
  }

  // ----- invariant -----

  /** Every answer has its delivery. */
  predicate ViewOk(v: View) {
    && v.via.Keys == v.s.open.Keys
    && (forall t | t in v.via :: |v.s.open[t].log| == |v.via[t]|)
    && |v.s.history| == |v.kept|
  }

  lemma UpdatedLog(x: Session)
    requires x.stage.Judged?
    ensures |Updated(x).log| == |x.log| + 1 && Updated(x).log == x.log + [Updated(x).log[|x.log|]]
  {
  }

  lemma WatchKeepsView(v: View, h: Happening)
    requires ViewOk(v) && Watch(v, h).Some?
    ensures ViewOk(Watch(v, h).value)
  {
    match h.e
    case Update(t) => UpdatedLog(v.s.open[t]);
    case Begin(_) =>
    case Commit(_) =>
    case Rollback(_) =>
    case _ => LogsKept(v, h);
  }

  lemma {:induction false} WatchAllKeepsView(v: View, hs: seq<Happening>)
    requires ViewOk(v) && WatchAll(v, hs).Some?
    ensures ViewOk(WatchAll(v, hs).value)
    decreases |hs|
  {
    if hs != [] {
      WatchKeepsView(v, hs[0]);
      WatchAllKeepsView(Watch(v, hs[0]).value, hs[1..]);
    }
  }

  function EventsOf(hs: seq<Happening>): seq<T.Event> {
    if hs == [] then [] else [hs[0].e] + EventsOf(hs[1..])
  }

  /** Watching changes nothing that happens. */
  lemma {:induction false} WatchingIsPassive(v: View, hs: seq<Happening>)
    requires WatchAll(v, hs).Some?
    ensures T.Run(v.s, EventsOf(hs)) == Some(WatchAll(v, hs).value.s)
    decreases |hs|
  {
    if hs != [] {
      WatchingIsPassive(Watch(v, hs[0]).value, hs[1..]);
      assert EventsOf(hs)[0] == hs[0].e && EventsOf(hs)[1..] == EventsOf(hs[1..]);
    }
  }

  // ----- moments -----

  /** Uses made are uses told plus uses whose answer was lost. */
  predicate Balanced(made: seq<Answer>, via: seq<Delivery>, jti: string)
    requires |made| == |via|
  {
    Uses(made, jti) == Count(made, via, jti, ToldUse) + Count(made, via, jti, LostUse)
  }

  /** So it is in the history and in every open transaction. */
  predicate Moment(v: View, k: string)
    requires ViewOk(v)
  {
    && Balanced(v.s.history, v.kept, k)
    && forall t | t in v.via :: Balanced(v.s.open[t].log, v.via[t], k)
  }

  lemma BalancedAppend(made: seq<Answer>, via: seq<Delivery>, made': seq<Answer>, via': seq<Delivery>, jti: string)
    requires |made| == |via| && |made'| == |via'| && Balanced(made, via, jti)
    ensures Balanced(made + made', via + via', jti) <==> Balanced(made', via', jti)
  {
    UsesAppend(made, made', jti);
    CountAppend(made, via, made', via', jti, ToldUse);
    CountAppend(made, via, made', via', jti, LostUse);
  }

  lemma OneBalanced(a: Answer, d: Delivery, jti: string)
    ensures Balanced([a], [d], jti) <==> (a.jti == jti ==> Truthful(d, a.result))
  {
    MisreportsAreGarbled(d, a.result);
    UsesAccountedFor([a], [d], jti);
    OneCounted(a, d, jti, DeniedUse);
    OneCounted(a, d, jti, InventedUse);
  }

  lemma OneCounted(a: Answer, d: Delivery, jti: string, f: Report)
    ensures Count([a], [d], jti, f) == if a.jti == jti && f(d, a.result) then 1 else 0
  {
    assert [a][1..] == [] && [d][1..] == [];
  }

  /** The step is no update about `k`, or its executor is truthful. */
  predicate TruthfulAbout(v: View, h: Happening, k: string)
    requires Watch(v, h).Some?
  {
    h.e.Update? && AnswerOf(v.s, h.e.t).jti == k ==> Truthful(h.d, AnswerOf(v.s, h.e.t).result)
  }

  lemma UpdateMoment(v: View, t: nat, d: Delivery, k: string)
    requires ViewOk(v) && Moment(v, k) && Watch(v, Happening(T.Update(t), d)).Some?
    requires ViewOk(Watch(v, Happening(T.Update(t), d)).value)
    ensures Moment(Watch(v, Happening(T.Update(t), d)).value, k) <==> TruthfulAbout(v, Happening(T.Update(t), d), k)
  {
    var v' := Watch(v, Happening(T.Update(t), d)).value;
    var a := AnswerOf(v.s, t);
    UpdatedLog(v.s.open[t]);
    assert v'.s.open[t].log == v.s.open[t].log + [a] && v'.via[t] == v.via[t] + [d];
    BalancedAppend(v.s.open[t].log, v.via[t], [a], [d], k);
    OneBalanced(a, d, k);
    assert Moment(v', k) <==> Balanced(v'.s.open[t].log, v'.via[t], k) by {
      forall u | u in v'.via && u != t
        ensures Balanced(v'.s.open[u].log, v'.via[u], k)
      {
        assert Balanced(v.s.open[u].log, v.via[u], k);
      }
    }
  }

  lemma OtherMoment(v: View, h: Happening, k: string)
    requires ViewOk(v) && Moment(v, k) && Watch(v, h).Some? && !h.e.Update?
    requires ViewOk(Watch(v, h).value)
    ensures Moment(Watch(v, h).value, k)
  {
    if h.e.Begin? {
      assert Balanced([], [], k);
    } else if h.e.Commit? {
      BalancedAppend(v.s.history, v.kept, v.s.open[h.e.t].log, v.via[h.e.t], k);
    } else if !h.e.Rollback? {
      LogsKept(v, h);
    }
  }

  lemma LogsKept(v: View, h: Happening)
    requires ViewOk(v) && Watch(v, h).Some?
    requires h.e.Register? || h.e.Lock? || h.e.JudgeRow? || h.e.Revoke?
    ensures var v' := Watch(v, h).value;
      && v'.via == v.via && v'.kept == v.kept && v'.s.history == v.s.history
      && v'.s.open.Keys == v.s.open.Keys
      && forall t | t in v.via :: v'.s.open[t].log == v.s.open[t].log
  {
  }

  predicate EveryMoment(v: View, hs: seq<Happening>, k: string)
    requires ViewOk(v) && WatchAll(v, hs).Some?
    decreases |hs|
  {
    && Moment(v, k)
    && (hs != [] ==>
          (WatchKeepsView(v, hs[0]);
           EveryMoment(Watch(v, hs[0]).value, hs[1..], k)))
  }

  predicate AllTruthfulAbout(v: View, hs: seq<Happening>, k: string)
    requires WatchAll(v, hs).Some?
    decreases |hs|
  {
    hs != [] ==> TruthfulAbout(v, hs[0], k) && AllTruthfulAbout(Watch(v, hs[0]).value, hs[1..], k)
  }

  lemma {:induction false} MomentsIff(v: View, hs: seq<Happening>, k: string)
    requires ViewOk(v) && WatchAll(v, hs).Some? && Moment(v, k)
    ensures EveryMoment(v, hs, k) <==> AllTruthfulAbout(v, hs, k)
    decreases |hs|
  {
    if hs != [] {
      var v' := Watch(v, hs[0]).value;
      WatchKeepsView(v, hs[0]);
      if hs[0].e.Update? {
        UpdateMoment(v, hs[0].e.t, hs[0].d, k);
      } else {
        OtherMoment(v, hs[0], k);
      }
      if Moment(v', k) {
        MomentsIff(v', hs[1..], k);
      }
    }
  }

  // ----- main results -----

  /** Over every interleaving of transactions that commit or roll back, and however answers travel: at every
      moment, in the committed history and in every open transaction, the uses made of a receipt are those its
      hosts were told of plus those whose answer was lost, if and only if every update about that receipt met a
      truthful executor. */
  lemma HostsConserveIff(hs: seq<Happening>, k: string)
    requires WatchAll(START, hs).Some?
    ensures EveryMoment(START, hs, k) <==> AllTruthfulAbout(START, hs, k)
  {
    MomentsIff(START, hs, k);
  }

  /** And whoever misreports: the committed count of a receipt has moved by the uses told in committed
      transactions, less the invented ones, plus the lost and the denied ones. What was told in a transaction
      that rolled back plays no part. */
  lemma HostsAccountForUses(hs: seq<Happening>, k: string)
    requires WatchAll(START, hs).Some? && k in WatchAll(START, hs).value.s.committed
    ensures var v := WatchAll(START, hs).value;
      && ViewOk(v) && k in v.s.base
      && v.s.committed[k].count - v.s.base[k]
         == Count(v.s.history, v.kept, k, ToldUse) - Count(v.s.history, v.kept, k, InventedUse)
            + Count(v.s.history, v.kept, k, LostUse) + Count(v.s.history, v.kept, k, DeniedUse)
  {
    WatchingIsPassive(START, hs);
    ConsumptionIsBounded(EventsOf(hs));
    WatchAllKeepsView(START, hs);
    var v := WatchAll(START, hs).value;
    UsesAccountedFor(v.s.history, v.kept, k);
  }

  /** As long as no use is invented among the committed answers about a receipt, the successes told in committed
      transactions are at most the uses committed, and so at most what the receipt's maximum left. */
  lemma ToldUsesAreBounded(hs: seq<Happening>, k: string)
    requires WatchAll(START, hs).Some? && k in WatchAll(START, hs).value.s.committed
    requires var v := WatchAll(START, hs).value; AllAbout(v.s.history, v.kept, k, InventsNothing)
    ensures var v := WatchAll(START, hs).value;
      && ViewOk(v) && k in v.s.base
      && Count(v.s.history, v.kept, k, ToldUse)
         <= v.s.committed[k].count - v.s.base[k] <= v.s.committed[k].maxRedemptions - v.s.base[k]
  {
    HostsAccountForUses(hs, k);
    WatchingIsPassive(START, hs);
    ConsumptionIsBounded(EventsOf(hs));
    var v := WatchAll(START, hs).value;
    forall i | 0 <= i < |v.s.history| && v.s.history[i].jti == k
      ensures !InventedUse(v.kept[i], v.s.history[i].result)
    {
      MisreportsAreGarbled(v.kept[i], v.s.history[i].result);
    }
    NoneReported(v.s.history, v.kept, k, InventedUse);
  }

  /** If moreover every committed answer about it travelled truthfully, committed uses are the successes told in
      committed transactions plus the uses whose answer was lost, whatever was told in others. */
  lemma TruthfulCommitsConserve(hs: seq<Happening>, k: string)
    requires WatchAll(START, hs).Some? && k in WatchAll(START, hs).value.s.committed
    requires var v := WatchAll(START, hs).value; AllAbout(v.s.history, v.kept, k, Truthful)
    ensures var v := WatchAll(START, hs).value;
      && ViewOk(v) && k in v.s.base
      && v.s.committed[k].count - v.s.base[k]
         == Count(v.s.history, v.kept, k, ToldUse) + Count(v.s.history, v.kept, k, LostUse)
  {
    HostsAccountForUses(hs, k);
    var v := WatchAll(START, hs).value;
    forall i | 0 <= i < |v.s.history| && v.s.history[i].jti == k
      ensures !InventedUse(v.kept[i], v.s.history[i].result) && !DeniedUse(v.kept[i], v.s.history[i].result)
    {
      MisreportsAreGarbled(v.kept[i], v.s.history[i].result);
    }
    NoneReported(v.s.history, v.kept, k, InventedUse);
    NoneReported(v.s.history, v.kept, k, DeniedUse);
  }
}
