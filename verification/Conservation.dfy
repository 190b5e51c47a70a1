/** Counting uses across the whole redemption path in autocommit, with lost, malformed and untrue responses
    (packages/postgres-store/src/index.ts:67-98, packages/access/src/redeem-access-receipt.ts:153-228). */
module Conservation {
  import opened Basics
  import opened StoreContract
  import opened Entitlements
  import opened PostgresStore
  import opened Redemption

  /** One redemption attempt: any token, any verifier answer, any bindings, any executor behaviour. */
  datatype Attempt = Attempt(
    token: JsValue, expected: JsThing, verifier: JsValue -> VerifierAnswer, currentTime: JsValue,
    delivery: Delivery, t0: int, t1: int)

  function StoreOver(m: Ledger, a: Attempt): Command -> StoreAnswer {
    c => Answered(Object(AnswerRecord(StoreConsume(m, c, a.delivery, a.t0, a.t1).result)))
  }

  function TraceOf(m: Ledger, a: Attempt): Trace {
    Redeem(Input(a.token, a.expected, Some(a.verifier), Some(StoreOver(m, a)), a.currentTime))
  }

  function LedgerAfter(m: Ledger, a: Attempt): Ledger {
    var t := TraceOf(m, a);
    if t.calls == [] then m else StoreConsume(m, t.calls[0], a.delivery, a.t0, a.t1).ledger
  }

  function Run(m: Ledger, attempts: seq<Attempt>): Ledger
    decreases |attempts|
  {
    if attempts == [] then m else Run(LedgerAfter(m, attempts[0]), attempts[1..])
  }

  // ----- what an executor's rows say -----

  /** One object that reports a use. */
  predicate SaysConsumed(rows: seq<JsThing>) {
    && |rows| == 1 && rows[0].Object?
    && Get(rows[0].fields, "outcome") == Text("consumed") && Get(rows[0].fields, "exhausted").Bool?
  }

  const DENIALS := {"receipt_missing", "authority_mismatch", "receipt_revoked", "receipt_expired",
                    "receipt_exhausted", "concurrency_conflict"}

  /** One object that reports a denial. */
  predicate SaysDenied(rows: seq<JsThing>) {
    && |rows| == 1 && rows[0].Object?
    && Get(rows[0].fields, "exhausted") == JsNull
    && Get(rows[0].fields, "outcome").Text? && Get(rows[0].fields, "outcome").s in DENIALS
  }

  lemma RowsAsRead(rows: seq<JsThing>)
    ensures ReadRows(rows).Consumed? <==> SaysConsumed(rows)
    ensures ReadRows(rows).SystemFailure? <==> !SaysConsumed(rows) && !SaysDenied(rows)
  {
  }

  predicate StatementConsumes(m: Ledger, c: Command, t0: int, t1: int) {
    Consume(m, c, t0, t1).result.Consumed?
  }

  /** The executor does not misreport: rows other than the statement's own are malformed, or they report a use
      exactly when the statement made one. */
  predicate Truthful(m: Ledger, c: Command, d: Delivery, t0: int, t1: int) {
    || !ValidCommand(c)
    || !d.Garbled?
    || (!SaysConsumed(d.rows) && !SaysDenied(d.rows))
    || (SaysConsumed(d.rows) <==> StatementConsumes(m, c, t0, t1))
  }

  /** It never reports a use that the statement did not make; it may deny one that it did. */
  predicate InventsNothing(m: Ledger, c: Command, d: Delivery, t0: int, t1: int) {
    ValidCommand(c) && d.Garbled? && SaysConsumed(d.rows) ==> StatementConsumes(m, c, t0, t1)
  }

  // ----- one store call -----

  /** Whatever the executor does, one store call commits at most one use, of the addressed receipt, exactly
      when the statement ran and consumed. */
  lemma StoreCallEffect(m: Ledger, c: Command, d: Delivery, t0: int, t1: int)
    requires ValidLedger(m)
    ensures var o := StoreConsume(m, c, d, t0, t1);
      && ValidLedger(o.ledger) && o.ledger.Keys == m.Keys
      && (o.ledger != m <==> ValidCommand(c) && !d.NotExecuted? && StatementConsumes(m, c, t0, t1))
      && (o.ledger != m ==> c.jti in m)
      && (forall k <- m :: o.ledger[k] ==
            m[k].(count := m[k].count + if k == c.jti && o.ledger != m then 1 else 0))
  {
    StatementEffect(m, c, t0, t1);
  }

  lemma StatementEffect(m: Ledger, c: Command, t0: int, t1: int)
    requires ValidLedger(m)
    ensures var o := Consume(m, c, t0, t1);
      && ValidLedger(o.ledger) && o.ledger.Keys == m.Keys
      && (o.ledger != m <==> o.result.Consumed?) && (o.result.Consumed? ==> c.jti in m)
      && (forall k <- m :: o.ledger[k] ==
            m[k].(count := m[k].count + if k == c.jti && o.result.Consumed? then 1 else 0))
  {
    AdmissionIff(m, c, t0, t1);
    var o := Consume(m, c, t0, t1);
    if o.result.Consumed? {
      assert o.ledger[c.jti] != m[c.jti];
    }
  }

  /** What the store answers is what it did, up to reported failures, exactly when the executor is truthful;
      and a reported use was made exactly when the executor invents nothing. */
  lemma StoreAnswersIff(m: Ledger, c: Command, d: Delivery, t0: int, t1: int)
    requires ValidLedger(m)
    ensures var o := StoreConsume(m, c, d, t0, t1);
      && ((o.ledger != m <==> o.result.Consumed? || (o.result.SystemFailure? && o.ledger != m))
          <==> Truthful(m, c, d, t0, t1))
      && ((o.result.Consumed? ==> o.ledger != m) <==> InventsNothing(m, c, d, t0, t1))
  {
    StoreCallEffect(m, c, d, t0, t1);
    if d.Garbled? {
      RowsAsRead(d.rows);
    } else {
      AnswersDirectly(m, c, d, t0, t1);
    }
  }

  lemma AnswersDirectly(m: Ledger, c: Command, d: Delivery, t0: int, t1: int)
    requires !d.Garbled?
    ensures var o := StoreConsume(m, c, d, t0, t1);
      && (o.result.Consumed? ==> ValidCommand(c) && !d.NotExecuted? && StatementConsumes(m, c, t0, t1))
      && (ValidCommand(c) && !d.NotExecuted? && StatementConsumes(m, c, t0, t1) ==>
            o.result.Consumed? || o.result.SystemFailure?)
  {
  }

  // ----- one attempt -----

  /** The redemption result is the mapped answer of the one store call. */
  lemma TraceIsMappedAnswer(m: Ledger, a: Attempt)
    ensures var t := TraceOf(m, a);
      && (t.calls == [] ==> !t.result.Success?)
      && (t.calls != [] ==>
            && |t.calls| == 1
            && t.result == MapResult(StoreConsume(m, t.calls[0], a.delivery, a.t0, a.t1).result))
  {
    var input := Input(a.token, a.expected, Some(a.verifier), Some(StoreOver(m, a)), a.currentTime);
    StoreCallIsGuarded(input);
    var t := TraceOf(m, a);
    if t.calls != [] {
      AnswerRoundTrip(StoreConsume(m, t.calls[0], a.delivery, a.t0, a.t1).result);
    }
  }

  predicate Addresses(m: Ledger, a: Attempt, jti: string) {
    TraceOf(m, a).calls != [] && TraceOf(m, a).calls[0].jti == jti
  }

  function CountOf(m: Ledger, jti: string): int {
    if jti in m then m[jti].count else 0
  }

  /** One if the attempt told its caller that it used receipt `jti`. */
  function SuccessFor(m: Ledger, a: Attempt, jti: string): int {
    if TraceOf(m, a).result.Success? && Addresses(m, a, jti) then 1 else 0
  }

  /** One if the attempt answered `system_failure` although its use of `jti` was committed. */
  function LostUseFor(m: Ledger, a: Attempt, jti: string): int {
    if TraceOf(m, a).result.Failure? && LedgerAfter(m, a) != m && Addresses(m, a, jti) then 1 else 0
  }

  /** The attempt moved the count by what it answered for. */
  predicate Balanced(m: Ledger, a: Attempt, jti: string) {
    CountOf(LedgerAfter(m, a), jti) - CountOf(m, jti) == SuccessFor(m, a, jti) + LostUseFor(m, a, jti)
  }

  predicate TruthfulAttempt(m: Ledger, a: Attempt) {
    var calls := TraceOf(m, a).calls;
    calls == [] || Truthful(m, calls[0], a.delivery, a.t0, a.t1)
  }

  predicate InventsNothingFor(m: Ledger, a: Attempt) {
    var calls := TraceOf(m, a).calls;
    calls == [] || InventsNothing(m, calls[0], a.delivery, a.t0, a.t1)
  }

  lemma AttemptEffect(m: Ledger, a: Attempt, jti: string)
    requires ValidLedger(m)
    ensures var m' := LedgerAfter(m, a);
      && ValidLedger(m') && m'.Keys == m.Keys
      && (jti in m ==> m'[jti] == m[jti].(count := m'[jti].count))
      && CountOf(m', jti) - CountOf(m, jti) == if Addresses(m, a, jti) && m' != m then 1 else 0
  {
    TraceIsMappedAnswer(m, a);
    var calls := TraceOf(m, a).calls;
    if calls != [] {
      StoreCallEffect(m, calls[0], a.delivery, a.t0, a.t1);
    }
  }

  /** An attempt is balanced for a receipt exactly when it addressed another one, made no store call, or met a
      truthful executor; and it reports no more than it used exactly when nothing was invented for it. */
  lemma BalancedIff(m: Ledger, a: Attempt, jti: string)
    requires ValidLedger(m)
    ensures Balanced(m, a, jti) <==> (Addresses(m, a, jti) ==> TruthfulAttempt(m, a))
    ensures SuccessFor(m, a, jti) <= CountOf(LedgerAfter(m, a), jti) - CountOf(m, jti)
            <==> (Addresses(m, a, jti) ==> InventsNothingFor(m, a))
  {
    AttemptEffect(m, a, jti);
    TraceIsMappedAnswer(m, a);
    if Addresses(m, a, jti) {
      StoreAnswersIff(m, TraceOf(m, a).calls[0], a.delivery, a.t0, a.t1);
    }
  }

  // ----- runs -----

  function Successes(m: Ledger, attempts: seq<Attempt>, jti: string): int
    decreases |attempts|
  {
    if attempts == [] then 0
    else SuccessFor(m, attempts[0], jti) + Successes(LedgerAfter(m, attempts[0]), attempts[1..], jti)
  }

  function LostUses(m: Ledger, attempts: seq<Attempt>, jti: string): int
    decreases |attempts|
  {
    if attempts == [] then 0
    else LostUseFor(m, attempts[0], jti) + LostUses(LedgerAfter(m, attempts[0]), attempts[1..], jti)
  }

  /** Committed uses are successes plus system failures that followed a committed use. */
  predicate Conserved(m: Ledger, attempts: seq<Attempt>, jti: string) {
    CountOf(Run(m, attempts), jti) - CountOf(m, jti) == Successes(m, attempts, jti) + LostUses(m, attempts, jti)
  }

  /** Every attempt on `jti` met a truthful executor. */
  predicate AllTruthful(m: Ledger, attempts: seq<Attempt>, jti: string)
    decreases |attempts|
  {
    attempts != [] ==>
      && (Addresses(m, attempts[0], jti) ==> TruthfulAttempt(m, attempts[0]))
      && AllTruthful(LedgerAfter(m, attempts[0]), attempts[1..], jti)
  }

  predicate AllInventNothing(m: Ledger, attempts: seq<Attempt>, jti: string)
    decreases |attempts|
  {
    attempts != [] ==>
      && (Addresses(m, attempts[0], jti) ==> InventsNothingFor(m, attempts[0]))
      && AllInventNothing(LedgerAfter(m, attempts[0]), attempts[1..], jti)
  }

  lemma ConservedFromStep(m: Ledger, attempts: seq<Attempt>, jti: string, n: nat)
    requires attempts != [] && n < |attempts|
    requires Balanced(m, attempts[0], jti)
    ensures Conserved(m, attempts[..n + 1], jti)
            <==> Conserved(LedgerAfter(m, attempts[0]), attempts[1..][..n], jti)
  {
    assert attempts[..n + 1][0] == attempts[0] && attempts[..n + 1][1..] == attempts[1..][..n];
  }

  lemma ConservedOne(m: Ledger, attempts: seq<Attempt>, jti: string)
    requires attempts != []
    ensures Conserved(m, attempts[..1], jti) <==> Balanced(m, attempts[0], jti)
  {
    var a := attempts[0];
    var m' := LedgerAfter(m, a);
    assert attempts[..1] == [a] && [a][1..] == [];
    assert Run(m, [a]) == Run(m', []) == m';
    assert Successes(m, [a], jti) == SuccessFor(m, a, jti) + Successes(m', [], jti) == SuccessFor(m, a, jti);
    assert LostUses(m, [a], jti) == LostUseFor(m, a, jti) + LostUses(m', [], jti) == LostUseFor(m, a, jti);
  }

  ghost predicate EveryPrefixConserved(m: Ledger, attempts: seq<Attempt>, jti: string) {
    forall n | 0 <= n <= |attempts| :: Conserved(m, attempts[..n], jti)
  }

  lemma PrefixesStep(m: Ledger, attempts: seq<Attempt>, jti: string)
    requires attempts != []
    ensures EveryPrefixConserved(m, attempts, jti) <==>
            Balanced(m, attempts[0], jti) && EveryPrefixConserved(LedgerAfter(m, attempts[0]), attempts[1..], jti)
  {
    ConservedOne(m, attempts, jti);
    var m' := LedgerAfter(m, attempts[0]);
    if EveryPrefixConserved(m, attempts, jti) {
      assert Conserved(m, attempts[..1], jti);
      forall n | 0 <= n <= |attempts[1..]|
        ensures Conserved(m', attempts[1..][..n], jti)
      {
        ConservedFromStep(m, attempts, jti, n);
      }
    }
    if Balanced(m, attempts[0], jti) && EveryPrefixConserved(m', attempts[1..], jti) {
      forall n | 0 <= n <= |attempts|
        ensures Conserved(m, attempts[..n], jti)
      {
        if n == 0 {
          assert attempts[..n] == [];
        } else {
          assert Conserved(m', attempts[1..][..n - 1], jti);
          ConservedFromStep(m, attempts, jti, n - 1);
        }
      }
    }
  }

  /** Over any run of attempts, with any number of re-signed tokens for one receipt and any executor: at every
      moment the committed uses are the successes plus the system failures that followed a committed use,
      exactly when every attempt on that receipt met a truthful executor. */
  lemma {:induction false} UsesAreConservedIff(m: Ledger, attempts: seq<Attempt>, jti: string)
    requires ValidLedger(m)
    ensures EveryPrefixConserved(m, attempts, jti) <==> AllTruthful(m, attempts, jti)
    decreases |attempts|
  {
    if attempts != [] {
      PrefixesStep(m, attempts, jti);
      BalancedIff(m, attempts[0], jti);
      AttemptEffect(m, attempts[0], jti);
      UsesAreConservedIff(LedgerAfter(m, attempts[0]), attempts[1..], jti);
    }
  }

  /** Denials that hide a use, lost and malformed answers do not matter to the bound: as long as no use is
      invented for the receipt, the successes are at most the committed uses, and these at most what the
      stored maximum left. */
  lemma {:induction false} SuccessesAreBounded(m: Ledger, attempts: seq<Attempt>, jti: string)
    requires ValidLedger(m) && jti in m && AllInventNothing(m, attempts, jti)
    ensures var end := Run(m, attempts);
      && ValidLedger(end) && jti in end && end[jti] == m[jti].(count := end[jti].count)
      && Successes(m, attempts, jti) <= end[jti].count - m[jti].count <= m[jti].maxRedemptions - m[jti].count
    decreases |attempts|
  {
    if attempts != [] {
      BalancedIff(m, attempts[0], jti);
      AttemptEffect(m, attempts[0], jti);
      SuccessesAreBounded(LedgerAfter(m, attempts[0]), attempts[1..], jti);
    }
  }
}
