/** Three-valued SQL logic, as far as the consume statement needs it. */
module SqlLogic {

  datatype Sql<+T> = Null | Val(v: T)

  datatype Truth = True | False | Unknown

  predicate Holds(t: Truth) {
    t == True
  }

  function Of(b: bool): Truth {
    if b then True else False
  }

  function Or(a: Truth, b: Truth): Truth {
    if a == True || b == True then True else if a == Unknown || b == Unknown then Unknown else False
  }

  function And(a: Truth, b: Truth): Truth {
    if a == False || b == False then False else if a == Unknown || b == Unknown then Unknown else True
  }

  function Eq<T(==)>(a: Sql<T>, b: Sql<T>): Truth {
    if a.Null? || b.Null? then Unknown else Of(a.v == b.v)
  }

  function Ne<T(==)>(a: Sql<T>, b: Sql<T>): Truth {
    if a.Null? || b.Null? then Unknown else Of(a.v != b.v)
  }

  function Le(a: Sql<int>, b: Sql<int>): Truth {
    if a.Null? || b.Null? then Unknown else Of(a.v <= b.v)
  }

  function Lt(a: Sql<int>, b: Sql<int>): Truth {
    if a.Null? || b.Null? then Unknown else Of(a.v < b.v)
  }

  function Plus(a: Sql<int>, n: int): Sql<int> {
    if a.Null? then Null else Val(a.v + n)
  }

  function IsNotNull<T(==)>(a: Sql<T>): Truth {
    Of(a.Val?)
  }

  function Coalesce<T(==)>(a: Sql<T>, default: T): Sql<T> {
    if a.Null? then Val(default) else a
  }
}

/** The relation `public.access_receipts` and its constraints
    (packages/postgres-store/sql/001_access_receipts.sql). */
module ReceiptRelation {
  import opened Basics
  import opened ReceiptClaims
  import opened SqlLogic
  import opened Entitlements

  datatype Row = Row(
    jti: Sql<string>, iss: Sql<string>, sub: Sql<string>, aud: Sql<string>,
    intentId: Sql<string>, resourceId: Sql<string>, policyId: Sql<string>,
    grantType: Sql<string>, maxRedemptions: Sql<int>, count: Sql<int>,
    iat: Sql<int>, nbf: Sql<int>, exp: Sql<int>,
    paymentRef: Sql<string>, revokedAt: Sql<int>)

  type Table = seq<Row>

  function Between(a: Sql<int>, lo: int, hi: int): Truth {
    And(Le(Val(lo), a), Le(a, Val(hi)))
  }

  /** A CHECK passes unless it is false, so an unknown one lets the row in. */
  predicate Check(t: Truth) {
    t != False
  }

  predicate NotNullColumns(r: Row) {
    && r.jti.Val? && r.iss.Val? && r.sub.Val? && r.aud.Val?
    && r.intentId.Val? && r.resourceId.Val? && r.policyId.Val? && r.grantType.Val?
    && r.maxRedemptions.Val? && r.count.Val? && r.iat.Val? && r.nbf.Val? && r.exp.Val?
  }

  function Length(a: Sql<string>): Sql<int> {
    if a.Null? then Null else Val(|a.v|)
  }

  predicate ChecksPass(r: Row) {
    && Check(Lt(Val(0), Length(r.jti))) && Check(Lt(Val(0), Length(r.iss)))
    && Check(Lt(Val(0), Length(r.sub))) && Check(Lt(Val(0), Length(r.aud)))
    && Check(Lt(Val(0), Length(r.intentId))) && Check(Lt(Val(0), Length(r.resourceId)))
    && Check(Lt(Val(0), Length(r.policyId)))
    && Check(Between(r.maxRedemptions, 1, MAX_SAFE_INTEGER))
    && Check(Between(r.iat, -MAX_SAFE_INTEGER, MAX_SAFE_INTEGER))
    && Check(Between(r.nbf, -MAX_SAFE_INTEGER, MAX_SAFE_INTEGER))
    && Check(Between(r.exp, -MAX_SAFE_INTEGER, MAX_SAFE_INTEGER))
    && Check(And(Le(Val(0), r.count), Le(r.count, r.maxRedemptions)))
    && Check(And(Le(r.iat, r.nbf), Lt(r.nbf, r.exp)))
    && Check(Or(And(Eq(r.grantType, Val(SINGLE)), Eq(r.maxRedemptions, Val(1))),
                And(Eq(r.grantType, Val(MULTI)), Lt(Val(1), r.maxRedemptions))))
  }

  predicate MeetsSchema(r: Row) {
    NotNullColumns(r) && ChecksPass(r)
  }

  /** Every row satisfies its constraints and the primary key is unique. */
  predicate Legal(t: Table) {
    && (forall i | 0 <= i < |t| :: MeetsSchema(t[i]))
    && (forall i, j | 0 <= i < j < |t| :: t[i].jti != t[j].jti)
  }

  function ToEntry(r: Row): Entry
    requires NotNullColumns(r)
  {
    Entry(r.iss.v, r.sub.v, r.aud.v, r.intentId.v, r.resourceId.v, r.policyId.v,
      r.grantType.v, r.maxRedemptions.v, r.count.v, r.iat.v, r.nbf.v, r.exp.v,
      if r.paymentRef.Null? then None else Some(r.paymentRef.v), r.revokedAt.Val?)
  }

  /** The ledger a legal table holds. */
  function ToLedger(t: Table): Ledger
    requires Legal(t)
  {
    if t == [] then map[] else ToLedger(t[1..])[t[0].jti.v := ToEntry(t[0])]
  }

  predicate NoNulls(t: Table) {
    forall i | 0 <= i < |t| :: NotNullColumns(t[i])
  }

  /** `m` has exactly the rows of `t` as its entries. */
  ghost predicate Describes(m: Ledger, t: Table)
    requires NoNulls(t)
  {
    && (forall i | 0 <= i < |t| :: t[i].jti.v in m && m[t[i].jti.v] == ToEntry(t[i]))
    && (forall k | k in m :: exists i :: 0 <= i < |t| && t[i].jti == Val(k))
  }

  lemma DescribedFirst(t: Table, rest: Ledger)
    requires t != [] && NoNulls(t) && Describes(rest, t[1..])
    requires forall i | 0 < i < |t| :: t[i].jti != t[0].jti
    ensures Describes(rest[t[0].jti.v := ToEntry(t[0])], t)
  {
    var m := rest[t[0].jti.v := ToEntry(t[0])];
    forall i | 0 <= i < |t|
      ensures t[i].jti.v in m && m[t[i].jti.v] == ToEntry(t[i])
    {
      if i > 0 {
        assert t[1..][i - 1] == t[i];
      }
    }
    forall k | k in m
      ensures exists i :: 0 <= i < |t| && t[i].jti == Val(k)
    {
      if k == t[0].jti.v {
        assert t[0].jti == Val(k);
      } else {
        var i :| 0 <= i < |t[1..]| && t[1..][i].jti == Val(k);
        assert t[i + 1].jti == Val(k);
      }
    }
  }

  lemma LegalTail(t: Table)
    requires Legal(t) && t != []
    ensures Legal(t[1..]) && NoNulls(t)
    ensures forall i | 0 < i < |t| :: t[i].jti != t[0].jti
  {
    forall i | 0 < i < |t|
      ensures t[i].jti != t[0].jti
    {
      assert t[0].jti != t[i].jti;
    }
  }

  lemma {:induction false} LedgerAt(t: Table)
    requires Legal(t)
    ensures Describes(ToLedger(t), t)
  {
    if t != [] {
      LegalTail(t);
      LedgerAt(t[1..]);
      DescribedFirst(t, ToLedger(t[1..]));
    }
  }

  lemma DescriptionIsUnique(t: Table, l: Ledger, m: Ledger)
    requires NoNulls(t) && Describes(l, t) && Describes(m, t)
    ensures l == m
  {
    DescribedWithin(t, l, m);
    DescribedWithin(t, m, l);
  }

  lemma DescribedWithin(t: Table, l: Ledger, m: Ledger)
    requires NoNulls(t) && Describes(l, t) && Describes(m, t)
    ensures forall k | k in l :: k in m && l[k] == m[k]
  {
    forall k | k in l
      ensures k in m && l[k] == m[k]
    {
      var i :| 0 <= i < |t| && t[i].jti == Val(k);
      assert t[i].jti.v == k;
    }
  }

  /** The schema is exactly what makes every stored receipt a valid entry. */
  lemma SchemaIsEntryValidity(r: Row)
    ensures MeetsSchema(r) <==> NotNullColumns(r) && r.jti.v != "" && ValidEntry(ToEntry(r))
  {
  }

  lemma LegalLedgerValid(t: Table)
    requires Legal(t)
    ensures ValidLedger(ToLedger(t))
  {
    LedgerAt(t);
    forall k <- ToLedger(t)
      ensures k != "" && ValidEntry(ToLedger(t)[k])
    {
      var i :| 0 <= i < |t| && t[i].jti == Val(k);
      SchemaIsEntryValidity(t[i]);
    }
  }
}

/** The consume statement, evaluated as the relational pipeline it is
    (packages/postgres-store/src/index.ts:15-49). */
module ConsumeStatement {
  import opened Basics
  import opened ReceiptClaims
  import opened SqlLogic
  import opened ReceiptRelation
  import opened Entitlements
  import opened StoreContract

  /** The positional parameters $1 to $12. */
  datatype Params = Params(
    jti: Sql<string>, iss: Sql<string>, sub: Sql<string>, aud: Sql<string>,
    intentId: Sql<string>, resourceId: Sql<string>, policyId: Sql<string>,
    grantType: Sql<string>, maxRedemptions: Sql<int>, exp: Sql<int>, now: Sql<int>,
    expectedMax: Sql<int>)

  function ParamsOf(c: Command): Params {
    Params(Val(c.jti), Val(c.iss), Val(c.sub), Val(c.aud), Val(c.intentId), Val(c.resourceId),
      Val(c.policyId), Val(c.grantType), Val(c.maxRedemptions), Val(c.exp), Val(c.currentTime),
      if c.expectedMax.None? then Null else Val(c.expectedMax.value))
  }

  datatype Decision = Decision(jti: Sql<string>, outcome: Sql<string>)

  datatype ResultRow = ResultRow(outcome: Sql<string>, exhausted: Sql<bool>)

  // ----- WITH locked -----

  function Locked(t: Table, jti: Sql<string>): seq<Row> {
    if t == [] then []
    else (if Holds(Eq(t[0].jti, jti)) then [t[0]] else []) + Locked(t[1..], jti)
  }

  // ----- decision -----

  function MismatchArm(r: Row, p: Params): Truth {
    Or(Ne(r.iss, p.iss), Or(Ne(r.sub, p.sub), Or(Ne(r.aud, p.aud),
    Or(Ne(r.intentId, p.intentId), Or(Ne(r.resourceId, p.resourceId), Or(Ne(r.policyId, p.policyId),
    Or(Ne(r.grantType, p.grantType), Or(Ne(r.maxRedemptions, p.maxRedemptions), Or(Ne(r.exp, p.exp),
      And(IsNotNull(p.expectedMax), Ne(r.maxRedemptions, p.expectedMax)))))))))))
  }

  function RevokedArm(r: Row): Truth {
    IsNotNull(r.revokedAt)
  }

  /** `clock_timestamp()` is a real number of seconds and is read afresh by each arm. */
  function ExpiredArm(r: Row, p: Params, clock: real): Truth {
    Or(Le(r.exp, p.now), Le(r.exp, Val(clock.Floor)))
  }

  function EarlyArm(r: Row, p: Params, clock: real): Truth {
    Or(Lt(p.now, r.nbf), Lt(Val(clock.Floor), r.nbf))
  }

  function ExhaustedArm(r: Row): Truth {
    Le(r.maxRedemptions, r.count)
  }

  /** CASE takes the first arm that holds; an unknown arm is passed over. */
  function OutcomeOf(r: Row, p: Params, clock0: real, clock1: real): string {
    if Holds(MismatchArm(r, p)) then "authority_mismatch"
    else if Holds(RevokedArm(r)) then "receipt_revoked"
    else if Holds(ExpiredArm(r, p, clock0)) then "receipt_expired"
    else if Holds(EarlyArm(r, p, clock1)) then "authority_mismatch"
    else if Holds(ExhaustedArm(r)) then "receipt_exhausted"
    else "admit"
  }

  /** The clock gives the n-th reading; row `i` of `locked` makes readings `2i` and `2i + 1`. */
  function Decisions(locked: seq<Row>, p: Params, clock: nat -> real): seq<Decision> {
    seq(|locked|, i requires 0 <= i < |locked| =>
      Decision(locked[i].jti, Val(OutcomeOf(locked[i], p, clock(2 * i), clock(2 * i + 1)))))
  }

  // ----- consumed -----

  function UpdateGuard(r: Row, d: Decision): Truth {
    And(And(Eq(r.jti, d.jti), Eq(d.outcome, Val("admit"))), Lt(r.count, r.maxRedemptions))
  }

  predicate Updated(r: Row, ds: seq<Decision>) {
    exists i :: 0 <= i < |ds| && Holds(UpdateGuard(r, ds[i]))
  }

  function Increment(r: Row): Row {
    r.(count := Plus(r.count, 1))
  }

  function UpdateTable(t: Table, ds: seq<Decision>): Table {
    if t == [] then []
    else [if Updated(t[0], ds) then Increment(t[0]) else t[0]] + UpdateTable(t[1..], ds)
  }

  /** RETURNING sees the new row. */
  function ReturnedFlag(r: Row): Sql<bool> {
    if Eq(r.count, r.maxRedemptions) == Unknown then Null
    else Val(Eq(r.count, r.maxRedemptions) == True)
  }

  function Returning(t: Table, ds: seq<Decision>): seq<Sql<bool>> {
    if t == [] then []
    else (if Updated(t[0], ds) then [ReturnedFlag(Increment(t[0]))] else []) + Returning(t[1..], ds)
  }

  // ----- final projection -----

  /** `LEFT JOIN ... ON true`: no right-hand row yields one row of nulls. */
  function OrNullRow<T>(rows: seq<Sql<T>>): seq<Sql<T>> {
    if rows == [] then [Null] else rows
  }

  function DecisionOutcomes(ds: seq<Decision>): seq<Sql<string>> {
    seq(|ds|, i requires 0 <= i < |ds| => ds[i].outcome)
  }

  function Project(outcome: Sql<string>, exhausted: Sql<bool>): ResultRow {
    ResultRow(
      if Holds(IsNotNull(exhausted)) then Val("consumed")
      else if Holds(Eq(outcome, Val("admit"))) then Val("concurrency_conflict")
      else Coalesce(outcome, "receipt_missing"),
      exhausted)
  }

  function ProjectAll(outcome: Sql<string>, flags: seq<Sql<bool>>): seq<ResultRow> {
    seq(|flags|, i requires 0 <= i < |flags| => Project(outcome, flags[i]))
  }

  function CrossJoin(outcomes: seq<Sql<string>>, flags: seq<Sql<bool>>): seq<ResultRow> {
    if outcomes == [] then [] else ProjectAll(outcomes[0], flags) + CrossJoin(outcomes[1..], flags)
  }

  datatype Evaluation = Evaluation(rows: seq<ResultRow>, table: Table)

  function Evaluate(t: Table, p: Params, clock: nat -> real): Evaluation {
    var ds := Decisions(Locked(t, p.jti), p, clock);
    Evaluation(
      CrossJoin(OrNullRow(DecisionOutcomes(ds)), OrNullRow(Returning(t, ds))),
      UpdateTable(t, ds))
  }

  // ----- meaning -----

  function OutcomeText(r: ConsumeResult): string {
    AnswerRecord(r)["outcome"].s
  }

  /** The one row the statement projects for a contract result. */
  function RowFor(r: ConsumeResult): ResultRow {
    ResultRow(Val(OutcomeText(r)), if r.Consumed? then Val(r.exhausted) else Null)
  }

  /** With the schema in force and no null among $1 to $11, no arm of any CASE is unknown. */
  lemma NoArmUndecided(r: Row, c: Command, clock: real)
    requires MeetsSchema(r)
    ensures var p := ParamsOf(c);
      && MismatchArm(r, p) != Unknown && RevokedArm(r) != Unknown
      && ExpiredArm(r, p, clock) != Unknown && EarlyArm(r, p, clock) != Unknown
      && ExhaustedArm(r) != Unknown
      && (Holds(MismatchArm(r, p)) <==> !SameAuthority(ToEntry(r), c))
  {
  }

  /** Why the NOT NULL constraints matter: a row that passes every CHECK but has a null subject is
      admitted for a command naming any subject. */
  lemma NullSubjectIsAdmitted(sub: string)
    ensures var r := Row(Val("j"), Val("i"), Null, Val("a"), Val("n"), Val("r"), Val("p"), Val(SINGLE),
                       Val(1), Val(0), Val(0), Val(0), Val(10), Null, Null);
            var c := Command("j", "i", sub, "a", "n", "r", "p", SINGLE, 1, 10, 5, None);
            && ChecksPass(r) && !NotNullColumns(r)
            && MismatchArm(r, ParamsOf(c)) == Unknown
            && OutcomeOf(r, ParamsOf(c), 5.0, 5.0) == "admit"
  {
    var r := Row(Val("j"), Val("i"), Null, Val("a"), Val("n"), Val("r"), Val("p"), Val(SINGLE),
                 Val(1), Val(0), Val(0), Val(0), Val(10), Null, Null);
    var c := Command("j", "i", sub, "a", "n", "r", "p", SINGLE, 1, 10, 5, None);
    assert MismatchArm(r, ParamsOf(c)) == Unknown;
    assert ExpiredArm(r, ParamsOf(c), 5.0) == False;
    assert EarlyArm(r, ParamsOf(c), 5.0) == False;
  }

  /** The nine authority columns agree with the command's members, a null agreeing with nothing, and the limit
      with the host's if it gave one. */
  predicate Agrees(r: Row, c: Command) {
    && r.iss == Val(c.iss) && r.sub == Val(c.sub) && r.aud == Val(c.aud)
    && r.intentId == Val(c.intentId) && r.resourceId == Val(c.resourceId) && r.policyId == Val(c.policyId)
    && r.grantType == Val(c.grantType) && r.maxRedemptions == Val(c.maxRedemptions) && r.exp == Val(c.exp)
    && (c.expectedMax.Some? ==> r.maxRedemptions == Val(c.expectedMax.value))
  }

  predicate AuthorityPresent(r: Row) {
    && r.iss.Val? && r.sub.Val? && r.aud.Val?
    && r.intentId.Val? && r.resourceId.Val? && r.policyId.Val?
    && r.grantType.Val? && r.maxRedemptions.Val? && r.exp.Val?
  }

  /** The mismatch arm holds for this command exactly when it disagrees with the row. */
  predicate ArmDecides(r: Row, c: Command) {
    Holds(MismatchArm(r, ParamsOf(c))) <==> !Agrees(r, c)
  }

  function ValueOr<T>(a: Sql<T>, default: T): T {
    if a.Null? then default else a.v
  }

  /** A command that says what the row says wherever the row says anything. */
  function Echo(r: Row): Command {
    Command("j", ValueOr(r.iss, ""), ValueOr(r.sub, ""), ValueOr(r.aud, ""),
      ValueOr(r.intentId, ""), ValueOr(r.resourceId, ""), ValueOr(r.policyId, ""),
      ValueOr(r.grantType, ""), ValueOr(r.maxRedemptions, 0), ValueOr(r.exp, 0), 0, None)
  }

  /** The mismatch arm catches every disagreeing command, and no other, exactly when none of the nine
      authority columns is null: the NOT NULL constraints are what makes it an authority check. */
  lemma ArmDecidesIff(r: Row)
    ensures (forall c: Command :: ArmDecides(r, c)) <==> AuthorityPresent(r)
  {
    if AuthorityPresent(r) {
      forall c: Command
        ensures ArmDecides(r, c)
      {
        PresentArmDecides(r, c);
      }
    } else {
      EchoSlipsThrough(r);
      assert !ArmDecides(r, Echo(r));
    }
  }

  lemma PresentArmDecides(r: Row, c: Command)
    requires AuthorityPresent(r)
    ensures ArmDecides(r, c)
  {
  }

  lemma EchoSlipsThrough(r: Row)
    requires !AuthorityPresent(r)
    ensures !Agrees(r, Echo(r)) && !Holds(MismatchArm(r, ParamsOf(Echo(r))))
  {
  }

  /** The decision column says what the plain verdict says, with `admit` for an admitted use. */
  lemma OutcomeIsJudgement(r: Row, c: Command, clock0: real, clock1: real)
    requires MeetsSchema(r)
    ensures var j := Judge(ToEntry(r), c, clock0.Floor, clock1.Floor);
            OutcomeOf(r, ParamsOf(c), clock0, clock1) == if j.Consumed? then "admit" else OutcomeText(j)
    ensures var j := Judge(ToEntry(r), c, clock0.Floor, clock1.Floor);
            j.Consumed? ==> j.exhausted == (r.count.v + 1 == r.maxRedemptions.v)
    ensures var j := Judge(ToEntry(r), c, clock0.Floor, clock1.Floor);
            j.AuthorityMismatch? || j.ReceiptRevoked? || j.ReceiptExpired? || j.ReceiptExhausted? || j.Consumed?
  {
    NoArmUndecided(r, c, clock0);
    NoArmUndecided(r, c, clock1);
  }

  lemma {:induction false} LockedNone(t: Table, jti: string)
    requires forall i | 0 <= i < |t| :: t[i].jti != Val(jti)
    ensures Locked(t, Val(jti)) == []
  {
    if t != [] {
      assert t[0].jti != Val(jti);
      LockedNone(t[1..], jti);
    }
  }

  lemma {:induction false} LockedOne(t: Table, k: nat, jti: string)
    requires k < |t| && t[k].jti == Val(jti)
    requires forall i | 0 <= i < |t| && i != k :: t[i].jti != Val(jti)
    ensures Locked(t, Val(jti)) == [t[k]]
  {
    if k == 0 {
      LockedNone(t[1..], jti);
    } else {
      assert t[0].jti != Val(jti);
      LockedOne(t[1..], k - 1, jti);
    }
  }

  lemma {:induction false} UpdateNone(t: Table, ds: seq<Decision>)
    requires forall i | 0 <= i < |t| :: !Updated(t[i], ds)
    ensures UpdateTable(t, ds) == t && Returning(t, ds) == []
  {
    if t != [] {
      assert !Updated(t[0], ds);
      UpdateNone(t[1..], ds);
      assert t == [t[0]] + t[1..];
    }
  }

  lemma {:induction false} UpdateOne(t: Table, k: nat, ds: seq<Decision>)
    requires k < |t| && Updated(t[k], ds)
    requires forall i | 0 <= i < |t| && i != k :: !Updated(t[i], ds)
    ensures UpdateTable(t, ds) == t[k := Increment(t[k])]
    ensures Returning(t, ds) == [ReturnedFlag(Increment(t[k]))]
  {
    if k == 0 {
      UpdateNone(t[1..], ds);
      assert t[0 := Increment(t[0])] == [Increment(t[0])] + t[1..];
    } else {
      assert !Updated(t[0], ds);
      UpdateOne(t[1..], k - 1, ds);
      assert t[k := Increment(t[k])] == [t[0]] + t[1..][k - 1 := Increment(t[k])];
    }
  }

  /** Row `k` is the only one with its identity. */
  predicate Alone(t: Table, k: nat) {
    k < |t| && forall i | 0 <= i < |t| && i != k :: t[i].jti != t[k].jti
  }

  lemma DecideOne(r: Row, p: Params, clock: nat -> real)
    ensures Decisions([r], p, clock) == [Decision(r.jti, Val(OutcomeOf(r, p, clock(0), clock(1))))]
  {
  }

  predicate Admitted(r: Row, d: Decision) {
    d.outcome == Val("admit") && Holds(Lt(r.count, r.maxRedemptions))
  }

  lemma UpdateAddressed(t: Table, k: nat, d: Decision)
    requires Alone(t, k) && t[k].jti.Val? && d.jti == t[k].jti
    ensures UpdateTable(t, [d]) == if Admitted(t[k], d) then t[k := Increment(t[k])] else t
    ensures Returning(t, [d]) == if Admitted(t[k], d) then [ReturnedFlag(Increment(t[k]))] else []
  {
    forall i | 0 <= i < |t| && i != k
      ensures !Updated(t[i], [d])
    {
      assert !Holds(UpdateGuard(t[i], d));
    }
    assert Holds(UpdateGuard(t[k], d)) <==> Admitted(t[k], d);
    if Admitted(t[k], d) {
      assert Holds(UpdateGuard(t[k], [d][0]));
      UpdateOne(t, k, [d]);
    } else {
      UpdateNone(t, [d]);
    }
  }

  /** The statement over a table in which row `k`, and only it, carries the command's identity. */
  lemma EvaluateFound(t: Table, k: nat, c: Command, clock: nat -> real)
    requires Alone(t, k) && MeetsSchema(t[k]) && t[k].jti == Val(c.jti)
    ensures var j := Judge(ToEntry(t[k]), c, clock(0).Floor, clock(1).Floor);
            Evaluate(t, ParamsOf(c), clock)
              == Evaluation([RowFor(j)], if j.Consumed? then t[k := Increment(t[k])] else t)
  {
    var p := ParamsOf(c);
    var r := t[k];
    LockedOne(t, k, c.jti);
    DecideOne(r, p, clock);
    var d := Decision(r.jti, Val(OutcomeOf(r, p, clock(0), clock(1))));
    OutcomeIsJudgement(r, c, clock(0), clock(1));
    UpdateAddressed(t, k, d);
    assert DecisionOutcomes([d]) == [d.outcome];
    ProjectJudgement(r, c, clock(0), clock(1));
    JoinSingletons(d.outcome, Null);
    JoinSingletons(d.outcome, ReturnedFlag(Increment(r)));
  }

  /** What the guarded update's own test is for: over a table where one row carries the command's identity, whatever
      its other columns hold, a conflict is projected exactly when the row is admitted without a count or a limit,
      and then nothing is written. The schema excludes such a row, so a legal table never answers a conflict. */
  lemma ConflictIff(t: Table, k: nat, c: Command, clock: nat -> real)
    requires Alone(t, k) && t[k].jti == Val(c.jti)
    ensures var e := Evaluate(t, ParamsOf(c), clock);
            var undecided := OutcomeOf(t[k], ParamsOf(c), clock(0), clock(1)) == "admit"
                             && (t[k].count.Null? || t[k].maxRedemptions.Null?);
      && (e.rows == [ResultRow(Val("concurrency_conflict"), Null)] <==> undecided)
      && (undecided ==> e.table == t)
  {
    var p := ParamsOf(c);
    var r := t[k];
    LockedOne(t, k, c.jti);
    DecideOne(r, p, clock);
    var d := Decision(r.jti, Val(OutcomeOf(r, p, clock(0), clock(1))));
    UpdateAddressed(t, k, d);
    assert DecisionOutcomes([d]) == [d.outcome];
    JoinSingletons(d.outcome, Null);
    JoinSingletons(d.outcome, ReturnedFlag(Increment(r)));
  }

  /** The row projected for the addressed receipt is the one for its verdict. */
  lemma ProjectJudgement(r: Row, c: Command, clock0: real, clock1: real)
    requires MeetsSchema(r)
    ensures var j := Judge(ToEntry(r), c, clock0.Floor, clock1.Floor);
            var outcome := Val(OutcomeOf(r, ParamsOf(c), clock0, clock1));
            && (Admitted(r, Decision(r.jti, outcome)) <==> j.Consumed?)
            && Project(outcome, if j.Consumed? then ReturnedFlag(Increment(r)) else Null) == RowFor(j)
  {
    OutcomeIsJudgement(r, c, clock0, clock1);
  }

  lemma JoinSingletons(outcome: Sql<string>, flag: Sql<bool>)
    ensures CrossJoin([outcome], [flag]) == [Project(outcome, flag)]
  {
    assert ProjectAll(outcome, [flag]) == [Project(outcome, flag)];
    assert CrossJoin([outcome][1..], [flag]) == [];
  }

  lemma EvaluateMissing(t: Table, c: Command, clock: nat -> real)
    requires forall i | 0 <= i < |t| :: t[i].jti != Val(c.jti)
    ensures Evaluate(t, ParamsOf(c), clock) == Evaluation([RowFor(ReceiptMissing)], t)
  {
    LockedNone(t, c.jti);
    var ds := Decisions(Locked(t, Val(c.jti)), ParamsOf(c), clock);
    assert ds == [];
    UpdateNone(t, ds);
    assert DecisionOutcomes(ds) == [];
    JoinSingletons(Null, Null);
  }

  /** `e` is what the plain specification allows for this table and command: one row with its result, its
      ledger in a legal table, and no row changed but the addressed one. */
  predicate Meets(e: Evaluation, t: Table, c: Command, t0: int, t1: int)
    requires Legal(t)
  {
    var spec := Consume(ToLedger(t), c, t0, t1);
    && e.rows == [RowFor(spec.result)]
    && Legal(e.table) && ToLedger(e.table) == spec.ledger
    && |e.table| == |t|
    && (forall i | 0 <= i < |t| && t[i].jti != Val(c.jti) :: e.table[i] == t[i])
  }

  /** Over every legal table and for every command, the pipeline returns exactly one row; that row and the
      ledger left behind are those of the plain specification; the table stays legal and no row other than
      the addressed one changes. */
  lemma StatementMeetsSpecification(t: Table, c: Command, clock: nat -> real)
    requires Legal(t)
    ensures Meets(Evaluate(t, ParamsOf(c), clock), t, c, clock(0).Floor, clock(1).Floor)
  {
    var t0, t1 := clock(0).Floor, clock(1).Floor;
    if k :| 0 <= k < |t| && t[k].jti == Val(c.jti) {
      LegalIsAlone(t, k);
      EvaluateFound(t, k, c, clock);
      VerdictMeetsSpecification(t, k, c, t0, t1);
    } else {
      EvaluateMissing(t, c, clock);
      MissingMeetsSpecification(t, c, t0, t1);
    }
  }

  lemma MissingMeetsSpecification(t: Table, c: Command, t0: int, t1: int)
    requires Legal(t) && forall k | 0 <= k < |t| :: t[k].jti != Val(c.jti)
    ensures Meets(Evaluation([RowFor(ReceiptMissing)], t), t, c, t0, t1)
  {
    LedgerAt(t);
  }

  lemma VerdictMeetsSpecification(t: Table, k: nat, c: Command, t0: int, t1: int)
    requires Legal(t) && k < |t| && t[k].jti == Val(c.jti)
    ensures var verdict := Judge(ToEntry(t[k]), c, t0, t1);
            var t' := if verdict.Consumed? then t[k := Increment(t[k])] else t;
            Meets(Evaluation([RowFor(verdict)], t'), t, c, t0, t1)
  {
    var entry := ToEntry(t[k]);
    RowIsInLedger(t, k, c.jti);
    ConsumeFound(ToLedger(t), c, entry, t0, t1);
    if Judge(entry, c, t0, t1).Consumed? {
      VerdictLeavesRoom(t[k], c, t0, t1);
      UseMeetsSchema(t, k);
      ChangesMeet(t, t[k := Increment(t[k])], c, t0, t1);
    } else {
      ChangesMeet(t, t, c, t0, t1);
    }
  }

  lemma ConsumeFound(m: Ledger, c: Command, e: Entry, t0: int, t1: int)
    requires c.jti in m && m[c.jti] == e
    ensures var verdict := Judge(e, c, t0, t1);
            Consume(m, c, t0, t1) == Outcome(verdict, if verdict.Consumed? then m[c.jti := Use(e)] else m)
  {
  }

  lemma ChangesMeet(t: Table, t': Table, c: Command, t0: int, t1: int)
    requires Legal(t) && Legal(t') && ToLedger(t') == Consume(ToLedger(t), c, t0, t1).ledger
    requires |t'| == |t| && forall i | 0 <= i < |t| && t[i].jti != Val(c.jti) :: t'[i] == t[i]
    ensures Meets(Evaluation([RowFor(Consume(ToLedger(t), c, t0, t1).result)], t'), t, c, t0, t1)
  {
  }

  lemma UseMeetsSchema(t: Table, k: nat)
    requires Legal(t) && k < |t| && t[k].count.v < t[k].maxRedemptions.v
    ensures Legal(t[k := Increment(t[k])])
    ensures ToLedger(t[k := Increment(t[k])]) == ToLedger(t)[t[k].jti.v := Use(ToEntry(t[k]))]
  {
    IncrementKeepsLegal(t, k);
    LedgerAfterIncrement(t, k);
  }

  lemma RowIsInLedger(t: Table, k: nat, jti: string)
    requires Legal(t) && k < |t| && t[k].jti == Val(jti)
    ensures jti in ToLedger(t) && ToLedger(t)[jti] == ToEntry(t[k])
  {
    LedgerAt(t);
    assert t[k].jti.v in ToLedger(t);
  }

  lemma VerdictLeavesRoom(r: Row, c: Command, t0: int, t1: int)
    requires NotNullColumns(r) && Judge(ToEntry(r), c, t0, t1).Consumed?
    ensures r.count.v < r.maxRedemptions.v
  {
  }

  lemma LegalIsAlone(t: Table, k: nat)
    requires Legal(t) && k < |t|
    ensures Alone(t, k)
  {
    forall i | 0 <= i < |t| && i != k
      ensures t[i].jti != t[k].jti
    {
      if i < k {
        assert t[i].jti != t[k].jti;
      } else {
        assert t[k].jti != t[i].jti;
      }
    }
  }

  lemma IncrementKeepsLegal(t: Table, k: nat)
    requires Legal(t) && k < |t| && t[k].count.v < t[k].maxRedemptions.v
    ensures Legal(t[k := Increment(t[k])])
  {
    SchemaIsEntryValidity(t[k]);
    SchemaIsEntryValidity(Increment(t[k]));
    var t' := t[k := Increment(t[k])];
    forall i, j | 0 <= i < j < |t'|
      ensures t'[i].jti != t'[j].jti
    {
      assert t[i].jti != t[j].jti;
    }
  }

  lemma DescriptionAfterIncrement(t: Table, k: nat, m: Ledger)
    requires NoNulls(t) && Alone(t, k) && Describes(m, t)
    ensures NoNulls(t[k := Increment(t[k])])
    ensures Describes(m[t[k].jti.v := Use(ToEntry(t[k]))], t[k := Increment(t[k])])
  {
    var t' := t[k := Increment(t[k])];
    var m' := m[t[k].jti.v := Use(ToEntry(t[k]))];
    assert ToEntry(Increment(t[k])) == Use(ToEntry(t[k]));
    forall i | 0 <= i < |t'|
      ensures t'[i].jti == t[i].jti && NotNullColumns(t'[i])
    {
    }
    forall i | 0 <= i < |t'|
      ensures t'[i].jti.v in m' && m'[t'[i].jti.v] == ToEntry(t'[i])
    {
      assert t[i].jti.v in m && m[t[i].jti.v] == ToEntry(t[i]);
    }
    forall key | key in m'
      ensures exists i :: 0 <= i < |t'| && t'[i].jti == Val(key)
    {
      var i :| 0 <= i < |t| && t[i].jti == Val(key);
      assert t'[i].jti == Val(key);
    }
  }

  lemma LedgerAfterIncrement(t: Table, k: nat)
    requires Legal(t) && k < |t| && Legal(t[k := Increment(t[k])])
    ensures ToLedger(t[k := Increment(t[k])]) == ToLedger(t)[t[k].jti.v := Use(ToEntry(t[k]))]
  {
    var t' := t[k := Increment(t[k])];
    LegalIsAlone(t, k);
    LedgerAt(t);
    DescriptionAfterIncrement(t, k, ToLedger(t));
    LedgerAt(t');
    DescriptionIsUnique(t', ToLedger(t'), ToLedger(t)[t[k].jti.v := Use(ToEntry(t[k]))]);
  }
}
