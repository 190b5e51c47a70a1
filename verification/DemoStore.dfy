/** The in-memory store of the paid-resource example, and why it may stand in for the PostgreSQL one
    (examples/paid-resource/src/paid-resource-service.mjs:39-131). */
module DemoStore {
  import opened ReceiptClaims
  import opened StoreContract

  datatype Authority = Authority(
    jti: string, iss: string, sub: string, aud: string,
    intentId: string, resourceId: string, policyId: string,
    grantType: string, maxRedemptions: int, exp: int)

  datatype Record = Record(
    authority: Authority, expiresAt: int, redemptionCount: int, revoked: bool, exhausted: bool)

  type Records = map<string, Record>

  function AuthorityFromClaims(c: Claims): Authority {
    Authority(c.jti, c.iss, c.sub, c.aud, c.intentId, c.resourceId, c.policyId,
      c.grantType, c.maxRedemptions, c.exp)
  }

  function AuthorityOfCommand(c: Command): Authority {
    Authority(c.jti, c.iss, c.sub, c.aud, c.intentId, c.resourceId, c.policyId,
      c.grantType, c.maxRedemptions, c.exp)
  }

  function NewRecord(c: Claims): Record {
    Record(AuthorityFromClaims(c), c.exp, 0, false, false)
  }

  datatype DemoOutcome = DemoOutcome(result: ConsumeResult, records: Records)

  function DemoConsume(records: Records, c: Command): DemoOutcome {
    if c.jti !in records then DemoOutcome(ReceiptMissing, records)
    else
      var record := records[c.jti];
      if AuthorityOfCommand(c) != record.authority then DemoOutcome(AuthorityMismatch, records)
      else if c.expectedMax.Some? && c.expectedMax.value != record.authority.maxRedemptions then
        DemoOutcome(AuthorityMismatch, records)
      else if record.revoked then DemoOutcome(ReceiptRevoked, records)
      else if c.currentTime >= record.expiresAt then DemoOutcome(ReceiptExpired, records)
      else if record.exhausted || record.redemptionCount >= record.authority.maxRedemptions then
        DemoOutcome(ReceiptExhausted, records)
      else
        var next := record.redemptionCount + 1;
        var exhausted := next >= record.authority.maxRedemptions;
        DemoOutcome(Consumed(exhausted),
          records[c.jti := record.(redemptionCount := next, exhausted := exhausted)])
  }

  function DemoRevoke(records: Records, jti: string): Records {
    if jti in records then records[jti := records[jti].(revoked := true)] else records
  }

  class DemoAccessReceiptStore {
    var records: Records
    var consumeCalls: nat

    constructor ()
      ensures records == map[] && consumeCalls == 0
    {
      records := map[];
      consumeCalls := 0;
    }

    /** False is the thrown "already registered" error. */
    method RegisterIssuedReceipt(claims: Claims) returns (registered: bool)
      modifies this
      ensures registered <==> claims.jti !in old(records)
      ensures records == if registered then old(records)[claims.jti := NewRecord(claims)] else old(records)
      ensures consumeCalls == old(consumeCalls)
    {
      if claims.jti in records {
        return false;
      }
      records := records[claims.jti := NewRecord(claims)];
      registered := true;
    }

    method Consume(c: Command) returns (r: ConsumeResult)
      modifies this
      ensures DemoOutcome(r, records) == DemoConsume(old(records), c)
      ensures consumeCalls == old(consumeCalls) + 1
    {
      consumeCalls := consumeCalls + 1;
      if c.jti !in records {
        return ReceiptMissing;
      }
      var record := records[c.jti];
      if AuthorityOfCommand(c) != record.authority {
        return AuthorityMismatch;
      }
      if c.expectedMax.Some? && c.expectedMax.value != record.authority.maxRedemptions {
        return AuthorityMismatch;
      }
      if record.revoked {
        return ReceiptRevoked;
      }
      if c.currentTime >= record.expiresAt {
        return ReceiptExpired;
      }
      var persistedLimit := record.authority.maxRedemptions;
      if record.exhausted || record.redemptionCount >= persistedLimit {
        return ReceiptExhausted;
      }
      var next := record.redemptionCount + 1;
      record := record.(redemptionCount := next);
      record := record.(exhausted := next >= persistedLimit);
      records := records[c.jti := record];
      r := Consumed(record.exhausted);
    }

    method Revoke(jti: string)
      modifies this
      ensures records == DemoRevoke(old(records), jti)
      ensures consumeCalls == old(consumeCalls)
    {
      if jti in records {
        records := records[jti := records[jti].(revoked := true)];
      }
    }
  }
}

/** `DemoAccessReceiptStore` refined against the consume statement's meaning. */
module DemoRefinement {
  import opened Basics
  import opened ReceiptClaims
  import opened StoreContract
  import opened Entitlements
  import opened DemoStore
  import S = SqlLogic
  import R = ReceiptRelation
  import C = ConsumeStatement
  import P = PostgresStore

  /** The row a host inserts for freshly issued claims, with the count defaulting to zero. */
  function EntryFor(c: Claims): Entry {
    Entry(c.iss, c.sub, c.aud, c.intentId, c.resourceId, c.policyId, c.grantType, c.maxRedemptions, 0,
      c.iat, c.nbf, c.exp, c.paymentRef, false)
  }

  /** Canonical claims always satisfy the table's constraints. */
  lemma ClaimsFitTheSchema(c: Claims)
    requires Valid(c)
    ensures c.jti != "" && ValidEntry(EntryFor(c))
  {
  }

  /** Both stores know the same receipts, and the demo's flag is the count having reached the limit. */
  predicate CoupledRecord(jti: string, r: Record, e: Entry) {
    && r.authority == Authority(jti, e.iss, e.sub, e.aud, e.intentId, e.resourceId, e.policyId,
                        e.grantType, e.maxRedemptions, e.exp)
    && r.expiresAt == e.exp
    && r.redemptionCount == e.count
    && r.revoked == e.revoked
    && (r.exhausted <==> e.count >= e.maxRedemptions)
  }

  predicate Coupled(d: Records, m: Ledger) {
    d.Keys == m.Keys && forall k <- d :: CoupledRecord(k, d[k], m[k])
  }

  /** The one check the demo store does not make: the command has the authority of a receipt that is neither
      revoked nor expired, and comes before its not-before time. */
  predicate TooEarly(m: Ledger, c: Command) {
    && c.jti in m && SameAuthority(m[c.jti], c) && !m[c.jti].revoked
    && c.currentTime < m[c.jti].exp && c.currentTime < m[c.jti].nbf
  }

  /** With the database clock at host time, the two stores answer a command alike exactly when it is not too
      early; then they stay coupled. */
  lemma ConsumeAgreesIff(d: Records, m: Ledger, c: Command)
    requires Coupled(d, m) && ValidLedger(m)
    ensures var demo := DemoConsume(d, c);
            var sql := Consume(m, c, c.currentTime, c.currentTime);
      && (demo.result == sql.result <==> !TooEarly(m, c))
      && (!TooEarly(m, c) ==> Coupled(demo.records, sql.ledger))
  {
    if c.jti in m {
      assert CoupledRecord(c.jti, d[c.jti], m[c.jti]);
      assert ValidEntry(m[c.jti]);
    }
  }

  /** The same against the statement itself: over any legal table coupled with the demo's records, and with
      every clock reading at host time, the one projected row is the demo's answer exactly when the command is
      not too early, and then the new table is coupled with the new records. */
  lemma StatementAgreesIff(d: Records, t: R.Table, c: Command, clock: nat -> real)
    requires R.Legal(t) && Coupled(d, R.ToLedger(t))
    requires clock(0).Floor == c.currentTime && clock(1).Floor == c.currentTime
    ensures var e := C.Evaluate(t, C.ParamsOf(c), clock);
            var demo := DemoConsume(d, c);
      && R.Legal(e.table)
      && (e.rows == [C.RowFor(demo.result)] <==> !TooEarly(R.ToLedger(t), c))
      && (!TooEarly(R.ToLedger(t), c) ==> Coupled(demo.records, R.ToLedger(e.table)))
  {
    R.LegalLedgerValid(t);
    C.StatementMeetsSpecification(t, c, clock);
    ConsumeAgreesIff(d, R.ToLedger(t), c);
    RowsTellApart(Consume(R.ToLedger(t), c, c.currentTime, c.currentTime).result, DemoConsume(d, c).result);
  }

  lemma RowsTellApart(r: ConsumeResult, r': ConsumeResult)
    ensures C.RowFor(r) == C.RowFor(r') <==> r == r'
  {
    assert C.RowFor(r).outcome == S.Val(C.OutcomeText(r)) && C.RowFor(r').outcome == S.Val(C.OutcomeText(r'));
  }

  /** A receipt issued for the future shows the difference. */
  lemma DemoIgnoresNotBefore()
    ensures var claims := Claims("i", "s", "a", 0, 100, 200, "j", "n", "r", "p", None, SINGLE, 1);
            var c := Command("j", "i", "s", "a", "n", "r", "p", SINGLE, 1, 200, 50, None);
      && Valid(claims) && ValidCommand(c)
      && DemoConsume(map["j" := NewRecord(claims)], c).result == Consumed(true)
      && Consume(map["j" := EntryFor(claims)], c, 50, 50).result == AuthorityMismatch
  {
  }

  // ----- runs -----

  /** What a caller does, with the database clock a consume command meets. */
  datatype Op =
    | Register(claims: Claims)
    | RevokeOp(jti: string, at: int)
    | ConsumeOp(c: Command, clock: nat -> real)

  /** What the caller of an operation observes. */
  datatype Observation = Registered(accepted: bool) | Revoked | Answered(result: ConsumeResult)

  function DemoStep(d: Records, op: Op): (Observation, Records) {
    match op
    case Register(c) =>
      if c.jti in d then (Registered(false), d) else (Registered(true), d[c.jti := NewRecord(c)])
    case RevokeOp(jti, _) => (Revoked, DemoRevoke(d, jti))
    case ConsumeOp(c, _) => var o := DemoConsume(d, c); (Answered(o.result), o.records)
  }

  function DemoRun(d: Records, ops: seq<Op>): seq<Observation>
    decreases |ops|
  {
    if ops == [] then [] else [DemoStep(d, ops[0]).0] + DemoRun(DemoStep(d, ops[0]).1, ops[1..])
  }

  /** The run is what the store object answers, call after call. */
  method Drive(store: DemoAccessReceiptStore, ops: seq<Op>) returns (observed: seq<Observation>)
    modifies store
    ensures observed == DemoRun(old(store.records), ops)
  {
    observed := [];
    for k := 0 to |ops|
      invariant observed + DemoRun(store.records, ops[k..]) == DemoRun(old(store.records), ops)
    {
      ghost var before := store.records;
      var o: Observation;
      match ops[k] {
        case Register(c) =>
          var accepted := store.RegisterIssuedReceipt(c);
          o := Registered(accepted);
        case RevokeOp(jti, _) =>
          store.Revoke(jti);
          o := Revoked;
        case ConsumeOp(c, _) =>
          var r := store.Consume(c);
          o := Answered(r);
      }
      assert (o, store.records) == DemoStep(before, ops[k]);
      assert ops[k..][0] == ops[k] && ops[k..][1..] == ops[k + 1..];
      observed := observed + [o];
    }
    assert ops[|ops|..] == [];
  }

  // ----- the same operations on the table -----

  /** The row a host inserts for freshly issued claims; count and revocation take their defaults. */
  function RowOf(c: Claims): R.Row {
    R.Row(S.Val(c.jti), S.Val(c.iss), S.Val(c.sub), S.Val(c.aud),
      S.Val(c.intentId), S.Val(c.resourceId), S.Val(c.policyId),
      S.Val(c.grantType), S.Val(c.maxRedemptions), S.Val(0), S.Val(c.iat), S.Val(c.nbf), S.Val(c.exp),
      if c.paymentRef.None? then S.Null else S.Val(c.paymentRef.value), S.Null)
  }

  function RevokeRows(t: R.Table, jti: string, at: int): (t': R.Table)
    ensures |t'| == |t|
  {
    seq(|t|, i requires 0 <= i < |t| => if t[i].jti == S.Val(jti) then t[i].(revokedAt := S.Val(at)) else t[i])
  }

  predicate HasRow(t: R.Table, jti: string) {
    exists i :: 0 <= i < |t| && t[i].jti == S.Val(jti)
  }

  /** The host's inserts and revocations, and the consume statement read the way the store reads it. */
  function TableStep(t: R.Table, op: Op): (Observation, R.Table) {
    match op
    case Register(c) =>
      if HasRow(t, c.jti) then (Registered(false), t) else (Registered(true), t + [RowOf(c)])
    case RevokeOp(jti, at) => (Revoked, RevokeRows(t, jti, at))
    case ConsumeOp(c, clock) =>
      var e := C.Evaluate(t, C.ParamsOf(c), clock);
      (Answered(P.ReadRows(P.Delivered(e, P.Faithful).value)), e.table)
  }

  function TableRun(t: R.Table, ops: seq<Op>): seq<Observation>
    decreases |ops|
  {
    if ops == [] then [] else [TableStep(t, ops[0]).0] + TableRun(TableStep(t, ops[0]).1, ops[1..])
  }

  // ----- and on the ledger the table holds -----

  function LedgerStep(m: Ledger, op: Op): (Observation, Ledger) {
    match op
    case Register(c) =>
      if c.jti in m then (Registered(false), m) else (Registered(true), m[c.jti := EntryFor(c)])
    case RevokeOp(jti, _) => (Revoked, RevokeEntry(m, jti))
    case ConsumeOp(c, clock) =>
      var o := Consume(m, c, clock(0).Floor, clock(1).Floor); (Answered(o.result), o.ledger)
  }

  lemma RowsAreInLedger(t: R.Table, jti: string)
    requires R.Legal(t)
    ensures HasRow(t, jti) <==> jti in R.ToLedger(t)
  {
    R.LedgerAt(t);
    if i :| 0 <= i < |t| && t[i].jti == S.Val(jti) {
      assert t[i].jti.v in R.ToLedger(t);
    }
  }

  lemma RowIsEntry(c: Claims)
    requires Valid(c)
    ensures R.MeetsSchema(RowOf(c)) && R.ToEntry(RowOf(c)) == EntryFor(c)
  {
    ClaimsFitTheSchema(c);
    R.SchemaIsEntryValidity(RowOf(c));
  }

  lemma DescribesInserted(t: R.Table, row: R.Row, m: Ledger)
    requires R.NoNulls(t) && R.NotNullColumns(row) && R.Describes(m, t) && !HasRow(t, row.jti.v)
    ensures R.NoNulls(t + [row]) && R.Describes(m[row.jti.v := R.ToEntry(row)], t + [row])
  {
    var t', m' := t + [row], m[row.jti.v := R.ToEntry(row)];
    forall i | 0 <= i < |t'|
      ensures R.NotNullColumns(t'[i]) && t'[i].jti.v in m' && m'[t'[i].jti.v] == R.ToEntry(t'[i])
    {
      if i < |t| {
        assert t'[i] == t[i] && t[i].jti.v in m && m[t[i].jti.v] == R.ToEntry(t[i]);
        assert t[i].jti == S.Val(t[i].jti.v);
      }
    }
    forall k | k in m'
      ensures exists i :: 0 <= i < |t'| && t'[i].jti == S.Val(k)
    {
      if k == row.jti.v {
        assert t'[|t|].jti == S.Val(k);
      } else {
        var i :| 0 <= i < |t| && t[i].jti == S.Val(k);
        assert t'[i].jti == S.Val(k);
      }
    }
  }

  lemma InsertedIsLegal(t: R.Table, row: R.Row)
    requires R.Legal(t) && R.MeetsSchema(row) && !HasRow(t, row.jti.v)
    ensures R.Legal(t + [row])
  {
    var t' := t + [row];
    forall i, j | 0 <= i < j < |t'|
      ensures t'[i].jti != t'[j].jti
    {
      if j == |t| {
        assert t'[i] == t[i] && t'[j] == row && row.jti == S.Val(row.jti.v);
      } else {
        assert t'[i] == t[i] && t'[j] == t[j];
      }
    }
  }

  lemma InsertIsRegistration(t: R.Table, c: Claims)
    requires R.Legal(t) && Valid(c) && !HasRow(t, c.jti)
    ensures R.Legal(t + [RowOf(c)]) && R.ToLedger(t + [RowOf(c)]) == R.ToLedger(t)[c.jti := EntryFor(c)]
  {
    var row := RowOf(c);
    RowIsEntry(c);
    R.LedgerAt(t);
    InsertedIsLegal(t, row);
    DescribesInserted(t, row, R.ToLedger(t));
    LedgerIs(t + [row], R.ToLedger(t)[c.jti := EntryFor(c)]);
  }

  lemma LedgerIs(t: R.Table, m: Ledger)
    requires R.Legal(t) && R.Describes(m, t)
    ensures R.ToLedger(t) == m
  {
    R.LedgerAt(t);
    R.DescriptionIsUnique(t, R.ToLedger(t), m);
  }

  lemma RevokedRowMeetsSchema(r: R.Row, at: int)
    requires R.MeetsSchema(r)
    ensures var r' := r.(revokedAt := S.Val(at));
            R.MeetsSchema(r') && R.ToEntry(r') == R.ToEntry(r).(revoked := true)
  {
  }

  lemma RevokedRowsAreLegal(t: R.Table, jti: string, at: int)
    requires R.Legal(t)
    ensures R.Legal(RevokeRows(t, jti, at))
  {
    var t' := RevokeRows(t, jti, at);
    forall i | 0 <= i < |t'|
      ensures R.MeetsSchema(t'[i]) && t'[i].jti == t[i].jti
    {
      RevokedRowMeetsSchema(t[i], at);
    }
  }

  function RevokeEntry(m: Ledger, jti: string): Ledger {
    if jti in m then m[jti := m[jti].(revoked := true)] else m
  }

  /** `r'` is row `r`, revoked if it is the one named. */
  predicate RevokedIf(r: R.Row, r': R.Row, jti: string)
    requires R.NotNullColumns(r)
  {
    && R.NotNullColumns(r') && r'.jti == r.jti
    && R.ToEntry(r') == if r.jti.v == jti then R.ToEntry(r).(revoked := true) else R.ToEntry(r)
  }

  lemma RevokedRows(t: R.Table, jti: string, at: int)
    requires R.Legal(t)
    ensures forall i | 0 <= i < |t| :: RevokedIf(t[i], RevokeRows(t, jti, at)[i], jti)
  {
    forall i | 0 <= i < |t|
      ensures RevokedIf(t[i], RevokeRows(t, jti, at)[i], jti)
    {
      RevokedRowMeetsSchema(t[i], at);
      assert t[i].jti == S.Val(jti) <==> t[i].jti.v == jti;
    }
  }

  lemma DescribesRevoked(t: R.Table, t': R.Table, jti: string, m: Ledger)
    requires R.NoNulls(t) && R.Describes(m, t) && |t'| == |t|
    requires forall i | 0 <= i < |t| :: RevokedIf(t[i], t'[i], jti)
    ensures R.NoNulls(t') && R.Describes(RevokeEntry(m, jti), t')
  {
    var m' := RevokeEntry(m, jti);
    forall i | 0 <= i < |t'|
      ensures R.NotNullColumns(t'[i]) && t'[i].jti.v in m' && m'[t'[i].jti.v] == R.ToEntry(t'[i])
    {
      assert RevokedIf(t[i], t'[i], jti);
      assert t[i].jti.v in m && m[t[i].jti.v] == R.ToEntry(t[i]);
    }
    forall k | k in m'
      ensures exists i :: 0 <= i < |t'| && t'[i].jti == S.Val(k)
    {
      assert k in m;
      var i :| 0 <= i < |t| && t[i].jti == S.Val(k);
      assert RevokedIf(t[i], t'[i], jti);
      assert t'[i].jti == S.Val(k);
    }
  }

  lemma UpdateIsRevocation(t: R.Table, jti: string, at: int)
    requires R.Legal(t)
    ensures var t' := RevokeRows(t, jti, at);
            R.Legal(t') && R.ToLedger(t') == RevokeEntry(R.ToLedger(t), jti)
  {
    RevokedRowsAreLegal(t, jti, at);
    R.LedgerAt(t);
    RevokedRows(t, jti, at);
    DescribesRevoked(t, RevokeRows(t, jti, at), jti, R.ToLedger(t));
    LedgerIs(RevokeRows(t, jti, at), RevokeEntry(R.ToLedger(t), jti));
  }

  lemma StatementIsConsumption(t: R.Table, c: Command, clock: nat -> real)
    requires R.Legal(t)
    ensures var e := C.Evaluate(t, C.ParamsOf(c), clock);
            var o := Consume(R.ToLedger(t), c, clock(0).Floor, clock(1).Floor);
      && R.Legal(e.table) && R.ToLedger(e.table) == o.ledger
      && P.ReadRows(P.Delivered(e, P.Faithful).value) == o.result
  {
    C.StatementMeetsSpecification(t, c, clock);
    var e := C.Evaluate(t, C.ParamsOf(c), clock);
    var o := Consume(R.ToLedger(t), c, clock(0).Floor, clock(1).Floor);
    P.ProjectedRowIsUnderstood(o.result);
    assert P.Delivered(e, P.Faithful).value == [P.RowObject(C.RowFor(o.result))];
  }

  lemma TableStepIsLedgerStep(t: R.Table, op: Op)
    requires R.Legal(t) && (op.Register? ==> Valid(op.claims))
    ensures var (o, t') := TableStep(t, op);
            R.Legal(t') && LedgerStep(R.ToLedger(t), op) == (o, R.ToLedger(t'))
  {
    match op
    case Register(c) =>
      RowsAreInLedger(t, c.jti);
      if !HasRow(t, c.jti) {
        InsertIsRegistration(t, c);
      }
    case RevokeOp(jti, at) => UpdateIsRevocation(t, jti, at);
    case ConsumeOp(c, clock) => StatementIsConsumption(t, c, clock);
  }

  /** Only canonical claims are registered, and the database clock shows the command's time. */
  predicate Wellformed(ops: seq<Op>) {
    forall i | 0 <= i < |ops| :: WellformedOp(ops[i])
  }

  predicate WellformedOp(op: Op) {
    && (op.Register? ==> Valid(op.claims))
    && (op.ConsumeOp? ==>
          op.clock(0).Floor == op.c.currentTime && op.clock(1).Floor == op.c.currentTime)
  }

  /** Some command is too early for the table it meets. */
  predicate SomeTooEarly(t: R.Table, ops: seq<Op>)
    requires R.Legal(t) && Wellformed(ops)
    decreases |ops|
  {
    ops != [] &&
    (EarlyAt(t, ops[0])
     || (TableStepIsLedgerStep(t, ops[0]);
         SomeTooEarly(TableStep(t, ops[0]).1, ops[1..])))
  }

  predicate EarlyAt(t: R.Table, op: Op)
    requires R.Legal(t)
  {
    op.ConsumeOp? && TooEarly(R.ToLedger(t), op.c)
  }

  lemma StepStaysCoupled(d: Records, m: Ledger, op: Op)
    requires Coupled(d, m) && ValidLedger(m) && WellformedOp(op)
    ensures op.ConsumeOp? && TooEarly(m, op.c) ==> DemoStep(d, op).0 != LedgerStep(m, op).0
    ensures !(op.ConsumeOp? && TooEarly(m, op.c)) ==>
              DemoStep(d, op).0 == LedgerStep(m, op).0 && Coupled(DemoStep(d, op).1, LedgerStep(m, op).1)
  {
    match op
    case Register(c) =>
    case RevokeOp(jti, _) =>
    case ConsumeOp(c, _) => ConsumeAgreesIff(d, m, c);
  }

  /** For every sequence of registrations, revocations and consume commands, over any coupled legal table and
      with the database clock at host time, the demo store and the statement give the same observations
      exactly when no command is too early: none has the authority of a receipt that is neither revoked nor
      expired when it comes, and comes before its not-before time. */
  lemma {:induction false} DemoRefinesStatement(d: Records, t: R.Table, ops: seq<Op>)
    requires R.Legal(t) && Coupled(d, R.ToLedger(t)) && Wellformed(ops)
    ensures DemoRun(d, ops) == TableRun(t, ops) <==> !SomeTooEarly(t, ops)
    decreases |ops|
  {
    if ops != [] {
      R.LegalLedgerValid(t);
      TableStepIsLedgerStep(t, ops[0]);
      StepStaysCoupled(d, R.ToLedger(t), ops[0]);
      var (o, d') := DemoStep(d, ops[0]);
      var (o', t') := TableStep(t, ops[0]);
      if EarlyAt(t, ops[0]) {
        assert DemoRun(d, ops)[0] == o && TableRun(t, ops)[0] == o';
      } else {
        DemoRefinesStatement(d', t', ops[1..]);
        SameTail(o, DemoRun(d', ops[1..]), TableRun(t', ops[1..]));
      }
    }
  }

  lemma SameTail(o: Observation, a: seq<Observation>, b: seq<Observation>)
    ensures [o] + a == [o] + b <==> a == b
  {
    assert ([o] + a)[1..] == a && ([o] + b)[1..] == b;
  }
}
