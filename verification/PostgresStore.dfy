/** The PostgreSQL receipt store: one statement on a host-owned executor
    (packages/postgres-store/src/index.ts:51-101). */
module PostgresStore {
  import opened Basics
  import opened StoreContract
  import opened Entitlements
  import R = ReceiptRelation
  import C = ConsumeStatement

  /** How the host's executor and its connection treat one statement. */
  datatype Delivery =
    | Faithful                       // executed, the rows come back as PostgreSQL produced them
    | NotExecuted                    // rejected before execution
    | Lost                           // executed and committed, then the promise is rejected
    | Garbled(rows: seq<JsThing>)    // executed and committed, other rows come back

  /** A result row as the driver hands it over. */
  function RowObject(r: C.ResultRow): JsThing {
    Object(map[
      "outcome" := if r.outcome.Null? then JsNull else Text(r.outcome.v),
      "exhausted" := if r.exhausted.Null? then JsNull else Bool(r.exhausted.v)])
  }

  /** The checks `consume` makes on the rows it was given. */
  function ReadRows(rows: seq<JsThing>): ConsumeResult {
    if |rows| != 1 || rows[0].NotAnObject? then SystemFailure
    else
      var outcome := Get(rows[0].fields, "outcome");
      var exhausted := Get(rows[0].fields, "exhausted");
      if outcome == Text("consumed") && exhausted.Bool? then Consumed(exhausted.b)
      else if exhausted != JsNull || !outcome.Text? then SystemFailure
      else
        var denial := Denial(outcome.s);
        if denial.Some? then denial.value else SystemFailure
  }

  /** What one call of the store does to the ledger and what it answers. */
  function StoreConsume(m: Ledger, c: Command, d: Delivery, t0: int, t1: int): Outcome {
    if !ValidCommand(c) || d.NotExecuted? then Outcome(SystemFailure, m)
    else
      var o := Consume(m, c, t0, t1);
      match d
      case Faithful => o
      case Lost => Outcome(SystemFailure, o.ledger)
      case Garbled(rows) => Outcome(ReadRows(rows), o.ledger)
  }

  /** A row the schema allows that has the authority the command states. */
  predicate Stated(e: Entry, c: Command) {
    ValidEntry(e) && SameAuthority(e, c.(expectedMax := None))
  }

  ghost predicate Statable(c: Command) {
    exists e: Entry :: Stated(e, c)
  }

  /** The row a command could be about, issued one second before it expires. */
  function RowStated(c: Command): Entry {
    Entry(c.iss, c.sub, c.aud, c.intentId, c.resourceId, c.policyId, c.grantType, c.maxRedemptions, 0,
      c.exp - 1, c.exp - 1, c.exp, None, false)
  }

  /** Which commands are sent at all: those with an identity, a host time that is a safe non-negative integer and a
      limit, if any, that is a positive safe one, and with the authority of some row that the schema allows. The
      least safe integer passes as an expiry like any other, though no row can expire then. */
  lemma ValidCommandIff(c: Command)
    ensures ValidCommand(c) <==>
            && c.jti != "" && 0 <= c.currentTime <= 9007199254740991
            && (c.expectedMax.Some? ==> 1 <= c.expectedMax.value <= 9007199254740991)
            && Statable(if c.exp == -9007199254740991 then c.(exp := 0) else c)
  {
    var c' := if c.exp == -9007199254740991 then c.(exp := 0) else c;
    if ValidCommand(c) {
      assert Stated(RowStated(c'), c');
    }
  }

  /** A command delivered faithfully is a system failure exactly when it was not sent; then nothing changes. */
  lemma RefusedIff(m: Ledger, c: Command, t0: int, t1: int)
    ensures var o := StoreConsume(m, c, Faithful, t0, t1);
            && (o.result.SystemFailure? <==> !ValidCommand(c))
            && (o.result.SystemFailure? ==> o.ledger == m)
  {
  }

  /** Reading back the row the statement projects recovers the contract result. */
  lemma ProjectedRowIsUnderstood(r: ConsumeResult)
    requires !r.SystemFailure?
    ensures ReadRows([RowObject(C.RowFor(r))]) == r
  {
    var row := RowObject(C.RowFor(r));
    assert "outcome" in row.fields && "exhausted" in row.fields;
  }

  /** What the executor hands back for an evaluation it ran; `None` is a rejected promise. */
  function Delivered(e: C.Evaluation, d: Delivery): Option<seq<JsThing>> {
    match d
    case Faithful => Some(seq(|e.rows|, i requires 0 <= i < |e.rows| => RowObject(e.rows[i])))
    case NotExecuted => None
    case Lost => None
    case Garbled(rows) => Some(rows)
  }

  lemma DeliveryMeetsSpecification(t: R.Table, e: C.Evaluation, c: Command, d: Delivery, t0: int, t1: int)
    requires R.Legal(t) && C.Meets(e, t, c, t0, t1) && ValidCommand(c)
    ensures var rows := Delivered(e, d);
            var r := if rows.None? then SystemFailure else ReadRows(rows.value);
            Outcome(r, R.ToLedger(if d.NotExecuted? then t else e.table))
            == StoreConsume(R.ToLedger(t), c, d, t0, t1)
  {
    var spec := Entitlements.Consume(R.ToLedger(t), c, t0, t1);
    if d.Faithful? {
      ProjectedRowIsUnderstood(spec.result);
      assert Delivered(e, d).value == [RowObject(C.RowFor(spec.result))];
    }
  }

  /** The host's database. */
  class HostDatabase {
    var table: R.Table

    /** The executor: runs the statement at most once; `None` is a rejected promise. */
    method Query(p: C.Params, d: Delivery, clock: nat -> real) returns (rows: Option<seq<JsThing>>)
      modifies this
      ensures rows == Delivered(C.Evaluate(old(table), p, clock), d)
      ensures table == if d.NotExecuted? then old(table) else C.Evaluate(old(table), p, clock).table
    {
      if d.NotExecuted? {
        return None;
      }
      var e := C.Evaluate(table, p, clock);
      table := e.table;
      rows := Delivered(e, d);
    }

    /** `consume` of the store built on this executor. Over any legal table it does to the ledger, and
        answers, exactly what the plain specification says; the table stays legal. */
    method Consume(c: Command, d: Delivery, clock: nat -> real) returns (r: ConsumeResult)
      requires R.Legal(table)
      modifies this
      ensures R.Legal(table)
      ensures Outcome(r, R.ToLedger(table))
           == StoreConsume(R.ToLedger(old(table)), c, d, clock(0).Floor, clock(1).Floor)
    {
      if !ValidCommand(c) {
        return SystemFailure;
      }
      C.StatementMeetsSpecification(table, c, clock);
      ghost var before := table;
      var rows := Query(C.ParamsOf(c), d, clock);
      ghost var e := C.Evaluate(before, C.ParamsOf(c), clock);
      DeliveryMeetsSpecification(before, e, c, d, clock(0).Floor, clock(1).Floor);
      r := if rows.None? then SystemFailure else ReadRows(rows.value);
    }
  }
}
