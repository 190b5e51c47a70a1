/** The access package end to end: a receipt is signed, its row registered, and the token presented again
    and again through verifier, bindings and store (packages/access/src, packages/postgres-store/src). */
module EndToEnd {
  import opened Basics
  import opened ReceiptClaims
  import opened StoreContract
  import opened Entitlements
  import opened Redemption
  import opened PostgresStore
  import opened Conservation
  import opened Tokens
  import D = DemoRefinement

  /** One presentation of a token on a healthy connection: the host's bindings and time, the verifier's
      clock, and the database's two clock readings. */
  datatype Presentation = Presentation(expected: JsThing, verifierNow: int, currentTime: int, t0: int, t1: int)

  function VerifierAt(x: Primitives, v: Verifier, now: int): JsValue -> VerifierAnswer {
    token =>
      var c := VerifyToken(x, token, v, now);
      if c.None? then VerificationError else Verified(Object(ToRecord(c.value)))
  }

  function AttemptOf(x: Primitives, v: Verifier, token: string, p: Presentation): Attempt {
    Attempt(Text(token), p.expected, VerifierAt(x, v, p.verifierNow), Integer(p.currentTime), Faithful, p.t0, p.t1)
  }

  /** The row of receipt `c` after `used` uses. */
  function RowAfter(c: Claims, used: int, revoked: bool): Entry {
    D.EntryFor(c).(count := used, revoked := revoked)
  }

  /** The deployment: key `kid` is trusted, and the verifier expects this issuer and audience. */
  predicate Trusts(v: Verifier, key: Key, kid: string, c: Claims, token: string) {
    && kid in v.keys && v.keys[kid] == key && c.iss == v.issuer && c.aud == v.audience
    && CompactText.Utf8Length(token) <= v.maxTokenSize
  }

  /** Every clock involved is inside the receipt's window (the verifier's with its tolerance). */
  predicate InWindow(v: Verifier, c: Claims, p: Presentation) {
    && c.nbf as real <= p.verifierNow as real + v.clockTolerance
    && c.exp as real > p.verifierNow as real - v.clockTolerance
    && c.nbf <= p.currentTime < c.exp && p.t0 < c.exp && c.nbf <= p.t1
    && SafeInteger(p.currentTime) && p.currentTime >= 0
  }

  lemma CommandIsSameAuthority(k: Command, c: Claims, expected: JsRecord, used: int, revoked: bool)
    requires CommandCarries(k, c, expected)
    ensures SameAuthority(RowAfter(c, used, revoked), k)
  {
  }

  /** A presentation that the verifier accepts and the host asked for reaches the store once, with a command
      of the stored authority; any other does not reach it. */
  lemma ReachesStoreIff(x: Primitives, v: Verifier, key: Key, kid: string, c: Claims, token: string, m: Ledger,
                        p: Presentation, used: int, revoked: bool)
    requires Lawful(x) && kid != "" && Valid(c)
    requires Sign(x, key, kid, Object(ToRecord(c))) == Some(token)
    ensures Reaches(TraceOf(m, AttemptOf(x, v, token, p)).calls, c, p, used, revoked,
              Acceptable(v, key, kid, c, CompactText.Utf8Length(token), p.verifierNow)
              && AsksFor(p.expected, c) && SafeInteger(p.currentTime) && p.currentTime >= 0)
  {
    BuildAcceptsExactly(Object(ToRecord(c)), c);
    SignVerifyRoundTrip(x, key, kid, Object(ToRecord(c)), c, v, p.verifierNow);
    VerifiedReaches(m, AttemptOf(x, v, token, p), c, p, used, revoked,
      Acceptable(v, key, kid, c, CompactText.Utf8Length(token), p.verifierNow));
  }

  lemma VerifiedReaches(m: Ledger, a: Attempt, c: Claims, p: Presentation, used: int, revoked: bool, verified: bool)
    requires Valid(c)
    requires a.expected == p.expected && a.currentTime == Integer(p.currentTime)
    requires a.verifier(a.token) == if verified then Verified(Object(ToRecord(c))) else VerificationError
    ensures Reaches(TraceOf(m, a).calls, c, p, used, revoked,
              verified && AsksFor(p.expected, c) && SafeInteger(p.currentTime) && p.currentTime >= 0)
  {
    var input := Input(a.token, a.expected, Some(a.verifier), Some(StoreOver(m, a)), a.currentTime);
    BindingsMatchIff(p.expected, c);
    StoreCallIsGuarded(input);
    var calls := TraceOf(m, a).calls;
    if verified && AsksFor(p.expected, c) && SafeInteger(p.currentTime) && p.currentTime >= 0 {
      BuildAcceptsExactly(Object(ToRecord(c)), c);
      assert Cleared(input, c);
      CommandIsSameAuthority(calls[0], c, p.expected.fields, used, revoked);
    }
  }

  /** The store was called exactly when `cleared`, and then with the stored authority. */
  predicate Reaches(calls: seq<Command>, c: Claims, p: Presentation, used: int, revoked: bool, cleared: bool) {
    && (calls != [] <==> cleared)
    && (calls != [] ==>
          && calls[0].jti == c.jti && calls[0].currentTime == p.currentTime
          && ValidCommand(calls[0]) && SameAuthority(RowAfter(c, used, revoked), calls[0]))
  }

  predicate StoreInWindow(c: Claims, p: Presentation) {
    c.nbf <= p.currentTime < c.exp && p.t0 < c.exp && c.nbf <= p.t1
  }

  /** The answer and the ledger are those of a use of receipt `c`, taken exactly when `open`. */
  predicate SpendsIff(o: Outcome, m: Ledger, c: Claims, used: int, revoked: bool, open: bool) {
    && (o.result.Consumed? <==> open && !revoked && used < c.maxRedemptions)
    && (o.result.Consumed? ==> (o.result.exhausted <==> used + 1 == c.maxRedemptions))
    && o.ledger == (if o.result.Consumed? then m[c.jti := RowAfter(c, used + 1, revoked)] else m)
    && (open && !revoked && used == c.maxRedemptions ==> o.result == ReceiptExhausted)
    && !o.result.SystemFailure?
  }

  lemma StoreSpendsIff(m: Ledger, k: Command, c: Claims, p: Presentation, used: int, revoked: bool)
    requires c.jti in m && m[c.jti] == RowAfter(c, used, revoked) && ValidCommand(k)
    requires k.jti == c.jti && k.currentTime == p.currentTime && SameAuthority(RowAfter(c, used, revoked), k)
    ensures SpendsIff(StoreConsume(m, k, Faithful, p.t0, p.t1), m, c, used, revoked, StoreInWindow(c, p))
  {
    assert Use(RowAfter(c, used, revoked)) == RowAfter(c, used + 1, revoked);
  }

  /** What the caller sees, and the ledger left behind, are those of a use of receipt `c` taken exactly
      when `open`: success costs exactly one use of exactly that receipt and reports whether it was the
      last, anything else costs nothing, and a spent receipt is denied as such. */
  predicate Presents(r: Redeemed, m': Ledger, m: Ledger, c: Claims, used: int, revoked: bool, open: bool) {
    && (r.Success? <==> open && !revoked && used < c.maxRedemptions)
    && (r.Success? ==> (r.exhausted <==> used + 1 == c.maxRedemptions))
    && m' == (if r.Success? then m[c.jti := RowAfter(c, used + 1, revoked)] else m)
    && (open && !revoked && used == c.maxRedemptions ==> r == ConsumptionDenied(ReceiptExhausted))
  }

  /** The deployment trusts the signer, the host asked for what the receipt grants, and every clock is
      inside the receipt's window. */
  predicate Opens(v: Verifier, key: Key, kid: string, c: Claims, token: string, p: Presentation) {
    Trusts(v, key, kid, c, token) && AsksFor(p.expected, c) && InWindow(v, c, p)
  }

  /** One presentation of a signed receipt whose row exists spends a use exactly when it opens, the receipt
      is not revoked, and uses are left. */
  lemma PresentationSucceedsIff(x: Primitives, v: Verifier, key: Key, kid: string, c: Claims, token: string,
                                m: Ledger, p: Presentation, used: int, revoked: bool)
    requires Lawful(x) && kid != "" && Valid(c)
    requires Sign(x, key, kid, Object(ToRecord(c))) == Some(token)
    requires c.jti in m && m[c.jti] == RowAfter(c, used, revoked)
    ensures var a := AttemptOf(x, v, token, p);
            Presents(TraceOf(m, a).result, LedgerAfter(m, a), m, c, used, revoked, Opens(v, key, kid, c, token, p))
  {
    var a := AttemptOf(x, v, token, p);
    var cleared := Acceptable(v, key, kid, c, CompactText.Utf8Length(token), p.verifierNow)
      && AsksFor(p.expected, c) && SafeInteger(p.currentTime) && p.currentTime >= 0;
    ReachesStoreIff(x, v, key, kid, c, token, m, p, used, revoked);
    OpensIsCleared(v, key, kid, c, token, p);
    PresentedAttempt(m, a, c, p, used, revoked, cleared);
  }

  lemma OpensIsCleared(v: Verifier, key: Key, kid: string, c: Claims, token: string, p: Presentation)
    ensures Opens(v, key, kid, c, token, p) <==>
            && Acceptable(v, key, kid, c, CompactText.Utf8Length(token), p.verifierNow)
            && AsksFor(p.expected, c) && SafeInteger(p.currentTime) && p.currentTime >= 0
            && StoreInWindow(c, p)
  {
  }

  lemma PresentedAttempt(m: Ledger, a: Attempt, c: Claims, p: Presentation, used: int, revoked: bool, cleared: bool)
    requires c.jti in m && m[c.jti] == RowAfter(c, used, revoked)
    requires a.delivery == Faithful && a.t0 == p.t0 && a.t1 == p.t1
    requires Reaches(TraceOf(m, a).calls, c, p, used, revoked, cleared)
    ensures Presents(TraceOf(m, a).result, LedgerAfter(m, a), m, c, used, revoked, cleared && StoreInWindow(c, p))
  {
    TraceIsMappedAnswer(m, a);
    var calls := TraceOf(m, a).calls;
    if calls != [] {
      StoreSpendsIff(m, calls[0], c, p, used, revoked);
    }
  }

  // ----- every answer -----

  /** What the store says of receipt `c` after `used` uses, to a command of its authority. */
  function Verdict(c: Claims, p: Presentation, used: int, revoked: bool): Redeemed {
    if revoked then ConsumptionDenied(ReceiptRevoked)
    else if c.exp <= p.currentTime || c.exp <= p.t0 then ConsumptionDenied(ReceiptExpired)
    else if p.currentTime < c.nbf || p.t1 < c.nbf then ConsumptionDenied(AuthorityMismatch)
    else if used >= c.maxRedemptions then ConsumptionDenied(ReceiptExhausted)
    else Success(used + 1 == c.maxRedemptions)
  }

  lemma {:induction false} StoreVerdict(m: Ledger, k: Command, c: Claims, p: Presentation, used: int, revoked: bool)
    requires c.jti in m && m[c.jti] == RowAfter(c, used, revoked) && ValidCommand(k)
    requires k.jti == c.jti && k.currentTime == p.currentTime && SameAuthority(RowAfter(c, used, revoked), k)
    ensures MapResult(StoreConsume(m, k, Faithful, p.t0, p.t1).result) == Verdict(c, p, used, revoked)
  {
  }

  lemma {:induction false} AnswerOfAttempt(m: Ledger, a: Attempt, c: Claims, p: Presentation, verified: bool)
    requires Valid(c) && a.expected == p.expected && a.currentTime == Integer(p.currentTime)
    requires a.verifier(a.token) == if verified then Verified(Object(ToRecord(c))) else VerificationError
    ensures var t := TraceOf(m, a);
      && (!(0 <= p.currentTime <= MAX_SAFE_INTEGER) ==> t.result == Failure)
      && (0 <= p.currentTime <= MAX_SAFE_INTEGER && !verified ==> t.result == VerificationDenied)
      && (0 <= p.currentTime <= MAX_SAFE_INTEGER && verified && !AsksFor(p.expected, c) ==> t.result == BindingDenied)
  {
    BindingsMatchIff(p.expected, c);
  }

  lemma {:induction false} AttemptAnswers(m: Ledger, a: Attempt, c: Claims, p: Presentation, used: int, revoked: bool,
                                          verified: bool)
    requires Valid(c) && c.jti in m && m[c.jti] == RowAfter(c, used, revoked)
    requires a.expected == p.expected && a.currentTime == Integer(p.currentTime)
    requires a.delivery == Faithful && a.t0 == p.t0 && a.t1 == p.t1
    requires a.verifier(a.token) == if verified then Verified(Object(ToRecord(c))) else VerificationError
    ensures TraceOf(m, a).result
         == if !(0 <= p.currentTime <= MAX_SAFE_INTEGER) then Failure
            else if !verified then VerificationDenied
            else if !AsksFor(p.expected, c) then BindingDenied
            else Verdict(c, p, used, revoked)
  {
    AnswerOfAttempt(m, a, c, p, verified);
    VerifiedReaches(m, a, c, p, used, revoked, verified);
    TraceIsMappedAnswer(m, a);
    if TraceOf(m, a).calls != [] {
      StoreVerdict(m, TraceOf(m, a).calls[0], c, p, used, revoked);
    }
  }

  /** Every answer to a presentation of a signed receipt whose row exists, in the order in which the stages look:
      an unusable host time fails; a token the verifier cannot accept is denied verification; bindings that do not
      ask for what it grants are denied; then the row decides, revocation before expiry before not-before before
      exhaustion. */
  lemma {:induction false} PresentationAnswers(x: Primitives, v: Verifier, key: Key, kid: string, c: Claims,
                                               token: string, m: Ledger, p: Presentation, used: int, revoked: bool)
    requires Lawful(x) && kid != "" && Valid(c)
    requires Sign(x, key, kid, Object(ToRecord(c))) == Some(token)
    requires c.jti in m && m[c.jti] == RowAfter(c, used, revoked)
    ensures TraceOf(m, AttemptOf(x, v, token, p)).result
         == if !(0 <= p.currentTime <= MAX_SAFE_INTEGER) then Failure
            else if !Acceptable(v, key, kid, c, CompactText.Utf8Length(token), p.verifierNow) then VerificationDenied
            else if !AsksFor(p.expected, c) then BindingDenied
            else Verdict(c, p, used, revoked)
  {
    BuildAcceptsExactly(Object(ToRecord(c)), c);
    SignVerifyRoundTrip(x, key, kid, Object(ToRecord(c)), c, v, p.verifierNow);
    AttemptAnswers(m, AttemptOf(x, v, token, p), c, p, used, revoked,
      Acceptable(v, key, kid, c, CompactText.Utf8Length(token), p.verifierNow));
  }

  // ----- an executor that misreports -----

  function Asking(c: Claims): JsThing {
    Object(map["sub" := Text(c.sub), "resource_id" := Text(c.resourceId),
               "policy_id" := Text(c.policyId), "intent_id" := Text(c.intentId)])
  }

  /** A verified attempt for receipt `c`, whose executor hands back `row` instead of the statement's own. */
  function Misreported(c: Claims, now: int, row: JsRecord): Attempt {
    Attempt(Undefined, Asking(c), _ => Verified(Object(ToRecord(c))), Integer(now), Garbled([Object(row)]), now, now)
  }

  lemma MisreportedReaches(m: Ledger, c: Claims, now: int, row: JsRecord, used: int)
    requires Valid(c) && SafeInteger(now) && now >= 0
    ensures var calls := TraceOf(m, Misreported(c, now, row)).calls;
            Reaches(calls, c, Presentation(Asking(c), now, now, now, now), used, false, true)
  {
    var f := Asking(c).fields;
    assert "sub" in f && "resource_id" in f && "policy_id" in f && "intent_id" in f && "max_redemptions" !in f;
    VerifiedReaches(m, Misreported(c, now, row), c, Presentation(Asking(c), now, now, now, now), used, false, true);
  }

  function InventedRow(): JsRecord {
    map["outcome" := Text("consumed"), "exhausted" := Bool(false)]
  }

  function DenialRow(): JsRecord {
    map["outcome" := Text("receipt_revoked"), "exhausted" := JsNull]
  }

  lemma RowsSay()
    ensures ReadRows([Object(InventedRow())]) == Consumed(false)
    ensures ReadRows([Object(DenialRow())]) == ReceiptRevoked
  {
    assert "outcome" in InventedRow() && "exhausted" in InventedRow();
    assert "outcome" in DenialRow() && "exhausted" in DenialRow();
  }

  /** The caller is told what the row says; the ledger does what the statement does. */
  lemma MisreportedOutcome(m: Ledger, c: Claims, now: int, row: JsRecord, used: nat)
    requires Valid(c) && c.nbf <= now < c.exp && now >= 0 && used <= c.maxRedemptions
    ensures var a := Misreported(c, now, row);
      && Addresses(Spent(m, c, used), a, c.jti)
      && TraceOf(Spent(m, c, used), a).result == MapResult(ReadRows([Object(row)]))
      && LedgerAfter(Spent(m, c, used), a) == Spent(m, c, NextUsed(c, used))
  {
    var a := Misreported(c, now, row);
    MisreportedReaches(Spent(m, c, used), c, now, row, used);
    TraceIsMappedAnswer(Spent(m, c, used), a);
    MisreportingStore(TraceOf(Spent(m, c, used), a).calls[0], m, c, now, row, used);
  }

  lemma MisreportingStore(k: Command, m: Ledger, c: Claims, now: int, row: JsRecord, used: nat)
    requires c.nbf <= now < c.exp && used <= c.maxRedemptions && ValidCommand(k)
    requires k.jti == c.jti && k.currentTime == now && SameAuthority(RowAfter(c, used, false), k)
    ensures StoreConsume(Spent(m, c, used), k, Garbled([Object(row)]), now, now)
         == Outcome(ReadRows([Object(row)]), Spent(m, c, NextUsed(c, used)))
  {
    StoreSpendsIff(Spent(m, c, used), k, c, Presentation(Asking(c), now, now, now, now), used, false);
    assert Spent(m, c, used)[c.jti := RowAfter(c, used + 1, false)] == Spent(m, c, used + 1);
  }

  lemma Misbalanced(m: Ledger, a: Attempt, jti: string)
    requires Addresses(m, a, jti)
    requires var r := TraceOf(m, a).result;
             var moved := CountOf(LedgerAfter(m, a), jti) - CountOf(m, jti);
             (r.Success? && moved == 0) || (r.ConsumptionDenied? && moved == 1)
    ensures !Balanced(m, a, jti)
  {
  }

  /** Why truthfulness matters, in every valid ledger and for every receipt in it that is inside its window.
      When it is spent, an invented row makes `redeemAccessReceipt` report a success with no use committed;
      before that, an untrue denial row makes it report a denial although the use was committed. */
  lemma MisreportedRowsAreBelieved(m: Ledger, c: Claims, now: int, used: nat)
    requires ValidLedger(m) && Valid(c) && c.nbf <= now < c.exp && now >= 0 && used < c.maxRedemptions
    ensures var spent, a := Spent(m, c, c.maxRedemptions), Misreported(c, now, InventedRow());
      && ValidLedger(spent) && TraceOf(spent, a).result == Success(false) && LedgerAfter(spent, a) == spent
      && !Balanced(spent, a, c.jti)
    ensures var left, a := Spent(m, c, used), Misreported(c, now, DenialRow());
      && ValidLedger(left) && TraceOf(left, a).result == ConsumptionDenied(ReceiptRevoked)
      && LedgerAfter(left, a) == Spent(m, c, used + 1)
      && !Balanced(left, a, c.jti)
  {
    RowsSay();
    RegisteredRow(m, c, c.maxRedemptions);
    MisreportedOutcome(m, c, now, InventedRow(), c.maxRedemptions);
    Misbalanced(Spent(m, c, c.maxRedemptions), Misreported(c, now, InventedRow()), c.jti);
    RegisteredRow(m, c, used);
    MisreportedOutcome(m, c, now, DenialRow(), used);
    Misbalanced(Spent(m, c, used), Misreported(c, now, DenialRow()), c.jti);
  }

  // ----- presenting a token again and again -----

  type Answering = (Ledger, Presentation) -> (Redeemed, Ledger)

  /** Presenting `token` to this deployment. */
  function Presenting(x: Primitives, v: Verifier, token: string): Answering {
    (m: Ledger, p: Presentation) =>
      var a := AttemptOf(x, v, token, p);
      (TraceOf(m, a).result, LedgerAfter(m, a))
  }

  /** The answers to one presentation after another, and the ledger they leave. */
  function Replay(step: Answering, m: Ledger, ps: seq<Presentation>): (seq<Redeemed>, Ledger)
    decreases |ps|
  {
    if ps == [] then ([], m)
    else
      var (first, next) := step(m, ps[0]);
      var (rest, end) := Replay(step, next, ps[1..]);
      ([first] + rest, end)
  }

  /** A receipt of which `used` uses are spent pays out the rest: each success but the last is unflagged,
      and whatever follows is denied as exhausted. */
  predicate PaysOut(results: seq<Redeemed>, used: nat, max: int) {
    forall i | 0 <= i < |results| ::
      results[i] == if used + i < max then Success(used + i + 1 == max) else ConsumptionDenied(ReceiptExhausted)
  }

  lemma PaysOutFrom(first: Redeemed, rest: seq<Redeemed>, used: nat, max: int)
    requires used <= max
    requires first == if used < max then Success(used + 1 == max) else ConsumptionDenied(ReceiptExhausted)
    requires PaysOut(rest, if used < max then used + 1 else used, max)
    ensures PaysOut([first] + rest, used, max)
  {
    var results := [first] + rest;
    forall i | 0 <= i < |results|
      ensures results[i] ==
        if used + i < max then Success(used + i + 1 == max) else ConsumptionDenied(ReceiptExhausted)
    {
      if i > 0 {
        assert results[i] == rest[i - 1];
      }
    }
  }

  /** The ledger `m` with `used` uses of receipt `c` spent. */
  function Spent(m: Ledger, c: Claims, used: nat): Ledger {
    m[c.jti := RowAfter(c, used, false)]
  }

  /** The answer to the next use of a receipt of which `used` uses are spent. */
  function NextAnswer(c: Claims, used: nat): Redeemed {
    if used < c.maxRedemptions then Success(used + 1 == c.maxRedemptions) else ConsumptionDenied(ReceiptExhausted)
  }

  function NextUsed(c: Claims, used: nat): nat {
    if used < c.maxRedemptions then used + 1 else used
  }

  /** With `used` uses spent, `answer` spends the next one, or says that there is none. */
  predicate PaysAt(answer: (Redeemed, Ledger), m: Ledger, c: Claims, used: nat) {
    answer == (NextAnswer(c, used), Spent(m, c, NextUsed(c, used)))
  }

  ghost predicate Pays(step: Answering, m: Ledger, c: Claims, p: Presentation) {
    forall used: nat | used <= c.maxRedemptions :: PaysAt(step(Spent(m, c, used), p), m, c, used)
  }

  /** Starting with `used` uses spent, `n` presentations got these answers and left this ledger. */
  predicate PaysOff(end: (seq<Redeemed>, Ledger), m: Ledger, c: Claims, used: nat, n: nat) {
    && used <= c.maxRedemptions && |end.0| == n
    && PaysOut(end.0, used, c.maxRedemptions)
    && end.1 == Spent(m, c, Min(used + n, c.maxRedemptions))
  }

  lemma PaysOffOneMore(rest: (seq<Redeemed>, Ledger), m: Ledger, c: Claims, used: nat, n: nat)
    requires used <= c.maxRedemptions
    requires PaysOff(rest, m, c, NextUsed(c, used), n)
    ensures PaysOff(([NextAnswer(c, used)] + rest.0, rest.1), m, c, used, n + 1)
  {
    PaysOutFrom(NextAnswer(c, used), rest.0, used, c.maxRedemptions);
  }

  lemma PaysNext(step: Answering, m: Ledger, c: Claims, used: nat, ps: seq<Presentation>)
    requires used <= c.maxRedemptions && ps != [] && AllPay(step, m, c, ps)
    ensures step(Spent(m, c, used), ps[0]) == (NextAnswer(c, used), Spent(m, c, NextUsed(c, used)))
    ensures AllPay(step, m, c, ps[1..])
  {
    assert Pays(step, m, c, ps[0]);
    assert PaysAt(step(Spent(m, c, used), ps[0]), m, c, used);
    forall i | 0 <= i < |ps[1..]|
      ensures Pays(step, m, c, ps[1..][i])
    {
      assert ps[1..][i] == ps[i + 1];
    }
  }

  lemma ReplayStep(step: Answering, s: Ledger, ps: seq<Presentation>, first: Redeemed, s': Ledger)
    requires ps != [] && step(s, ps[0]) == (first, s')
    ensures var rest := Replay(step, s', ps[1..]);
            Replay(step, s, ps) == ([first] + rest.0, rest.1)
  {
  }

  lemma {:induction false} PayingPresentations(step: Answering, m: Ledger, c: Claims, used: nat, ps: seq<Presentation>)
    requires used <= c.maxRedemptions
    requires AllPay(step, m, c, ps)
    ensures PaysOff(Replay(step, Spent(m, c, used), ps), m, c, used, |ps|)
    decreases |ps|
  {
    if ps != [] {
      var used' := NextUsed(c, used);
      PaysNext(step, m, c, used, ps);
      PayingPresentations(step, m, c, used', ps[1..]);
      ReplayStep(step, Spent(m, c, used), ps, NextAnswer(c, used), Spent(m, c, used'));
      PaysOffOneMore(Replay(step, Spent(m, c, used'), ps[1..]), m, c, used, |ps| - 1);
    }
  }

  lemma OpenPresentationPays(x: Primitives, v: Verifier, key: Key, kid: string, c: Claims, token: string,
                             m: Ledger, p: Presentation)
    requires Lawful(x) && kid != "" && Valid(c)
    requires Sign(x, key, kid, Object(ToRecord(c))) == Some(token) && Opens(v, key, kid, c, token, p)
    ensures Pays(Presenting(x, v, token), m, c, p)
  {
    forall used: nat | used <= c.maxRedemptions
      ensures PaysAt(Presenting(x, v, token)(Spent(m, c, used), p), m, c, used)
    {
      PresentationSucceedsIff(x, v, key, kid, c, token, Spent(m, c, used), p, used, false);
      var a := AttemptOf(x, v, token, p);
      PresentedPays(TraceOf(Spent(m, c, used), a).result, LedgerAfter(Spent(m, c, used), a), m, c, used);
    }
  }

  lemma PresentedPays(r: Redeemed, after: Ledger, m: Ledger, c: Claims, used: nat)
    requires used <= c.maxRedemptions
    requires Presents(r, after, Spent(m, c, used), c, used, false, true)
    ensures PaysAt((r, after), m, c, used)
  {
    assert Spent(m, c, used)[c.jti := RowAfter(c, used + 1, false)] == Spent(m, c, used + 1);
  }

  predicate AllOpen(v: Verifier, key: Key, kid: string, c: Claims, token: string, ps: seq<Presentation>) {
    forall i | 0 <= i < |ps| :: Opens(v, key, kid, c, token, ps[i])
  }

  ghost predicate AllPay(step: Answering, m: Ledger, c: Claims, ps: seq<Presentation>) {
    forall i | 0 <= i < |ps| :: Pays(step, m, c, ps[i])
  }

  lemma OpenPresentationsPay(x: Primitives, v: Verifier, key: Key, kid: string, c: Claims, token: string,
                             m: Ledger, ps: seq<Presentation>)
    requires Lawful(x) && kid != "" && Valid(c)
    requires Sign(x, key, kid, Object(ToRecord(c))) == Some(token)
    requires AllOpen(v, key, kid, c, token, ps)
    ensures AllPay(Presenting(x, v, token), m, c, ps)
  {
    forall i | 0 <= i < |ps|
      ensures Pays(Presenting(x, v, token), m, c, ps[i])
    {
      OpenPresentationPays(x, v, key, kid, c, token, m, ps[i]);
    }
  }

  /** Registering signed claims is legal, and is a row with no use spent. */
  lemma RegisteredRow(m: Ledger, c: Claims, used: nat)
    requires Valid(c) && used <= c.maxRedemptions
    ensures m[c.jti := D.EntryFor(c)] == Spent(m, c, 0) && (ValidLedger(m) ==> ValidLedger(Spent(m, c, used)))
  {
    D.ClaimsFitTheSchema(c);
    assert ValidEntry(RowAfter(c, used, false));
  }

  /** A receipt is worth exactly its limit: presented any number of times inside its window, a token signed
      for a registered receipt succeeds until its uses are spent, the last success alone is flagged
      exhausted, every later presentation is denied as exhausted, and the row counts the successes.
      Registering the signed claims is legal, and is such a row with no use spent. */
  lemma ReceiptIsWorthItsLimit(x: Primitives, v: Verifier, key: Key, kid: string, c: Claims, token: string,
                               m: Ledger, used: nat, ps: seq<Presentation>)
    requires Lawful(x) && kid != "" && Valid(c) && used <= c.maxRedemptions
    requires Sign(x, key, kid, Object(ToRecord(c))) == Some(token)
    requires AllOpen(v, key, kid, c, token, ps)
    ensures PaysOff(Replay(Presenting(x, v, token), Spent(m, c, used), ps), m, c, used, |ps|)
    ensures m[c.jti := D.EntryFor(c)] == Spent(m, c, 0) && (ValidLedger(m) ==> ValidLedger(Spent(m, c, used)))
  {
    RegisteredRow(m, c, used);
    OpenPresentationsPay(x, v, key, kid, c, token, m, ps);
    PayingPresentations(Presenting(x, v, token), m, c, used, ps);
  }

  function Min(a: nat, b: nat): nat {
    if a <= b then a else b
  }
}
