# Bounded consumption of access receipts

FiberLatch sells access: a payment becomes a signed receipt, and a receipt may be used a stated number of
times. This project models how a receipt is issued, verified and used up, and proves that the bound holds
however requests, transactions and failures interleave. It covers both generations of the code:

* the access package and its stores: canonical claims, signing and verification in JWS compact
  serialization, binding checks, the redemption pipeline, the PostgreSQL consume statement and the in-memory
  store of the paid-resource example;
* the legacy service: payment intents, reconciliation with a Fiber node, receipt issuing, and redemption by
  an optimistic compare-and-swap on a stored row.

The consume statement is modelled twice. `ConsumeStatement` evaluates it as the relational pipeline it is,
with SQL nulls, three-valued conditions and a clock read afresh by every CASE arm, and proves it equal to a
plain lookup, verdict and increment (`Entitlements`). `StoreTransactions` takes it apart into lock, judge and
update, and interleaves those steps over any number of transactions that commit or roll back; `Revocations` and
`StoreScripts` say what comes of it in terms of the events and answers alone. The demo store
is a class over a mutable map, refined against the statement. The legacy service is a class over four tables
(`LegacyService`), each method proved equal to a transaction or request on a database value (`LegacyDb`);
`LegacyRuns` interleaves every single database call of redemption and verification with every other request,
with creation, with reconciliation and with crashes. What each legacy operation leaves behind, column by column, is
written out in `LegacyEffects`, `LegacyRedemption` and `PassMeaning`.

Files, by theme:

| theme | files |
|---|---|
| shared values | `Basics`, `Claims`, `StoreContract`, `JsText` |
| what using a receipt means | `Entitlements` |
| PostgreSQL store | `ConsumeStatement`, `PostgresStore`, `Conservation`, `StoreTransactions`, `StoreScripts`, `Revocations`, `StoreAutocommit`, `HostView` |
| demo store | `DemoStore` |
| access package | `Tokens`, `LawfulPrimitives`, `Redemption`, `EndToEnd` |
| legacy service | `LegacyDb`, `LegacyLifecycle`, `LegacyEffects`, `LegacyVerdicts`, `LegacyRuns`, `LegacyAudit`, `LegacyPayments`, `LegacyRedemption`, `Reconciliation`, `PassMeaning`, `Resumption`, `BusyReconciliation`, `LegacyService` |
| Fiber codecs | `FiberStatus`, `RpcIntegers` |

## Conventions

* A string of the source is a `string`; JavaScript numbers that must be safe integers are `int` with the bound
  written out; the SQL `clock_timestamp()` is a `real` and its floor is taken where the statement takes it.
* Clocks, random identities, Fiber answers, verifier behaviour and executor behaviour are parameters, so every
  result holds for all of them, including throwing, lost and malformed ones.
* A thrown error is a result (`None`, `Aborted`, `Failure`, a `false` out-parameter), never a precondition.
* A legacy row's generated key is its position in its table; the order of intents is their creation order.
* Base64url JSON and the signature scheme are a `Primitives` value that is `Lawful`: encoding is reversible
  and yields base64url text, signatures can be spelled and read back, a signature checks under a key exactly when
  that key made it, and different keys never sign alike. Such values exist (`LawfulPrimitives.LawfulExists`).

## Where the code needs a condition

Three natural claims are false of the code as it stands. For each there is a concrete witness, and beside it the
exact condition under which the claim holds.

* The demo store is not the PostgreSQL statement: it never looks at the not-before time
  (`DemoRefinement.DemoIgnoresNotBefore`). The two agree exactly when no command with the authority of a receipt
  that is neither revoked nor expired comes before that receipt's not-before time
  (`DemoRefinement.DemoRefinesStatement`).
* Committed uses are not always the reported successes plus the failures that hide one: whatever single
  well-formed row an executor hands back is believed, and a spent receipt is then reported used, or a used one
  denied (`EndToEnd.MisreportedRowsAreBelieved`). They are, at every moment of a run, exactly when each store call
  for the receipt met an executor whose rows were the statement's own, or malformed, or said `consumed` exactly
  when the statement consumed (`Conservation.UsesAreConservedIff`), and the same over interleaved transactions
  (`HostView.HostsConserveIff`). The bound on successes needs less: no invented use
  (`Conservation.SuccessesAreBounded`, `HostView.ToldUsesAreBounded`).
* An idempotency key makes creation repeatable exactly when it is not blank
  (`LegacyLifecycle.SharedKeyCreatesOnceIff`). A blank key is trimmed to the empty string, skipped by the lookup,
  and stored under the unique index, so every further such creation fails. `docs/state-machine.md:83` and
  `docs/api-contract.md:49` do not mention this; the model follows the code.

Two more lemmas show that a safeguard the code does have is needed.

* The mismatch arm of the consume statement is an authority check exactly on rows whose nine authority columns
  are not null (`ConsumeStatement.ArmDecidesIff`), which the NOT NULL constraints ensure; a null subject would
  be admitted for any subject (`ConsumeStatement.NullSubjectIsAdmitted`).
* The legacy service samples its clock before it checks the signature. Sampled one millisecond after the check,
  an honest token could meet the stored-expiry denial (`LegacyRedemption.LateSampleMeetsStoredExpiry`); sampled
  before, it cannot (`LegacyRedemption.HonestTokenNeverStoredExpired`).

## Model

| member | source | states |
|---|---|---|
| StoreTransactions.ConsumptionIsBounded | packages/postgres-store/src/index.ts:15-49 | over every interleaving of any number of transactions, each receipt keeps 0 <= committed count <= lock holder's working count <= maximum <= 2^53-1; committed count minus the count first stored is exactly the number of consumed answers in committed transactions; `concurrency_conflict` is never answered |
| StoreTransactions.ExhaustingUseIsLast | packages/postgres-store/src/index.ts:33-45 | among the committed answers for a receipt at most one is flagged exhausted, it is the last consumed one, and it is exactly the use that fills the last slot |
| StoreTransactions.StepsAreTheStatement | packages/postgres-store/src/index.ts:13-49 | lock, judge, update with nothing between them do to a transaction's view of the rows, and answer, exactly what the statement's specification says |
| StoreTransactions.UncommittedLeavesNoTrace | packages/postgres-store/src/index.ts:13-14 | a transaction that never commits can be erased from any interleaving: every other step is still enabled and leads to the same rows, locks, answers and history |
| Revocations.FlagsAreRevocations | packages/postgres-store/src/index.ts:15-49 | over every interleaving a committed row is revoked exactly when it was registered revoked or a transaction revoked it and then committed, and a transaction's own copy exactly when that or it has revoked the row itself since it began; both read off the events alone |
| Revocations.NoUseAfterRevocation | packages/postgres-store/src/index.ts:25 | once a receipt is revoked by a commit, then after any further events its row and every copy of it are revoked, no open transaction holds a `consumed` answer for it, and the committed history gains none |
| Revocations.RevocationSticks | packages/postgres-store/README.md:201-210 | the same said of the events themselves: a transaction revokes a receipt and commits, with anything before, in between and after |
| Revocations.RollbackForgets | packages/postgres-store/README.md:201-210 | a transaction revokes a receipt and rolls back, with anything in between: the committed row is what it was, flag included |
| StoreScripts.StatementsAreAnsweredOnce | packages/postgres-store/src/index.ts:13-49 | over every interleaving the events of a transaction are whole statements and revocations between a beginning and an end, so nothing is committed inside a statement and no row is revoked between its judgement and its update; the committed answers are, in order, exactly one for each statement of each committed transaction, about the receipt it asked for |
| StoreScripts.EnabledIff | packages/postgres-store/src/index.ts:13-18 | a transaction's next event is possible exactly when its script so far allows it and, where it takes a row, nobody else holds that row; so nothing blocks but a row lock, and rollback never does |
| StoreAutocommit.AutocommitIsTheStatement | packages/postgres-store/src/index.ts:13-49 | a statement in a transaction of its own, whatever else is open while its row is not locked, goes through, turns the committed rows into what the specification says, and adds exactly that answer to the history |
| StoreAutocommit.RevocationTakes | packages/postgres-store/README.md:201-210 | a revocation in a transaction of its own sets the flag of that row and changes nothing else |
| StoreAutocommit.RegistrationTakes | packages/postgres-store/sql/001_access_receipts.sql:3-25 | registering goes through exactly for a new, non-empty identity and a row that meets the constraints, and stores exactly that row |
| StoreAutocommit.TermsStay | packages/postgres-store/src/index.ts:33-39 | over any further run a receipt keeps every column but its count and its revocation, in its row and in every copy of it |
| StoreTransactions.StepKeepsInv | packages/postgres-store/src/index.ts:15-39 | each step keeps row validity, exclusive locks, per-transaction and committed use counts, and right exhausted flags (what revocations do is stated by `Revocations`) |
| StoreTransactions.RunKeepsInv | packages/postgres-store/src/index.ts:15-39 | the same over every run |
| ConsumeStatement.StatementMeetsSpecification | packages/postgres-store/src/index.ts:15-49 | over any table meeting the schema and for any command the CTE pipeline returns exactly one row; it and the next table equal lookup, verdict, increment; the table stays legal and no other row changes |
| ConsumeStatement.NoArmUndecided | packages/postgres-store/src/index.ts:19-32 | with the schema in force no CASE arm is left unknown by a null, and the mismatch arm holds exactly when the authority differs |
| ConsumeStatement.ArmDecidesIff | packages/postgres-store/src/index.ts:19-23 | the mismatch arm catches every command that disagrees with a row, and no other, exactly when none of the row's nine authority columns is null |
| ConsumeStatement.NullSubjectIsAdmitted | packages/postgres-store/src/index.ts:19-23 | a row with a null subject, which the NOT NULL constraint keeps out, passes every CHECK and would be admitted for a command naming any subject |
| ConsumeStatement.OutcomeIsJudgement | packages/postgres-store/src/index.ts:18-32 | the decision column spells the plain verdict, `admit` standing for an admitted use |
| ConsumeStatement.UpdateAddressed | packages/postgres-store/src/index.ts:33-39 | the guarded update changes the addressed row and only it, exactly when it is admitted and below its limit, and returns one row exactly then |
| ConsumeStatement.ConflictIff | packages/postgres-store/src/index.ts:34-48 | over any table in which one row carries the identity, whatever its other columns, `concurrency_conflict` is projected exactly when that row is admitted without a count or a limit, and then nothing is written |
| ReceiptRelation.SchemaIsEntryValidity | packages/postgres-store/sql/001_access_receipts.sql:3-25 | a row satisfies the NOT NULL and CHECK constraints exactly when it is a valid receipt entry |
| ReceiptRelation.LedgerAt | packages/postgres-store/sql/001_access_receipts.sql:4 | the ledger of a legal table holds exactly its rows, each under its identity |
| Entitlements.AdmissionIff | packages/postgres-store/src/index.ts:18-39 | a use is admitted exactly when authority agrees, not revoked, both clocks are in the half-open window and uses are left; it adds one to that receipt alone and is flagged exactly when it fills the last slot |
| PostgresStore.DeliveryMeetsSpecification | packages/postgres-store/src/index.ts:70-97 | what the store makes of any delivery of an evaluation that meets the specification, and the ledger left behind, are those of the store's specification |
| PostgresStore.HostDatabase.Consume | packages/postgres-store/src/index.ts:67-98 | over any legal table, any command and any executor behaviour, `consume` changes and answers exactly what the specification of the store says; the table stays legal |
| PostgresStore.ProjectedRowIsUnderstood | packages/postgres-store/src/index.ts:78-93 | reading the row the statement projects recovers the contract result |
| PostgresStore.ValidCommandIff | packages/postgres-store/src/index.ts:51-62 | a command is sent exactly when it has an identity, a safe non-negative time, a positive safe limit if any, and the authority of some row the schema allows (the least safe integer as an expiry included) |
| PostgresStore.RefusedIff | packages/postgres-store/src/index.ts:67-98 | a faithfully delivered command is a system failure exactly when it was not sent, and then nothing changes |
| Conservation.UsesAreConservedIff | packages/postgres-store/src/index.ts:67-98 | over any run with any re-signed tokens and any executor, at every moment committed uses of a receipt are its successes plus the system failures that followed a committed use, exactly when every attempt on it met a truthful executor |
| Conservation.BalancedIff | packages/access/src/redeem-access-receipt.ts:153-228 | the same for one attempt; and it reports no more than it used exactly when no use was invented for it |
| Conservation.SuccessesAreBounded | packages/postgres-store/src/index.ts:67-98 | as long as no use is invented, and whatever denials hide uses, successes are at most the committed uses, and these at most what the stored maximum left |
| EndToEnd.MisreportedRowsAreBelieved | packages/postgres-store/src/index.ts:78-93 | in every valid ledger, for every receipt in it and inside its window: spent, an invented row makes redemption report success with no use committed; with uses left, an untrue denial row makes it report a denial although the use was committed |
| HostView.HostsAccountForUses | packages/postgres-store/src/index.ts:15-49 | over every interleaving of transactions that commit or roll back, and however answers travel, a receipt's committed count has moved by the uses told in committed transactions, plus the lost ones, plus those told as denials, less the invented ones |
| HostView.HostsConserveIff | packages/postgres-store/src/index.ts:67-98 | over the same interleavings, at every moment, in the committed history and in every open transaction, the uses made of a receipt are those told plus those whose answer was lost, exactly when every update about that receipt met rows that are the statement's own, or malformed, or say `consumed` exactly when it consumed |
| HostView.ToldUsesAreBounded | packages/postgres-store/src/index.ts:67-98 | as long as no use is invented among the committed answers about a receipt, the successes told of it in committed transactions are at most the uses committed and at most what the maximum left |
| HostView.TruthfulCommitsConserve | packages/postgres-store/src/index.ts:67-98 | if every committed answer about a receipt travelled truthfully, its committed uses are the successes told in committed transactions plus the uses whose answer was lost, whatever was told in others |
| Conservation.StoreCallEffect | packages/postgres-store/src/index.ts:67-98 | whatever the executor does, one store call commits at most one use, of the addressed receipt, exactly when the statement ran and consumed |
| DemoStore.DemoAccessReceiptStore.RegisterIssuedReceipt | examples/paid-resource/src/paid-resource-service.mjs:73-85 | refuses a known identity and changes nothing, otherwise adds a fresh record |
| DemoStore.DemoAccessReceiptStore.Consume | examples/paid-resource/src/paid-resource-service.mjs:87-124 | answers and updates the record as the store's step function says, and counts the call |
| DemoStore.DemoAccessReceiptStore.Revoke | examples/paid-resource/src/paid-resource-service.mjs:126-131 | marks a known receipt revoked and changes nothing else |
| DemoRefinement.DemoRefinesStatement | examples/paid-resource/src/paid-resource-service.mjs:69-131 | for every sequence of registrations, revocations and consume commands, over any coupled legal table and with the database clock at host time, demo store and statement give the same observations exactly when no command with the authority of a receipt that is neither revoked nor expired comes before its not-before time |
| DemoRefinement.Drive | examples/paid-resource/src/paid-resource-service.mjs:69-131 | the demo run of that refinement is what the store object answers, call after call |
| DemoRefinement.TableStepIsLedgerStep | packages/postgres-store/src/index.ts:15-49 | inserting, revoking and consuming on a legal table observe and do what the ledger operations say, and keep the table legal |
| DemoRefinement.StatementAgreesIff | examples/paid-resource/src/paid-resource-service.mjs:87-124 | over any coupled legal table, with the database clock at host time, the statement's one row is the demo's answer exactly when the command is not too early in that sense, and then table and records stay coupled |
| DemoRefinement.ConsumeAgreesIff | examples/paid-resource/src/paid-resource-service.mjs:87-124 | the same for the statement's specification, under a coupling in which the demo's flag equals count >= limit |
| DemoRefinement.DemoIgnoresNotBefore | examples/paid-resource/src/paid-resource-service.mjs:110-123 | a receipt issued for the future that the demo consumes and the statement refuses |
| DemoRefinement.ClaimsFitTheSchema | packages/postgres-store/sql/001_access_receipts.sql:3-25 | canonical claims always satisfy the table's constraints |
| ReceiptClaims.BuildAcceptsExactly | packages/access/src/receipt-claims.ts:39-114 | the builder accepts a record exactly when it carries the thirteen members of a valid claim set, and returns that claim set |
| ReceiptClaims.BuildIsProjection | packages/access/src/receipt-claims.ts:39-114 | its result is valid and a fixed point, and members outside the thirteen never change it |
| Redemption.StoreCallIsGuarded | packages/access/src/redeem-access-receipt.ts:165-228 | for any verifier and store, throwing and malformed ones included: at most one store call, exactly when verified canonical claims match the bindings, with a command that states the verified authority and satisfies the PostgreSQL store's command check |
| Redemption.AnswersIff | packages/access/src/redeem-access-receipt.ts:165-228 | every answer on a well-formed input: verification denied exactly when the verifier said so; binding denied exactly when its claims are not canonical or the host did not ask for what they grant; the verifier's own error fails; otherwise, and only then, one store call, and success, each of the six denials, or a failure in every remaining case, exactly as it answered |
| Redemption.IllFormedFails | packages/access/src/redeem-access-receipt.ts:165-186 | on an ill-formed input the result is a failure and nobody is asked |
| Redemption.SuccessIsConsumed | packages/access/src/redeem-access-receipt.ts:205-228 | success exactly when the one call answered a well-formed `consumed`, with its flag |
| Redemption.AnswerRoundTrip | packages/access/src/redeem-access-receipt.ts:100-118 | every contract result survives its answer object |
| Redemption.BindingsMatchIff | packages/access/src/receipt-bindings.ts:39-113 | bindings match exactly when the host named the receipt's subject, resource, policy and intent, and its limit if it gave one |
| EndToEnd.PresentationSucceedsIff | packages/access/src/redeem-access-receipt.ts:165-228 | presenting a signed token whose row exists succeeds exactly when the signing key is the one trusted for its id, the host asked for what it grants, every clock is in the window, it is not revoked and uses are left; it then costs one use of that receipt, otherwise none |
| EndToEnd.PresentationAnswers | packages/access/src/redeem-access-receipt.ts:165-228 | the complete decision table of presenting a signed receipt whose row exists, in the order of the stages: unusable host time fails, an unacceptable token is denied verification, foreign bindings are denied, then revocation, expiry, not-before and exhaustion of the row decide |
| EndToEnd.ReceiptIsWorthItsLimit | packages/access/src/redeem-access-receipt.ts:165-228 | a signed, registered receipt presented any number of times inside its window succeeds exactly until its uses are spent, the last success alone is flagged, every later presentation is denied as exhausted; registering its claims is legal and starts it with no use spent |
| Tokens.SignVerifyRoundTrip | packages/access/src/receipt-verifier.ts:251-335 | verifying a signed valid claim set returns it when the signing key is trusted under its id and issuer, audience, size and time window allow, and is refused when any of these fails, another key under the same id included |
| Tokens.AcceptedIsAuthentic | packages/access/src/receipt-verifier.ts:166-290 | whatever token is presented, an accepted one is within the size limit, its header holds exactly `alg` EdDSA, `typ` JWT and a trusted `kid`, header and payload are text that this key signed and its signature reads as that key's; the returned claims are its payload's, valid, in force and a fixed point of the builder |
| Tokens.SpellingOfSignature | packages/access/src/receipt-verifier.ts:76-78 | another base64url spelling of the same signature bytes, in a token of allowed size, is accepted alike |
| LawfulPrimitives.LawfulExists | packages/access/src/receipt-signer.ts:34-42 | encodings and signatures as the results assume them do exist |
| Tokens.HeaderIsAccepted | packages/access/src/receipt-verifier.ts:166-212 | the signer's header passes the header checks, subject only to the size limit |
| Tokens.BuildKeyMap | packages/access/src/receipt-verifier.ts:313-322 | yields a map exactly for a non-empty list of importable keys with distinct ids, and then maps each id to its key |
| CompactText.JoinSplit | packages/access/src/receipt-verifier.ts:171 | splitting a token at its dots loses nothing |
| CompactText.SplitThree | packages/access/src/receipt-verifier.ts:76-78 | three base64url segments joined by dots come apart into the same three |
| CompactText.SegmentIff | packages/access/src/receipt-verifier.ts:76-78 | a text passes as a segment exactly when its length is that of the unpadded base64url of some bytes and its characters are of that alphabet |
| LegacyRuns.GrantsPerPaymentAreBounded | src/services/fiber-latch-service.ts:515-621 | over all runs from an empty database, each payment reference has at most one intent and one receipt, and the GRANTED responses ever returned for it are at most that receipt's count, at most its maximum; without a receipt there are none |
| LegacyRuns.WinnersFillSlots | src/repositories/access-receipt-repository.ts:91-158 | over all runs the winners' snapshot counts are pairwise distinct and exactly 0..count-1; the row is active exactly while ISSUED, below its limit while ISSUED, at it when EXHAUSTED, and never REVOKED |
| LegacyRuns.GrantIsSound | src/domain/redemption-policy.ts:68-153 | behind every GRANTED response is one moment at which the row was active, ISSUED, unexpired, below its limit and matched the signed claims and the request; own index < reported count <= maximum |
| LegacyRuns.LifecycleHolds | src/services/fiber-latch-service.ts:804-922 | over all runs and Fiber answers a receipt exists for an intent exactly when its status is RECEIPT_ISSUED, ACCESS_RECEIPT_ISSUED events number its receipts, and a receipt copies its intent and carries its policy's terms |
| LegacyRuns.RunKeepsInv | src/repositories/access-receipt-repository.ts:91-158 | every run keeps the invariant, no receipt's count ever drops, and a receipt that lost `active` never regains it |
| LegacyRuns.UpdateIsSound | src/repositories/access-receipt-repository.ts:107-126 | a conditional update that matches takes the next slot of a row that still satisfies the early checks |
| LegacyRuns.ResponsesStay | src/services/fiber-latch-service.ts:607-620 | a response once returned is in the run for good, so counting GRANTED responses counts all ever returned |
| LegacyRuns.NothingIsStuck | src/services/fiber-latch-service.ts:368-621 | at any moment of any run an unanswered request can make its next database call, whatever the clock, or crash, and an answered one can do neither; requests, valid creations and reconciliations can always take place |
| LegacyRuns.ExpiresPastDeadline | src/services/fiber-latch-service.ts:544-549 | in any run a receipt turns EXPIRED only by a call of a request whose verified token names it and whose clock reading was at or past the stored deadline; the row loses `active` and nothing else changes in it |
| LegacyRuns.ReadingOfExpiry | src/services/fiber-latch-service.ts:451-456 | where that clock reading comes from: the time of a redemption's arrival, or the reading of the verification step itself |
| RedemptionPolicy.DenialReports | src/domain/redemption-policy.ts:68-153 | what an early denial reports: its reason, the status shown, and the row's own count and maximum where there is a row |
| LegacyRuns.NoRaceNoMiss | src/repositories/access-receipt-repository.ts:91-130 | a request whose update directly follows its second read wins exactly when the row is still ISSUED and unexpired |
| LegacyRuns.MissHasCause | src/repositories/access-receipt-repository.ts:107-130 | in any run, a request that passed every check misses its conditional update exactly when the row is no longer ISSUED, or is past its deadline, or another request has won the slot its snapshot pointed at |
| LegacyRuns.KeyReplaysInAnyRun | src/services/fiber-latch-service.ts:182-193 | in any run, once a creation has committed, a later one with the same trimmed key, whatever happened in between, returns its intent and changes nothing if and only if the key is not blank; a blank one fails |
| LegacyPayments.NoReceiptWithoutPayment | docs/state-machine.md:78-79 | over all runs, every receipt, and the receipt behind every GRANTED response, belongs to an intent that names a payment and whose stored Fiber answer has a raw status spelling paid, success, succeeded, settled, confirmed or finalized, or has none and is verified |
| LegacyAudit.TrailIsHonest | src/services/fiber-latch-service.ts:572-605 | over all runs, crashes included, a receipt's ACCESS_RECEIPT_REDEEMED events number at least its GRANTED responses and at most its count |
| LegacyAudit.RecordedByWinner | src/services/fiber-latch-service.ts:572-605 | such events grow by one at a time and only by a database call of a request that has won a use of that receipt and had not recorded it |
| LegacyLifecycle.CreateKeepsInv | src/services/fiber-latch-service.ts:182-356 | creation keeps the lifecycle invariant whatever the Fiber node answers, and a new intent carries its trimmed key and payment reference (its other columns are stated by `LegacyEffects.CreationLeaves`) |
| LegacyEffects.CreationLeaves | src/services/fiber-latch-service.ts:182-356 | everything a creation does, column by column: a held key replays; a node that throws, a clash or a taken identity aborts; otherwise the intent stored has the caller's resource and subject and expires its policy's lifetime after the first clock reading, with the status, receipt, token and events its payment asks for |
| LegacyEffects.IssueLeaves | src/services/fiber-latch-service.ts:804-922 | everything issuing does: the receipt's and the token's every member, grant type and payment reference included, against the stored policy and intent, and the two events |
| LegacyEffects.ReconciliationLeaves | src/services/fiber-latch-service.ts:662-784 | everything reconciling one intent does, by its row, the clock and the answer written out as statuses, and which counter it enters |
| LegacyLifecycle.ReconcileKeepsInv | src/services/fiber-latch-service.ts:662-784 | so does reconciling any intent |
| LegacyLifecycle.IssueKeepsInv | src/services/fiber-latch-service.ts:804-922 | issuing repairs the lifecycle of the one intent it is asked about |
| LegacyLifecycle.IssueTouchesOne | src/services/fiber-latch-service.ts:804-922 | issuing changes no other intent and no existing receipt, and adds at most one receipt, for that intent |
| LegacyLifecycle.ReplayedCreationIsInert | src/services/fiber-latch-service.ts:182-193 | once an intent holds a non-blank key, any later creation with it returns that intent and changes nothing, whatever else differs |
| LegacyLifecycle.SharedKeyCreatesOnceIff | src/services/fiber-latch-service.ts:182-193 | in any sequence of creations sharing a trimmed key, from a call that commits on every call returns its intent and leaves the database, events included, as it left it, if and only if the key is not blank or no call follows; a blank key makes the later ones fail |
| LegacyLifecycle.BlankKeyBlocksTheNext | prisma/schema.prisma:78 | while an intent with a blank key exists, another creation with a blank key fails |
| Reconciliation.ReconciliationAddsUp | src/services/fiber-latch-service.ts:623-656 | inspected = verified + expired + rejected + pending, and receiptsIssued equals the receipt rows added |
| Reconciliation.SecondPassIsInert | src/services/fiber-latch-service.ts:623-784 | a second pass with the same Fiber answers and clock changes no status, adds no receipt or event, changes no other modelled column, and reports inspected = pending |
| BusyReconciliation.BusyPassAddsUp | src/services/fiber-latch-service.ts:623-656 | with any steps of the rest of the system between its transactions, other workers included, a pass's outcomes still add up, and `receiptsIssued` exceeds the rows it added by exactly the candidates that already had a receipt when their turn came |
| BusyReconciliation.OneTurn | src/services/fiber-latch-service.ts:662-784 | one reconciliation of any intent at any time reports VERIFIED exactly when the intent had a receipt already or it adds one |
| BusyReconciliation.BusyPassIsARun | src/services/fiber-latch-service.ts:623-656 | a pass is nothing but a run of the system: its transactions, one a candidate, woven between the others' steps lead to the same state |
| Reconciliation.ReconcileEffect | src/services/fiber-latch-service.ts:662-784 | reconciling an open intent touches no other, adds one receipt exactly on VERIFIED, and leaves it closed or quiet under the same answers |
| Resumption.InterruptedPassResumes | docs/state-machine.md:86 | a pass that failed part-way may be rerun in any world in which the reached, still open intents are quiet: it ends over the same database, and as completely, as one pass from the start in which the candidates reached met the old world and all others the new one |
| Resumption.AgreeingWorldResumes | docs/state-machine.md:86 | in particular, if the new world agrees with the old one on the candidates reached, as one pass in the new world |
| Resumption.RerunPicksUp | docs/state-machine.md:86 | in any world and configuration in which the reached, still open intents are quiet, a later clock and new answers included, the rerun is exactly the rest of the pass from where it stopped |
| Resumption.RerunRevisits | src/services/fiber-latch-service.ts:634-656 | in any world and configuration at all, the rerun first revisits exactly the reached intents that are still open, oldest first and each once, and then goes on in the old order from the one that failed |
| Resumption.ClosedStaysClosed | docs/state-machine.md:86 | in any world and configuration, no pass, rerun or not, complete or not, touches an intent that was closed before it or any receipt; a complete one leaves every open intent quiet |
| Resumption.FailurePoint | src/services/fiber-latch-service.ts:634-656 | a failing pass has fully reconciled exactly the candidates before the failing one, leaving each of them closed or quiet and all others untouched |
| Resumption.RerunList | src/repositories/access-intent-repository.ts:80-103 | after such a failure the candidate list is the reached intents that are still open and then the old list from the failing one on |
| Reconciliation.ListIsOpen | src/repositories/access-intent-repository.ts:80-103 | the candidate list holds every open intent, only open ones, and each once |
| PassMeaning.ListIsUnended | src/repositories/access-intent-repository.ts:80-103 | the list holds exactly the intents that have not ended, PENDING or VERIFIED, oldest first |
| PassMeaning.PassMeans | src/services/fiber-latch-service.ts:623-784 | after a complete pass every intent that had not ended has the status its clock or the node's answer says (paid RECEIPT_ISSUED, expired EXPIRED, failed REJECTED, otherwise its own), every other is untouched, and each counter is the number of listed intents with the status it names |
| LegacyRedemption.IssuedTokenIsGranted | src/services/fiber-latch-service.ts:515-621 | a token handed out by a creation in any run, redeemed alone for the resource and subject that the caller of that creation named, after any further steps and uses, is granted exactly when issuer and audience still agree, no claim text is empty, it is in its window, its receipt is ISSUED and the stored deadline has not passed; then that receipt alone changes, by one use |
| LegacyRedemption.HonestTokenIsGranted | src/services/fiber-latch-service.ts:515-621 | the same from any state that keeps the lifecycle invariant |
| LegacyRuns.RunIsLater | src/services/fiber-latch-service.ts:182-784 | over any run policies, the terms of intents and the terms of receipts never change |
| LegacyRedemption.AloneGrantedIff | src/services/fiber-latch-service.ts:515-621 | alone, any request is granted exactly when some stored receipt matches token, claims and request, is ISSUED and unexpired; denied, no count moves |
| LegacyRedemption.RedemptionLeaves | src/services/fiber-latch-service.ts:515-621 | every answer of an undisturbed redemption and what it leaves: past the stored deadline exactly the named row becomes EXPIRED and inactive, on any other denial nothing changes, a grant uses the row once and records it |
| LegacyRedemption.VerificationLeaves | src/services/fiber-latch-service.ts:368-513 | the same for verification |
| LegacyRedemption.HonestTokenAnswers | src/integrations/receipts/jwt-access-receipt-signer.ts:67-99 | every answer to an honest token, for any resource, subject, configuration and clock readings |
| LegacyRedemption.VerificationArrivesAndRuns | src/services/fiber-latch-service.ts:368-513 | an undisturbed verification is a run of the interleaved system |
| LegacyRedemption.RunAloneIsARun | src/services/fiber-latch-service.ts:515-621 | an undisturbed request is a run of the interleaved system |
| LegacyRedemption.ArrivesAndRuns | src/services/fiber-latch-service.ts:515-621 | a redemption may arrive in any state and be served without interruption, as a run of the interleaved system |
| LegacyRedemption.CreatedTokenIsHonest | src/services/fiber-latch-service.ts:818-856 | whenever creation hands out a token, its claims are those of the receipt stored with it |
| LegacyRedemption.HonestStays | src/services/fiber-latch-service.ts:818-856 | and they remain those of that receipt after any later step |
| LegacyRedemption.TokenDeadline | src/domain/receipt-claims.ts:33-49 | the signed deadline is never later than the stored one and at most 999 ms earlier; the signed window is the policy's lifetime |
| LegacyRedemption.HonestTokenNeverStoredExpired | src/services/fiber-latch-service.ts:526-549 | with a monotone clock an issued token that passes the signature check never meets the stored-expiry denial |
| LegacyRedemption.LateSampleMeetsStoredExpiry | src/services/fiber-latch-service.ts:527-528 | sampled one millisecond after the check instead of before it, the clock makes the same token meet it |
| LegacyRedemption.VerificationPredictsRedemption | src/services/fiber-latch-service.ts:368-513 | verification confirms a receipt exactly when redeeming the same token right away, for that receipt's resource and subject, is granted on it |
| LegacyService.FiberLatchService.CreateAccessIntent | src/services/fiber-latch-service.ts:182-356 | does exactly the creation transaction, keeps the lifecycle invariant, and a failed one leaves every table as it was |
| LegacyService.FiberLatchService.IssueReceiptForIntent | src/services/fiber-latch-service.ts:786-922 | does exactly the issuing part of a transaction, and keeps the lifecycle invariant where it held |
| LegacyService.FiberLatchService.ReconcileSingleAccessIntent | src/services/fiber-latch-service.ts:662-784 | does exactly the reconciliation transaction and keeps the lifecycle invariant |
| LegacyService.FiberLatchService.ReconcileOpenAccessIntents | src/services/fiber-latch-service.ts:623-656 | the loop over the candidates is the pass about which the counters are proved |
| LegacyService.FiberLatchService.RedeemAccessReceipt | src/services/fiber-latch-service.ts:515-621 | undisturbed, responds and writes what the interleaved model's request does when it runs alone, and keeps the lifecycle invariant |
| LegacyService.FiberLatchService.VerifyAccessReceipt | src/services/fiber-latch-service.ts:368-513 | likewise for verification |
| LegacyService.FiberLatchService.RedeemAccessReceiptAtomically | src/repositories/access-receipt-repository.ts:91-144 | undisturbed, updates exactly when the row is active, ISSUED and unexpired, and changes that row alone |
| LegacyService.FiberLatchService.CreateIntentRow | prisma/schema.prisma:77-78 | the insert fails exactly when a non-null payment reference or key is already present |
| LegacyService.FiberLatchService.EnsureResourcePolicy | src/repositories/resource-policy-repository.ts:11-37 | returns a policy of the named resource; the policies are unchanged exactly when one existed, and otherwise gain that one with the configured terms |
| LegacyLifecycle.EnsureKeepsInv | src/repositories/resource-policy-repository.ts:11-37 | doing so keeps the lifecycle invariant and touches no intent, receipt or event |
| FiberStatus.MappingIgnoresCaseAndPadding | src/integrations/fiber/fiber-status-mapper.ts:27-29 | letter case and outer white space never change the mapping of any status |
| FiberStatus.VerdictOfText | src/integrations/fiber/fiber-status-mapper.ts:22-85 | a status that is not blank is pending, paid, expired or failed exactly when its normalised text is one of the words written out for it, unknown otherwise; only a paid one asks for a receipt; a blank or missing one waits |
| FiberStatus.OfficialStatuses | docs/state-machine.md:69-79 | the official invoice and payment statuses, in any letter case, become the intent states the table gives |
| LegacyVerdicts.VerdictIff | src/services/fiber-latch-service.ts:206 | a Fiber answer means paid exactly when its raw status spells one of the six paid words or it has none and is verified; expired, failed and pending likewise by their words |
| FiberStatus.SpellingOfSeparators | src/integrations/fiber/fiber-status-mapper.ts:27-29 | inside a status, every non-empty run of white space and hyphens maps as one underscore |
| RpcIntegers.QuantityRoundTrip | src/integrations/fiber/real-fiber-client.ts:145-151 | parsing a printed positive quantity gives it back, and nothing is printed for any other integer |
| RpcIntegers.NumbersParse | src/integrations/fiber/real-fiber-client.ts:82-109 | a non-negative integer parses to itself, a negative one, a fraction and anything that is no number or text to nothing |
| RpcIntegers.TextParsesIff | src/integrations/fiber/real-fiber-client.ts:82-109 | a text parses exactly when, trimmed, it is decimal digits, or `0x` in either case and hexadecimal digits |
| RpcIntegers.SpellingNeverMatters | src/integrations/fiber/real-fiber-client.ts:82-109 | prefix case, digit case, leading zeros and outer white space never change the parsed value |
| RpcIntegers.FieldTextReparses | src/integrations/fiber/real-fiber-client.ts:129-143 | the decimal text read from a record denotes the first listed integer field and parses back to it; no text exactly when none parses |

## Left out

- Ed25519, JWK import and base64url JSON: foreign code, an abstract `Lawful` pair of functions instead.
- The verifier's option parsing and all issue lists of validation errors: only acceptance is modelled.
- Proxies, inherited members and other oddities of JavaScript objects: claims, bindings and rows are plain records of own members.
- Store commands are typed records: a command whose members have the wrong JavaScript type is not modelled.
- Clock tolerance is any real number; the bounds the configuration puts on it are not needed and not stated.
- PostgreSQL isolation above READ COMMITTED, replacing the table by a view, and the planner: a row lock sees the latest committed row and is held to the end of its transaction.
- `StoreTransactions` revokes and registers receipts as a host would; the repository ships no such statement.
- A row registered by an uncommitted transaction: registration is a committed step of its own.
- The demo store's `expire`, `tamperAuthorityForTest` and inspection helpers: they exist to break the agreement proved here.
- Interleavings inside a legacy `$transaction`: each is one atomic step, and its unique constraints make it fail as a whole.
- LegacyService.FiberLatchService.RedeemAccessReceipt: nothing interleaves inside the method; interleaved database calls are the subject of `LegacyRuns`.
- LegacyRuns.GrantIsSound: does not say that a GRANTED response reports its own count, because the row is read back after the update and may show later uses.
- LegacyRuns.WinnersFillSlots: does not say that receipts follow the transition tables of src/domain/access-state.ts, because setting a receipt expired is unconditional and takes EXHAUSTED to EXPIRED.
- Reconciliation.SecondPassIsInert: does not cover the update-time column, which a second pass rewrites when it stores an unchanged Fiber answer.
- A token of a receipt issued by reconciliation: the service signs it and drops it, so no caller holds it.
- The recovery branch after a failed receipt insert: it re-reads a row just found missing in the same transaction, so it can only rethrow.
- The receipt status REVOKED: no code path of the legacy service writes it.
- Columns that no decision reads: token hashes, creation and update times, policy activity, event payloads, view records and the full response bodies.
- A settlement time that is not a valid date, which would throw, and the timestamp field reader with its date range.
- Lower-casing beyond the ASCII letters.
- HTTP routes, request and response contracts, invoice creation and its transport, packaging and scripts.
