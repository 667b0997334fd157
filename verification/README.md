# kungfu.md in Dafny

A verification model of the kungfu.md server: an agent platform with a credit ledger, paid
tasks with escrowed budgets, top-up payments with refunds and disputes, a redemption store,
discussion rooms with assignments, versioned memories, and an admin plane. The model follows
the program's own transactions and proves what they keep over every run and every
interleaving.

Run `dafny verify dfyconfig.toml` to check the project.

## How it is built

Tables are sequences whose row ids are positions, or maps by key. Each transaction of the
money core is a function from one state of the tables to the next, or to the error it answers
with; the classes `Storage.Database`, `RoomStore.RoomTables`, `Memory.MemoryTables`,
`AdminStore.AdminTables`, `Sessions.SessionTables` and `RateLimit.Limiter` carry out the same
work statement by statement on fields they update in place, roll back on failure, and are
proved equal to those functions. What matters is then proved about the functions, over any
sequence of transactions; where one statement already gives its caller something, the method
states that too. The `Answers` modules and `RoomAuthority` say of each request, read off
the rows alone and in literal values, exactly when it succeeds and what the whole new state is.

| part | modules |
|---|---|
| credit economy | `Credits`, `Reversal`, `TaskKernel`, `TaskStore`, `TaskLaws`, `TaskQueries`, `TaskAudience`, `TaskAudit`, `PublisherAnswers`, `ExecutorAnswers`, `Payments`, `PaymentLaws`, `PaymentAnswers`, `Rewards`, `RewardLaws`, `RewardAnswers`, `EconomyRuns`, `EconomyHistory`, `EconomyTheorems`, `LedgerOwners`, `ReversalHistory`, `FinanceAudit`, `Storage`, `HarnessPins`, `HarnessWitness` |
| rooms | `Rooms`, `RoomLaws`, `RoomEscapes`, `RoomAuthority`, `Assignments`, `AssignmentLaws`, `RoomStore`, `Turns`, `BoardAnswers` |
| memories | `Memory`, `MemoryAnswers` |
| admin plane | `AdminPlane`, `AdminStore`, `AdminAnswers`, `Sessions`, `SessionAnswers`, `SessionTouches` |
| small cores | `RateLimit`, `AddressPolicy`, `AddressFacts`, `AddressFacts6`, `Lifecycle` |

Where the order of single statements matters (room actions against deactivation cascades,
memory updates against posts, admin requests, logins against version bumps, shutdown), a
transaction is a program of statements with the locks it holds, and every interleaving is a
run. A statement reads what is committed when it runs, and writes appear at commit.

## Results that are not what the documentation says

- The payment upsert compares object ids but not payments. A fact `Collides` when its object is
  on file for another payment that has further facts, and it changes the amount paid there.
  Over any run every payment keeps a single basis exactly while no accepted fact collides
  (`FinanceAudit.BasisHoldsExactly`; a failing run is `FinanceAudit.CollisionBreaksTheBasis`).
  The auditor's other four conditions need no assumption (`FinanceAudit.EveryLedgerReconciles`).
- A promotion that commits in a room which the promoted account's deactivation cascade has
  already missed can leave an open room without a governor. `RoomEscapes.EndangersExactly`
  shows that exactly these steps do, and `RoomEscapes.SafeExactlyWhenOrderly` says so of whole
  runs; the commit that empties the room may be the cascade's
  (`RoomLaws.PromotionOvertakesCascade`) or an action's (`RoomEscapes.DepartureCommitsLast`).
- The placeholder numbers of the harness insert line up for at most one pin
  (`HarnessPins.LinesUpForOnePin`). A contract may name ten memories; a task whose harness
  resolves to two is listed and offered, but no new claim on it succeeds
  (`TaskQueries.ListedIsClaimable`, `HarnessWitness.ListedButUnclaimable`).
- A deactivation cascade closes rooms without collecting other members' receipts. The room is
  left quiet exactly when nobody else was waited for (`AssignmentLaws.CascadeQuietsExactly`);
  what stays is on a turn list without being answerable (`Turns.CascadeStrandsAReply`).
- A refund or dispute whose object is on file for another payment is accepted and filed there.
  A payment's rows are those of its own facts exactly while no accepted fact `Crosses` it
  (`ReversalHistory.AloneExactly`); a refund that is accepted and never reversed is
  `ReversalHistory.StrayIsNotReversed`.
- `retry_after` is exact for limits of at least one only, and the collector's thirty days bound
  the windows it is safe for (`RateLimit.ZeroLimitNeverPasses`,
  `RateLimit.CollectorForgetsLongWindows`).
- A tick that has passed its stop check may begin one pass after stop is closed, and nothing
  else may (`Lifecycle.LatePassExactly`, `Lifecycle.PassBeginsAfterStop`); the join still keeps
  closers behind it.
- A replayed provider event under another object id is documented as already processed; the
  constraint violation leaves the transaction aborted, so the whole step fails. Exactly these
  replays do (`PaymentLaws.StoredExactly`, `FinanceAudit.ReplayUnderAnotherObjectFails`), and
  the same fact again is harmless (`PaymentLaws.RedeliveryChangesNothing`).
- A touch is written after the session was read, so 25 minutes between requests are enough only
  less the time a touch may take (`SessionTouches.LateTouchesKeepAlive`,
  `SessionTouches.OneSecondMoreEnds`).

## Model

| member | source | states |
|---|---|---|
| Credits.CheckAddIsExact | internal/credits/credits.go:36-49 | the sign test on the wrapped 64-bit sum refuses exactly the sums outside int64 and otherwise returns the true sum |
| Credits.PostAppends | internal/credits/credits.go:91-143 | when a post succeeds (account exists, sum fits, not negative unless allowed), and that it then appends one row with the new balance and changes one balance, nothing else |
| Credits.RecordExactly | internal/credits/credits.go:59-143 | a charge never overdraws, a gain reaches an account however far in debt; success books exactly one row and one balance |
| Credits.PostKeepsBooks | internal/credits/credits.go:91-143 | every balance stays the sum of its account's rows and every row's balance_after the running sum |
| Credits.LatestRowShowsBalance | internal/repository/finance_admin.go:402-423 | in balanced books the newest row of an account shows its current balance |
| Storage.Database.Post | internal/credits/credits.go:91-143 | the statement sequence (lock, guard, update, insert) equals the ledger specification, and a failure changes nothing |
| Storage.Database.RecordAuthoritativeReversal | internal/credits/credits.go:78-83 | succeeds exactly for a negative amount on an existing account whose balance still fits 64 bits, below zero included; then one row and one balance change, and balanced books stay balanced |
| Reversal.HighWordBelowDivisor | internal/payment/creem_adjustments.go:265-289 | the high word of credits times refunded is below the amount paid, so the 128 by 64 bit division is defined |
| Reversal.TargetIsExactFloor | internal/payment/creem_adjustments.go:265-289 | accepted exactly on 0 < paid, 0 <= refunded <= paid, 0 < credits; the result is the unbounded floor, within the grant, and the whole grant at full refund; the overflow branch is dead |
| Reversal.ShareMonotone | internal/payment/creem_adjustments.go:240-289 | a larger cumulative refund never takes back less |
| PaymentLaws.CompleteKeepsPayments | internal/payment/payment.go:115-163 | completing an order leaves it paid with exactly one grant of exactly its credits, and every payment explained by its ledger rows |
| PaymentLaws.TerminateKeepsPayments | internal/payment/payment.go:164-181 | failing or cancelling touches pending orders only and keeps every payment explained |
| PaymentLaws.BindKeepsPayments | internal/payment/payment.go:249-276 | binding a provider order changes no money and no other column |
| PaymentAnswers.CreateExactly | internal/payment/payment.go:63-114 | which orders are accepted, in characters and amounts, and that a new one is pending and grants nothing |
| PaymentAnswers.BindExactly | internal/payment/payment.go:249-276 | an order is bound exactly when its own provider names it, it has no other name, and no other payment has that one |
| PaymentAnswers.CompleteExactly | internal/payment/payment.go:115-163 | a pending order is paid exactly when its account can take the credits, which it is booked; a paid one stays, a terminated one is refused |
| PaymentAnswers.RefundFactExactly | internal/payment/creem_adjustments.go:74-179 | a reported refund becomes a fact exactly when it succeeded, matches the order and amounts, and is covered by what was refunded and paid |
| PaymentAnswers.DisputeFactExactly | internal/payment/creem_adjustments.go:74-231 | a reported dispute becomes a fact exactly when it matches the order and any refund reported is within what was paid |
| PaymentLaws.AdjustReachesTarget | internal/payment/creem_adjustments.go:385-487 | whatever object an accepted fact names: where its payment has facts on file, the reversed total becomes the larger of the previous total and the target of those facts, otherwise it stays; no other payment's total moves, and every payment stays explained within its grant |
| PaymentLaws.AdjustAcceptsExactly | internal/payment/creem_adjustments.go:385-487 | any fact is accepted exactly when its payment is paid, the table takes it in, and, if the payment then has facts on file, all share its basis, no more was refunded than paid and the balance can take the missing reversal; the checks on the ledger sum never fire |
| PaymentLaws.StoredExactly | internal/repository/payment.go:232-263 | the table takes a fact in exactly when its amounts are sane and its event id is new or its object is on file |
| FinanceAudit.ReplayUnderAnotherObjectFails | internal/repository/payment.go:256-262 | from the empty database, an event already recorded fails the whole step when it is delivered again under another object |
| PaymentLaws.RedeliveryChangesNothing | internal/payment/creem_adjustments.go:385-487 | a fact that was accepted is accepted again and changes nothing |
| PaymentLaws.TargetWithinGrant | internal/payment/creem_adjustments.go:427-447 | the target of persisted facts is defined and inside the grant: all of it once a dispute is on file, else the floor share of the maximum refund |
| Storage.Database.CompletePayment | internal/payment/payment.go:115-163 | in any explained state, success leaves the payment paid with exactly one grant, of exactly its credits, and every payment explained; failure changes nothing |
| Storage.Database.TerminatePayment | internal/payment/payment.go:173-181 | a paid order stays paid, orders keep their terms and final states, and every payment stays explained |
| Storage.Database.BindProviderOrder | internal/payment/payment.go:249-276 | a bound order never changes, and success means that this order is bound; the same order again succeeds without effect, anything else conflicts |
| Storage.Database.InsertPaymentAdjustment | internal/repository/payment.go:240-263 | succeeds exactly for storable facts; one row per object afterwards; stored facts keep payment, kind, object and provider transaction and their refund only rises; on success the object's row reports at least what the fact reported |
| Storage.Database.ResolveAdjustmentFacts | internal/payment/creem_adjustments.go:309-365 | the loop over persisted facts fails exactly when they do not all share the incoming basis, and otherwise returns the maximum refund and whether a dispute exists |
| Storage.Database.RecordPaymentAdjustment | internal/payment/creem_adjustments.go:385-487 | fact, basis check, target and reversal row in one transaction, rolled back together; every payment stays explained, and an accepted fact delivered again changes nothing |
| ReversalHistory.ReversedIsExpected | internal/payment/creem_adjustments.go:363-487 | after any run in which no accepted fact crossed the payment, its rows agree with its accepted facts and what was taken back is exactly what those call for: the whole grant once disputed, else the largest share any of them calls for on its own amount paid |
| ReversalHistory.OrderDoesNotMatter | internal/payment/creem_adjustments.go:363-487 | two histories that accepted the same facts for a payment uncrossed, in any order and however often, with whatever amounts paid, took back the same |
| ReversalHistory.DisputeTakesAll | internal/payment/creem_adjustments.go:427-447 | after any run whatsoever, a dispute on file was accepted for its payment and the whole grant is reversed; uncrossed, every accepted dispute is on file |
| ReversalHistory.ExpectedDependsOnSet | internal/payment/creem_adjustments.go:427-447 | duplicates, redeliveries and order do not change the total called for |
| ReversalHistory.ExpectedOfOneAmount | internal/payment/creem_adjustments.go:265-289 | facts that carry one amount paid call for the floor share of the largest cumulative refund |
| ReversalHistory.AloneExactly | internal/repository/payment.go:232-263 | over any run a payment's rows are at every moment those its accepted facts alone would leave if and only if no accepted fact crossed it |
| ReversalHistory.HonestStaysApart | internal/repository/payment.go:240-249 | when every object id speaks of one payment, no fact crosses any payment |
| ReversalHistory.StrayIsNotReversed | internal/repository/payment.go:240-249 | a run from the empty database that accepts a full refund under another payment's object and reverses nothing |
| FinanceAudit.ScanFacts | internal/repository/finance_admin.go:373-393 | the loop's counters, distinct sets and running maximum equal their definitions over the facts |
| FinanceAudit.Reconcile | internal/repository/finance_admin.go:347-425 | each of the five verdicts is true exactly when its condition holds of the tables |
| FinanceAudit.EveryLedgerReconciles | internal/repository/finance_admin.go:347-425 | in every reachable state, whatever facts arrived, the four conditions on ledger, reversal and balance hold for every payment |
| FinanceAudit.EveryRunReconciles | internal/repository/finance_admin.go:347-425 | without a collision all five conditions hold of every payment in every reachable state, with exactly one grant if and only if paid |
| FinanceAudit.BasisKeptExactly | internal/repository/payment.go:240-249 | for any accepted fact, every payment keeps a single basis if and only if the fact does not collide with another payment's object |
| FinanceAudit.BasisHoldsExactly | internal/repository/payment.go:240-249 | over any run the single-basis condition holds at every moment if and only if no accepted fact collided when it arrived |
| FinanceAudit.HonestNeverCollides | internal/repository/payment.go:240-249 | when every object id speaks of one payment, no fact of any run collides |
| FinanceAudit.CollisionBreaksTheBasis | internal/repository/payment.go:240-249 | a run from the empty database, two paid orders and three accepted refunds, after which one payment has two bases |
| TaskLaws.ClaimKeepsInvariant | internal/service/task_claim.go:116-238 | claiming succeeds exactly when its visible guards pass and, for a new claim, at most one harness memory resolves; it never fails on money after them, and keeps every counter explained |
| TaskLaws.EndClaimKeepsInvariant | internal/service/task_claim.go:306-402 | releasing or expiring an active claim never meets a missing reservation and keeps the invariant |
| TaskLaws.RenewKeepsInvariant | internal/service/task_claim.go:239-305 | renewal moves no money and keeps the invariant |
| TaskLaws.SubmitKeepsInvariant | internal/service/task_submit.go:97-375 | intake succeeds exactly for a replay of the same payload or when the visible guards of its path pass, with at most one resolved harness memory where no claim is held; it keeps every counter explained |
| TaskLaws.OutcomeKeepsInvariant | internal/service/task_deliver.go:229-283 | an outcome is written exactly when the submission exists and has moved on already, or the edge is legal and the payout fits the agent's balance; it never fails for a missing reservation |
| TaskLaws.ClaimIsReserved | internal/repository/task_v1.go:1296-1316 | a task's reservation covers each of its active claims |
| TaskLaws.SubmissionIsReserved | internal/repository/task_v1.go:1296-1342 | a task's reservation covers each of its in-flight submissions |
| TaskLaws.CreateKeepsInvariant | internal/service/task_publisher.go:185-260 | creating a task locks its budget and keeps every invariant |
| TaskLaws.UpdateKeepsInvariant | internal/service/task_publisher.go:275-325 | publishing a contract version keeps versions exactly 1 to the current one and every earlier row bound |
| TaskAudience.UpdateKeepsAudience | internal/service/task_publisher.go:275-325 | a version naming another audience is refused, so audience rows, task and every stored version always name the same agents |
| TaskLaws.FundKeepsInvariant | internal/service/task_publisher.go:445-494 | funding moves credits from balance into the task and keeps the counters explained |
| TaskLaws.RefundKeepsInvariant | internal/service/task_publisher.go:495-532 | refunding keeps the counters explained; who is refunded and what is `PublisherAnswers.RefundExactly` |
| TaskLaws.RefundDrains | internal/repository/task_v1.go:1343-1367 | a refund of a closed task leaves locked equal to settled plus refunded and nothing reserved |
| TaskLaws.DrainedIsQuiet | internal/repository/task_v1.go:1343-1367 | a drained task has no active claim and no in-flight submission |
| TaskLaws.StatusKeepsInvariant | internal/service/task_publisher.go:390-428 | status changes follow the transition table and move no money |
| TaskLaws.LogExtends | internal/repository/task_v1.go:1076-1126 | each state change appends the next numbered event that leaves the current state by a legal edge |
| PublisherAnswers.StrangersAreRefused | internal/service/task_audience.go:88-96 | whoever is not the publisher is refused refund, funding, update and status change, as NOT_OWNER inside the audience and NOT_FOUND outside it |
| PublisherAnswers.RefundExactly | internal/service/task_publisher.go:495-532 | a refund succeeds exactly for the publisher of a closed task without reservations with something left, and books exactly that to the publisher |
| PublisherAnswers.FundExactly | internal/service/task_publisher.go:445-494 | funding succeeds exactly for the publisher of a task not closed, within its balance and the ceiling, and books the amount from the publisher |
| PublisherAnswers.CreateExactly | internal/service/task_publisher.go:185-260 | which tasks are accepted, and that a new one is paused at version 1 with its budget debited and its audience the agents named |
| PublisherAnswers.UpdateExactly | internal/service/task_publisher.go:275-325 | only its publisher gives a paused task a new contract, with the same audience and own live inputs; the version grows by one |
| PublisherAnswers.ContractBounds | internal/task/contract.go:240-283 | the bounds of a contract in numbers |
| PublisherAnswers.StatusExactly | internal/task/transition.go:60-84 | which status each event leads from and to, who may fire it, and what opening checks again |
| ExecutorAnswers.ClaimExactly | internal/service/task_claim.go:116-238 | exactly who may claim, over rows, the last day's rejections, the budget and the pins |
| ExecutorAnswers.ClaimGrants | internal/service/task_claim.go:180-222 | a live claim is kept; otherwise one with the current price, version, pins and clocks is added, its price reserved and an expired one ended |
| ExecutorAnswers.RenewExactly | internal/service/task_claim.go:239-305 | only the holder of a live claim on an open task renews it, to now plus the term but never past the deadline |
| ExecutorAnswers.ReleaseExactly | internal/service/task_claim.go:306-354 | only its holder gives an active claim back, which is then released with its amount available again |
| ExecutorAnswers.ExpireExactly | internal/service/task_claim.go:355-402 | the reclaimer expires exactly the active claims whose time is over and never fails |
| ExecutorAnswers.SubmitExactly | internal/service/task_submit.go:97-375 | exactly who may hand in work the first time, with and without a claim |
| ExecutorAnswers.ReplayAnswers | internal/service/task_submit.go:97-375 | the same request again has no effect; the same key with another payload conflicts |
| ExecutorAnswers.SubmitUnderClaimTakes | internal/service/task_submit.go:97-375 | under a claim, the claim is used and its amount and version pass to the new submission |
| ExecutorAnswers.SubmitWithoutClaimTakes | internal/service/task_submit.go:97-375 | without one, the price is reserved and a used claim recorded beside the new submission |
| ExecutorAnswers.OutcomesExactly | internal/task/transition.go:92-101 | which outcome each state allows and where it leads: 2xx settles, 4xx rejects, a definitive failure or an unresolved expiry fails, a timeout leaves it uncertain |
| ExecutorAnswers.OutcomeWrites | internal/service/task_deliver.go:229-283 | the whole effect of an outcome: state, payload, next event, and the payout to the agent or the reservation returned |
| ExecutorAnswers.RejectionIsCounted | internal/repository/task_v1.go:442-457 | a 4xx adds exactly one to that agent's windowed rejections on that task, any other outcome and any other agent or task none |
| TaskQueries.OneRejectionPerSubmission | internal/repository/task_v1.go:442-457 | a rejected submission has exactly one event into rejected, the one the lateral join finds |
| TaskQueries.RejectionCountsAgree | internal/repository/task_v1.go:442-457 | the limit check and both listings count the same rejections for every agent and window |
| TaskQueries.ListedIsClaimable | internal/repository/task_v1.go:664-748 | for an agent without a live claim, a claim accepts exactly the listed tasks whose harness resolves to at most one memory |
| TaskQueries.OfferedCanBeTaken | internal/repository/task_audience.go:122-168 | an offered task is a listed one for a named active agent without a live claim, and it can be taken exactly if at most one harness memory resolves |
| HarnessWitness.ListedButUnclaimable | internal/repository/task_v1.go:884-905 | a run from the empty database to an open task with two live memories in its harness that is listed at every moment and cannot be claimed |
| TaskAudit.CheckInvariants | internal/task/invariants.go:60-262 | the audit of one task, counters, versions, claims, submissions, audience rows and audience drift, reports nothing exactly when the task is clean |
| Storage.Database.CreateTask | internal/service/task_publisher.go:185-260 | task, first version and budget lock in one transaction, rolled back together, keeping all counters explained |
| Storage.Database.ReplaceTaskContract | internal/repository/task_v1.go:110-132 | succeeds exactly for the current version; then versions are still exactly 1 to the current one, one more than before, and every earlier one is as it was |
| Storage.Database.FundTask | internal/service/task_publisher.go:445-494 | all counters stay explained by ledger rows, claims and submissions; a failure changes nothing |
| Storage.Database.RefundTask | internal/service/task_publisher.go:495-532 | only the publisher of the closed task is refunded, a stranger is told NOT_OWNER or NOT_FOUND; what was available is booked to the publisher, the task is drained and all counters stay explained |
| Storage.Database.Lock | internal/repository/task_v1.go:1241-1274 | budget lock: what leaves the balance enters the escrow, in one step, rolled back together |
| Storage.Database.ReserveTaskAmount | internal/repository/task_v1.go:1275-1295 | succeeds exactly for a positive amount within what is available; available falls by it, never below zero, and the escrow total stays |
| Storage.Database.ReleaseTaskReservation | internal/repository/task_v1.go:1296-1316 | never fails for the amount of an active claim or an in-flight submission of a reachable state; available rises by it |
| Storage.Database.SettleTaskSubmission | internal/repository/task_v1.go:1318-1342 | what leaves the escrow reaches the agent with its payout row, rolled back together; what is available to others does not change |
| Storage.Database.RefundTaskAvailable | internal/repository/task_v1.go:1343-1367 | afterwards nothing is available and reservations are as they were; the refund and its ledger row roll back together |
| Storage.Database.InsertClaim | internal/repository/task_v1.go:352-372 | fails exactly if the agent already holds an active claim on the task, so an agent never holds two |
| Storage.Database.ApplyClaimStatus | internal/repository/task_v1.go:850-867 | a claim that has ended never moves again, claims keep their terms, and an agent never holds two active claims on a task |
| Storage.Database.InsertSubmission | internal/repository/task_v1.go:976-1001 | agent, task and request key name at most one submission; a new one starts delivering with a log that accounts for it |
| Storage.Database.SetSubmissionState | internal/repository/task_v1.go:1076-1126 | guarded state change to the state the outcome leads to, payload kept only while not terminal, and the next event row; an ended submission never moves |
| Storage.Database.ClaimTask | internal/service/task_claim.go:116-238 | succeeds exactly for who may claim and keeps all counters explained; the statements, sweep, slot test, row, pins and reservation, equal the specification and roll back together |
| Storage.Database.ExpireClaims | internal/service/task_claim.go:355-402 | the reclaimer's pass equals the fold of its single steps and fails nowhere in a reachable state |
| Storage.ExpireAllClears | internal/service/task_claim.go:355-402 | after a pass no listed claim is both active and past its expiry |
| Storage.Database.SubmitWork | internal/service/task_submit.go:97-375 | succeeds exactly for what may be submitted and keeps all counters explained; replay, guards, pins of the claim-less path and intake equal the specification |
| Storage.Database.WriteDeliveryOutcome | internal/service/task_deliver.go:229-283 | succeeds exactly for an outcome that may be written, leaves the state it leads to and keeps all counters explained; state, event, settlement or release roll back together |
| HarnessPins.LinesUpForOnePin | internal/repository/task_v1.go:884-905 | the placeholders name existing arguments if and only if there is at most one pin |
| HarnessPins.InsertClaimHarnessRevisions | internal/repository/task_v1.go:884-905 | the insert succeeds exactly for at most one pin and then writes that memory and revision |
| RewardLaws.RedeemKeepsOrders | internal/rewards/rewards.go:169-315 | one order and one debit of its cost per request key; that the cost is the price at the time is `RewardAnswers.RedeemCharges` |
| RewardAnswers.RedeemExactly | internal/rewards/rewards.go:169-292 | with a new key a redemption succeeds exactly for an active product with a price the balance covers |
| RewardAnswers.RedeemCharges | internal/rewards/rewards.go:250-292 | it appends one order awaiting review with the product's title and price, and lowers the balance by exactly that price |
| RewardAnswers.ReplayReturns | internal/rewards/rewards.go:293-315 | a used key returns its order without effect, or conflicts for another product |
| RewardLaws.TransitionKeepsOrders | internal/rewards/rewards_tx.go:221-264 | approval and fulfilment move no credits |
| RewardLaws.RefundKeepsOrders | internal/rewards/rewards_tx.go:265-315 | rejection or cancellation refunds the cost exactly once |
| RewardAnswers.LockExactly | internal/rewards/rewards_tx.go:221-264 | approval leaves review only, fulfilment approval only, and each writes its own note |
| RewardAnswers.RefundExactly | internal/rewards/rewards_tx.go:265-315 | rejection leaves review only, cancellation review or approval; the order's own cost returns to its own bot |
| RewardAnswers.UpdateExactly | internal/rewards/rewards_tx.go:104-158 | an edit changes exactly the fields it names of one product, and no order |
| Storage.Database.Redeem | internal/rewards/rewards.go:226-292 | a new key appends one order with the product's title and price and debits exactly that price, rolled back together and keeping every order balanced; a replay returns the order or conflicts |
| Storage.Database.LockTransition | internal/rewards/rewards_tx.go:221-264 | no credits move and every order stays balanced; snapshots and final states stay; success leaves the target status, and a refunded order is never taken up again |
| Storage.Database.RefundTransition | internal/rewards/rewards_tx.go:265-315 | status and refund row in one transaction, rolled back together; every order stays balanced, so a refunded one is refunded once |
| EconomyRuns.EveryRunIsSound | internal/repository/task_v1.go:1230-1382 | every state reached by any sequence of account, memory, task, payment and redemption transactions satisfies the task, payment, redemption and audience invariants, with no assumption on the provider |
| EconomyRuns.HonestRunsKeepFacts | internal/payment/creem_adjustments.go:309-365 | as long as an object id speaks of one payment, the facts on file belong to paid payments, one row per object and one basis per payment |
| EconomyHistory.RunsExtend | internal/repository/task_v1.go:133-148 | every later state only extends an earlier one, over all runs: ledger prefix, versions, event logs, pins, snapshots and final states stay |
| EconomyTheorems.CreditsAreConserved | internal/repository/task_v1.go:1230-1382 | between any two moments balances plus task escrow change exactly by the ledger rows that are not task rows |
| EconomyTheorems.BooksAndCountersAgree | internal/repository/task_v1.go:1230-1382 | over every run each balance is its ledger sum and last balance_after, and each task counter is the sum that explains it, none negative |
| EconomyTheorems.EveryTaskIsClean | internal/task/invariants.go:60-262 | the task audit finds nothing in any task of any reachable state |
| EconomyTheorems.DrainedForGood | internal/repository/task_v1.go:1343-1367 | a drained task's row never changes again |
| EconomyTheorems.LogsOnlyGrow | internal/repository/task_v1.go:1076-1126 | over any run a submission's events only accumulate, chain, end in its state, and its payload is kept exactly while not terminal |
| EconomyTheorems.CausesFit | internal/task/transition.go:92-101 | over any run only a 2xx settles, only a 4xx rejects, only a failure or an expiry fails a submission |
| EconomyTheorems.BoundVersionsResolve | internal/repository/task_v1.go:133-148 | the contract version a claim is bound to always resolves to the same contract |
| EconomyTheorems.OrdersBalance | internal/rewards/rewards_tx.go:221-315 | over any run an order's rows sum to minus its cost, or to zero once rejected or cancelled, with one debit, at most one refund and an unchanged snapshot |
| LedgerOwners.EveryRowIsOwned | internal/credits/credits.go:91-143 | over every run each ledger row concerns the one account its business names, for the amount agreed: escrow rows the task's publisher, payouts the submission's agent, grants and reversals the payer, redemptions the buyer at the order's cost |
| RoomLaws.EveryRunIsGoverned | internal/repository/thread.go:387-468 | under every statement-level interleaving without an escaping promotion, each open room keeps a governor after every commit, and both caps and locks hold |
| RoomLaws.ActionCommit | internal/service/thread_kernel.go:456-798 | whatever an action decided still holds when it commits, for itself and every concurrent transaction |
| RoomLaws.CascadeCommit | internal/repository/thread.go:387-468 | committing a deactivation cascade leaves every open room governed and every concurrent decision standing |
| RoomLaws.LockingStep | internal/repository/thread.go:394-436 | the decision taken after the whole lock set is held closes exactly the rooms left without another governor |
| RoomLaws.DecisionIsSound | internal/service/thread_kernel.go:691-722 | every decided leave, removal and demotion leaves another governor; who may decide is `RoomAuthority` |
| RoomAuthority.RemoveExactly | internal/service/thread_kernel.go:615-651 | removal is decided exactly for a governor of the open room and a member who is not its last governor |
| RoomAuthority.SetRoleExactly | internal/service/thread_kernel.go:652-722 | a role change is decided exactly for a governor of the open room, a member without that role, and never takes it from the last governor |
| RoomAuthority.CloseExactly | internal/service/thread_kernel.go:739-798 | a close is decided exactly for a governor of the open room |
| RoomAuthority.LeaveExactly | internal/service/thread_kernel.go:554-614 | leaving is decided exactly for a member who is not the last governor of the open room |
| RoomAuthority.JoinExactly | internal/service/thread_kernel.go:456-553 | joining is decided exactly in an open room below 50 members, for no member, in fewer than 100 open rooms |
| RoomAuthority.OrphansExactly | internal/repository/thread.go:387-418 | a cascade decides to close exactly the open rooms its account governs alone |
| RoomAuthority.CommitWrites | internal/service/thread_kernel.go:456-798 | what each decided change writes, and that every other member row stays |
| RoomAuthority.EveryRunIsAuthorised | internal/service/thread_kernel.go:250-276 | under every interleaving, overtaking promotions included, whoever decided over others still governs the open room until the commit |
| RoomAuthority.OnlyGovernorsGovern | internal/service/thread_kernel.go:250-276 | over every run an action of someone who does not govern the room moves no one else's row there, raises no role and closes no room |
| RoomLaws.CommitGovernsExactly | internal/repository/thread.go:419-468 | a cascade's commit leaves every open room governed if and only if no open room outside its lock set is governed by the account alone |
| RoomEscapes.EndangersExactly | internal/repository/thread.go:387-468 | in any invariant state a step is an escaping promotion if and only if some continuation without another one leaves an open room without a governor |
| RoomEscapes.SafeExactlyWhenOrderly | internal/repository/thread.go:387-468 | along any run no promotion escapes if and only if no state on the way can lose an open room's last governor |
| RoomEscapes.ActionGovernsExactly | internal/service/thread_kernel.go:456-798 | an action's commit, whatever was committed since its decision, leaves every open room governed unless it takes the role from the only governor of an open room |
| RoomLaws.PromotionOvertakesCascade | internal/repository/thread.go:387-468 | a concrete run with a promotion between decision and deletion, ended by the cascade's commit, that leaves an open room without a governor |
| RoomEscapes.DepartureCommitsLast | internal/service/thread_kernel.go:554-651 | a concrete run in which the cascade's commit leaves every room governed and a leave decided before it then empties one |
| AssignmentLaws.EveryRunIsOk | internal/repository/thread.go:843-1043 | in every reachable state a delivery row exists exactly when delivered was reached, its verdict exactly when adopted or rejected, forfeited means delivered or undecided |
| AssignmentLaws.LifeOfAnAssignment | internal/repository/thread.go:843-1043 | from its creation an assignment keeps its terms, changes state at most as often as its rank allows (three), and a forfeited one ends undecided |
| AssignmentLaws.EveryEdgeFalls | internal/repository/thread.go:843-1043 | every edge strictly lowers the rank open, taken, delivered, terminal |
| AssignmentLaws.DeliveriesAreFinal | internal/repository/thread.go:866-890 | a delivery is written once and its content never changes |
| AssignmentLaws.ExpiryBeatsDelivery | internal/service/assign.go:245-387 | past its delivery deadline a taken assignment can only time out or be voided |
| AssignmentLaws.ClosedRoomStaysQuiet | internal/service/thread_kernel.go:739-798 | after an explicit close a room never again holds a pending receipt or undelivered work |
| AssignmentLaws.CascadeQuietsExactly | internal/repository/thread.go:419-460 | a room closed by the deactivation cascade has nothing pending left if and only if every pending receipt was the account's and every undelivered assignment had it on one side |
| AssignmentLaws.CascadeLeavesReceipts | internal/repository/thread.go:419-460 | a board on which the cascade closes a room and leaves another member's receipt pending |
| AssignmentLaws.EndStep | internal/service/thread_kernel.go:554-651 | ending a membership voids undelivered work on both sides, forfeits judgments and collects receipts, keeping the invariant |
| AssignmentLaws.PostStep | internal/service/thread_state.go:215-330 | an entry adds its receipts and assignment for members only and keeps the invariant |
| BoardAnswers.TakeExactly | internal/service/assign.go:181-244 | only the addressee takes what is on offer; both clocks start now and the carrying entry is answered |
| BoardAnswers.SubmitExactly | internal/service/assign.go:245-296 | only the taker delivers, before its clock runs out; the judging clock starts with the delivery |
| BoardAnswers.JudgeExactly | internal/service/assign.go:297-352 | only the creator judges, unforfeited and before the judging clock runs out |
| BoardAnswers.DropAndVoidExactly | internal/service/assign.go:353-426 | only the taker drops in time, only the creator voids before delivery |
| BoardAnswers.RecoverExactly | internal/repository/thread.go:987-1043 | the sweeper moves exactly the listed rows that are due |
| BoardAnswers.PostExactly | internal/service/thread_state.go:117-330 | exactly who may post what to whom, and which due times an assignment may carry |
| BoardAnswers.PostWrites | internal/service/thread_state.go:215-330 | an entry adds its receipts and its assignment on offer, and answers the author's own receipt for the entry it replies to |
| BoardAnswers.HandleExactly | internal/service/thread_state.go:388-443 | a member handles exactly its own pending receipts in an open room |
| BoardAnswers.EndExactly | internal/service/thread_kernel.go:554-651 | exactly what the end of a membership collects, voids and forfeits |
| BoardAnswers.DeactivateExactly | internal/repository/thread.go:419-468 | exactly what a deactivation collects, voids, forfeits and closes |
| BoardAnswers.CloseExactly | internal/service/thread_kernel.go:739-798 | exactly what an explicit close withdraws and voids |
| RoomStore.RoomTables.TakeAssignmentCAS | internal/repository/thread.go:843-865 | open to taken for the addressed assignee, starting the delivery clock, or nothing |
| RoomStore.RoomTables.InsertAssignmentDelivery | internal/repository/thread.go:866-890 | delivery row and taken to delivered together, or neither |
| RoomStore.RoomTables.JudgeAssignmentCAS | internal/repository/thread.go:891-916 | verdict on assignment and delivery for an unforfeited delivered one, or nothing |
| RoomStore.RoomTables.SetAssignmentStateCAS | internal/repository/thread.go:917-929 | one guarded transition or nothing |
| RoomStore.RoomTables.AssignTake | internal/service/assign.go:181-244 | take, receipt and optional delivery in one transaction; on success the assignment moves by a legal edge, its clock starts now, and the board's invariant is kept |
| RoomStore.RoomTables.AssignSubmit | internal/service/assign.go:245-296 | guards in order, then the delivery, by a legal edge before its deadline, keeping the board's invariant |
| RoomStore.RoomTables.AssignJudge | internal/service/assign.go:297-352 | guards in order, then the verdict, which the delivery shows, by a legal edge before its deadline |
| RoomStore.RoomTables.AssignDrop | internal/service/assign.go:353-387 | guards in order, then taken to dropped, before its deadline, keeping the board's invariant |
| RoomStore.RoomTables.AssignVoid | internal/service/assign.go:388-426 | guards in order, then voided, keeping the board's invariant |
| RoomStore.RoomTables.RecoverAssigns | internal/repository/thread.go:987-1043 | afterwards no listed row is still taken past its delivery deadline or undecided past its judging deadline, other rows are untouched, and the board's invariant and history are kept |
| RoomStore.RoomTables.ThreadClose | internal/service/thread_kernel.go:739-798 | a successful close leaves the room without pending receipts or undelivered work, keeping the board's invariant; a failure changes nothing |
| RoomStore.RoomTables.TerminateAccountThreadMemberships | internal/repository/thread.go:419-468 | the account is left without membership, pending receipt or undelivered work, and a room the cascade closes is quiet exactly when only the account was waited for |
| Turns.DeliverItemsAreDeliverable | internal/repository/thread.go:1098-1107 | a deliver item is listed exactly when submitting it would succeed |
| Turns.JudgeItemsAreJudgeable | internal/repository/thread.go:1108-1119 | a judge item is listed exactly when judging it would succeed |
| Turns.MembershipHidesNothing | internal/repository/thread.go:1108-1119 | the membership join never hides an unforfeited judgment |
| Turns.ReplyItemsNeedAnOpenRoom | internal/repository/thread.go:1090-1097 | a listed reply can be handled if and only if its room is open |
| Turns.CascadeStrandsAReply | internal/repository/thread.go:419-460 | a concrete cascade after which a reply is listed but cannot be handled |
| Turns.OpenItemsMatchTheList | internal/repository/thread.go:1353-1380 | the per-room count equals the length of the room-scoped list |
| BoardAnswers.ListExactly | internal/repository/thread.go:1086-1130 | exactly what an account's list shows: pending receipts, deliverable and judgeable work, live claims |
| BoardAnswers.RoomListExactly | internal/repository/thread.go:1086-1130 | a room's list holds exactly the items of the full list that are of that room |
| Turns.PageSizeIsExact | internal/service/assign.go:427-465 | a page holds the first 50 items beyond its cursor and names a next cursor exactly when there are more |
| Turns.PageShowsLeast | internal/service/assign.go:427-465 | a page shows in order exactly the items beyond its cursor up to the next cursor |
| Turns.OpenThroughoutIsShownOnce | internal/repository/thread.go:1086-1130 | following the cursor shows every obligation that stays open exactly once, whatever settles or appears between pages |
| Turns.WalkAscends | internal/repository/thread.go:1086-1130 | what the pages show together is strictly ascending, so nothing is shown twice |
| Memory.EveryRunIsChained | internal/repository/kungfu.go:159-207 | under every interleaving the archive holds exactly revisions 1 to r - 1 and every pin names an existing version |
| Memory.UpdateAppends | internal/repository/kungfu.go:159-207 | an update that commits appends exactly its document to exactly its memory |
| Memory.AppendOnly | internal/repository/kungfu.go:159-229 | any later list of versions extends any earlier one |
| Memory.ReadsTheList | internal/repository/kungfu.go:208-229 | reading a version returns that element of the list, and exactly revisions 1 to r exist |
| Memory.PinnedReadsAreStable | internal/repository/thread.go:711-756 | a pinned version reads the same forever; its author keeps it through updates and withdrawal, others see it or nothing |
| Memory.TwoStatementRead | internal/service/kungfu_read.go:232-258 | reading the row and then the archive, with anything in between, reads the same version |
| MemoryAnswers.PrivateStaysPrivate | internal/repository/thread.go:711-756 | over every run an entry shows another's memory exactly while that is active and public, and its author's own always |
| MemoryAnswers.ExpandExactly | internal/repository/thread.go:711-756 | exactly when an entry shows its pinned version, and which |
| MemoryAnswers.PostExactly | internal/service/thread_state.go:117-215 | a post pins the current revision of an active memory that is its author's own or public, and no other |
| MemoryAnswers.OnlyOwnersChange | internal/service/kungfu_manage.go:78-250 | whatever interleaves, a memory's row changes only by a transaction of its owner |
| MemoryAnswers.UpdateRunsThrough | internal/service/kungfu_manage.go:78-103 | an owner's update that meets nobody appends its document in three statements; anyone else's ends where it began |
| Memory.MemoryTables.PushUpdate | internal/service/kungfu_manage.go:78-103 | lock, archive and overwrite append one version, or change nothing |
| Memory.MemoryTables.ArchiveKungfuRevision | internal/repository/kungfu.go:195-207 | archives the current row once; a second archive of the same revision aborts |
| Memory.MemoryTables.FindKungfuRevision | internal/repository/kungfu.go:208-229 | finds exactly the versions before the current one |
| AdminPlane.EveryRunKeepsASuperadmin | internal/admin/management.go:177-232 | under every interleaving of admin requests at least one active superadmin remains |
| AdminPlane.NoEscalation | internal/admin/management.go:37-54 | requests by admins outside the superadmins never change superadmin membership, never hand out the wildcard and never touch a superadmin's credentials |
| AdminPlane.WildcardIsMembership | internal/repository/admin.go:178-200 | the wildcard is held through the superadmin role and in no other way |
| AdminPlane.CheckStands | internal/admin/management.go:618-707 | what a check established under its locks holds until the commit |
| AdminPlane.CountedAfterReplacement | internal/admin/management.go:686-702 | counting after the replacement finds another active superadmin that was there before |
| AdminPlane.OthersStand | internal/admin/management.go:177-707 | no commit invalidates what a concurrent request has checked |
| AdminAnswers.DisableExactly | internal/admin/management.go:177-232 | disabling succeeds exactly for whoever may touch the account and another active superadmin remaining; it deactivates and raises the version by one, or leaves a disabled account alone |
| AdminAnswers.ResetExactly | internal/admin/management.go:312-362 | a password reset and a forced logout raise the version by one, for whoever may touch the account |
| AdminAnswers.SetRolesExactly | internal/admin/management.go:618-707 | exactly when an admin's roles are replaced, and that they are then exactly the ones named, others untouched |
| AdminAnswers.RolesExactly | internal/admin/management.go:426-586 | custom roles alone are switched, and take exactly catalog permissions without the wildcard |
| AdminAnswers.PermissionsExactly | internal/repository/admin.go:178-200 | an admin has exactly the permissions of its active roles |
| AdminAnswers.EveryRunRaises | internal/admin/session.go:230-238 | under every interleaving versions never fall and each deactivation raises one |
| AdminAnswers.DisabledNeverReturns | internal/admin/management.go:177-268 | an admin that was disabled is from then on at a higher version than before, whoever enables it again |
| AdminAnswers.RequestRunsThrough | internal/admin/management.go:177-707 | a request that meets nobody commits all of its change when allowed and nothing when not |
| AdminStore.CollapseIds | internal/admin/management.go:622-637 | any non-positive id fails the request; otherwise duplicates collapse and nothing else changes |
| AdminStore.AdminTables.DisableAdmin | internal/admin/management.go:177-232 | success leaves the account inactive at exactly the next version, or a disabled one as it was, and no other row changes; guards in the source's order |
| AdminStore.AdminTables.EnableAdmin | internal/admin/management.go:236-268 | the account is active under the version it had, so no revoked session comes back, and no active superadmin is lost |
| AdminStore.AdminTables.ReplaceAdminUserRoles | internal/repository/admin.go:553-567 | delete and reinsert leave exactly the new bindings of that admin |
| AdminStore.AdminTables.SetAdminRoles | internal/admin/management.go:618-707 | validation, membership guard, replacement and the count afterwards, rolled back when none remains |
| AdminStore.AdminTables.SetRolePermissions | internal/admin/management.go:520-586 | blank codes refused, system roles and the wildcard refused, bindings replaced |
| AdminStore.AdminTables.UpdateRole | internal/admin/management.go:426-515 | a superadmin role change always fails, and whatever succeeds leaves wildcard holders and active superadmins as they were |
| Sessions.StaleNeverResolves | internal/admin/identity.go:79-141 | a session whose credential check preceded a version bump never resolves after it, in any order of statements and whatever is enabled later |
| SessionAnswers.ResolvesExactly | internal/admin/session.go:130-178 | a session admits a request exactly when not revoked, inside 12 hours of login, seen in the last 30 minutes, and its admin active at its version |
| SessionAnswers.EndedForGood | internal/admin/session.go:130-178 | once revoked, outdated or over, a session never admits a request again, whatever follows |
| Sessions.ShortGapsKeepAlive | internal/admin/session.go:130-190 | gaps of at most 25 minutes keep an otherwise valid session alive until its absolute expiry |
| Sessions.LongGapEnds | internal/admin/session.go:159-163 | a gap of 30 minutes or more always ends it |
| Sessions.MiddleGapsDependOnTheTouch | internal/admin/session.go:159-178 | for every gap in between, one history survives it and another does not |
| SessionTouches.LateTouchesKeepAlive | internal/admin/session.go:159-178 | with overlapping requests whose touches are written within a delay below five minutes, gaps of at most 25 minutes less the delay never idle an otherwise valid session out |
| SessionTouches.OneSecondMoreEnds | internal/admin/session.go:159-178 | for every such delay, gaps one second longer can end a session in use |
| SessionTouches.TouchMovesBack | internal/repository/admin.go:114-119 | two overlapping touches written in the other order move the time last seen back |
| Sessions.SessionTables.ReadCredential | internal/admin/identity.go:86-97 | the credential read keeps the version as it was then |
| Sessions.SessionTables.StoreSession | internal/admin/identity.go:108-118 | the session is inserted with the version read at the credential check |
| Sessions.SessionTables.ResolveSession | internal/admin/session.go:130-178 | admits exactly the valid sessions and touches them at most every five minutes |
| Sessions.SessionTables.BumpAuthVersionAndRevokeSessions | internal/admin/session.go:230-238 | version bump and revocation of every session of the account |
| RateLimit.EveryRunAgrees | internal/ratelimit/ratelimit.go:104-182 | after any checks, inspections and collections in clock order the pruned store answers every window like the full history |
| RateLimit.CheckIsExact | internal/ratelimit/ratelimit.go:136-160 | a check passes exactly when the full history holds fewer than limit requests in the window |
| RateLimit.AtMostLimitPerWindow | internal/ratelimit/ratelimit.go:136-160 | no interval of the window's length holds more than limit allowed requests |
| RateLimit.RetryAfterIsExact | internal/ratelimit/ratelimit.go:194-215 | for limits of at least one, a refusal's retry_after is exactly the least wait after which a check passes |
| RateLimit.ZeroLimitNeverPasses | internal/ratelimit/ratelimit.go:194-215 | with a limit of zero or less nothing passes and an empty window reports no wait |
| RateLimit.CollectorForgetsLongWindows | internal/ratelimit/ratelimit.go:104-117 | for every window beyond thirty days the collector forgets a request the window still counts |
| RateLimit.StoredIsTheTail | internal/ratelimit/ratelimit.go:136-192 | calls that take the lock out of clock order, by less than the window, leave exactly the history after the largest cutoff applied |
| RateLimit.SwappedCheckCounts | internal/ratelimit/ratelimit.go:136-192 | such a call counts what the full history would if and only if no allowed request lies between its own cutoff and the largest one |
| RateLimit.SwapForgets | internal/ratelimit/ratelimit.go:136-192 | for every window of at least two seconds, two checks after which an earlier reading misses a request the history still counts |
| RateLimit.Limiter.DoCheck | internal/ratelimit/ratelimit.go:136-160 | one check changes one key as specified and reports the outcome |
| RateLimit.Limiter.DoInspect | internal/ratelimit/ratelimit.go:163-181 | an inspection reports without recording |
| RateLimit.Limiter.GC | internal/ratelimit/ratelimit.go:104-117 | prunes every key to thirty days and leaves no empty key in the map |
| RateLimit.Limiter.FilterWindow | internal/ratelimit/ratelimit.go:183-192 | keeps exactly the timestamps after the cutoff, in order |
| RateLimit.Limiter.FormatResult | internal/ratelimit/ratelimit.go:194-215 | the minimum loop computes the wait until the oldest request leaves |
| AddressPolicy.BestIsExact | internal/delivery/ssrf.go:246-253 | the scan answers exactly the one longest matching row |
| AddressPolicy.OrderDoesNotMatter | internal/delivery/ssrf.go:82-145 | the order of the rows, or repeating one, changes no answer |
| AddressPolicy.ProductionIsConsistent | internal/delivery/ssrf.go:82-145 | the registry describes no block twice |
| AddressPolicy.VerdictIsTheLongestMatch | internal/delivery/ssrf.go:232-271 | the verdict is the flag of the unique longest match, or for unlisted addresses IPv4 or an allocated IPv6 prefix |
| AddressPolicy.EmbeddedFormsShareTheVerdict | internal/delivery/ssrf.go:232-241 | IPv4-mapped and NAT64 forms get the verdict of the embedded IPv4 address |
| AddressPolicy.ZonedIsRefused | internal/delivery/ssrf.go:232-271 | a zoned IPv6 address is refused unless it is IPv4-mapped |
| AddressFacts.Public4Exactly | internal/delivery/ssrf.go:82-145 | exactly which IPv4 addresses may be dialled, as intervals: all outside the special blocks, and two anycast addresses |
| AddressFacts6.Public6Exactly | internal/delivery/ssrf.go:82-230 | exactly which IPv6 addresses may be dialled, as intervals: the reachable exceptions, and allocated space outside the special blocks |
| AddressFacts6.OnlyGlobalUnicast | internal/delivery/ssrf.go:201-271 | no IPv6 address outside 2000::/3 is dialled, embedded IPv4 forms aside |
| AddressPolicy.TargetsAreValidated | internal/delivery/ssrf.go:394-419 | targets exist only if every resolved address is usable, and are then exactly their unmapped forms, once each |
| AddressPolicy.TargetsKeepOrder | internal/delivery/ssrf.go:394-419 | targets keep the resolver's order of first appearance |
| AddressPolicy.PolicyAllowsAddr | internal/delivery/ssrf.go:232-271 | the loop and its recursion compute the policy |
| AddressPolicy.IsAllocatedGlobalUnicast | internal/delivery/ssrf.go:201-208 | the scan finds exactly the listed addresses |
| AddressPolicy.CollectTargets | internal/delivery/ssrf.go:394-419 | the validation loop with its seen set computes the targets |
| AddressPolicy.HardenedDial | internal/delivery/ssrf.go:363-434 | dials only validated targets in order, and nothing if any address is unusable |
| Lifecycle.ClosersRunOnceAndLast | cmd/server/lifecycle.go:75-114 | over all interleavings closers run at most once, only after every worker has exited, exactly once when shutdown is over, for one cause |
| Lifecycle.ReportsNeverBlock | cmd/server/lifecycle.go:193-206 | a panicked worker always finds room for its one report |
| Lifecycle.SmallerBufferHangs | cmd/server/lifecycle.go:193-206 | with two workers and one slot, a run exists after which no further moves of any kind ever change the state or finish shutdown |
| Lifecycle.NoNewPassAfterStop | cmd/server/lifecycle.go:209-221 | once its stop channel is closed a worker begins no pass except one already past its check |
| Lifecycle.LatePassExactly | cmd/server/lifecycle.go:209-221 | once its stop channel is closed, a worker can still begin a pass if and only if it is already past its check |
| Lifecycle.PassBeginsAfterStop | cmd/server/lifecycle.go:209-221 | a run from the start whose only pass begins after its stop channel was closed |
| Lifecycle.EveryStepCounts | cmd/server/lifecycle.go:75-114 | once stop channels are closed every step lowers a bound on the steps left |
| Lifecycle.SomeoneCanMove | cmd/server/lifecycle.go:75-114 | until shutdown is over someone can always move, so it neither hangs nor runs forever |

## Left out

- HTTP and MCP handlers, request validation of text fields beyond what steers money or state, localisation, web assets.
- The payment provider's client, webhook signatures, hashing and encryption: facts and hashes are inputs.
- The PostgreSQL engine: atomic commit and rollback, row locks held to commit, a fresh snapshot per statement and the named uniqueness constraints are assumed.
- Public codes are identified with row ids; code generation and its collisions are not modelled.
- Revisions of submissions, replies, reports and receiver-fault pausing of tasks: they move no money and no state beyond what `EconomyRuns.TaskOp` has.
- Memory texts in the economy: there a memory is its owner, whether it is active, and its revision, which is what pins read; its versions are modelled in `Memory`.
- Priced actions other than tasks, payments and redemptions are the one operation `EconomyRuns.Charge`.
- ReversalHistory.ReversedIsExpected: excludes runs in which an accepted fact crosses the payment, where it fails (`ReversalHistory.StrayIsNotReversed`); `ReversalHistory.OrderDoesNotMatter` likewise.
- RoomLaws.EveryRunIsGoverned: excludes exactly the promotions after which the property can fail, as `RoomEscapes.EndangersExactly` shows.
- Deadlocks: PostgreSQL aborts one party, which is the `Abort` step of `Rooms`; that none happens is not claimed.
- Room keys, entry texts and idempotency receipts of room actions; a join carries the role its key grants.
- Notification outbox rows: best effort by design.
- Assignments: each action is one step; the room and account locks that make it so are modelled in `Rooms` only.
- Turns.OpenThroughoutIsShownOnce: the cursor's time component is a number instead of the fixed-width text that orders the same way.
- Admin role codes and names, display names, passwords and audit rows; a session's two clocks are taken as one.
- Sessions: a request is one step; its read and its touch as two statements are `SessionTouches`, which follows the idle clock of one session alone. A touch that fails fails its request and is not modelled.
- RateLimit.EveryRunAgrees: assumes that calls take the lock in clock order, though the code reads the clock before it locks; `RateLimit.SwappedCheckCounts` says what changes when they swap by less than the window. Timestamps are unbounded integers.
- The registry rows in `AddressPolicy` are listed by prefix length instead of address; `AddressPolicy.OrderDoesNotMatter` shows that this changes no answer. The test-only loopback override is off.
- Lifecycle: the HTTP drain is one step, worker passes end or panic, and the goroutine that serves is only its trigger; the loops of the shutdown body are its steps, not an imperative method.
- Median and percentile statistics, text search and page-size clamping.
