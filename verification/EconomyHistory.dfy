/**
 What time cannot undo: every later state extends every earlier one. Ledger rows, contract
 versions, submission events, order snapshots and final states stay as they were recorded.
 */
module EconomyHistory {
  import opened Int64
  import opened Results
  import opened Credits
  import opened Schema
  import opened TaskKernel
  import opened TaskStore
  import opened TaskLaws
  import opened Payments
  import opened RewardLaws
  import opened EconomyRuns

  // -- one row, earlier and later --

  /** Counters of money that left the task only grow; a closed task stays closed, a drained one stays put. */
  predicate TaskKept(a: Task, b: Task) {
    && b.publisher == a.publisher && b.audience == a.audience
    && a.version <= b.version && (a.version == b.version ==> b.contract == a.contract)
    && a.locked <= b.locked && a.settled <= b.settled && a.refunded <= b.refunded
    && (a.status == Closed ==> b.status == Closed)
    && (Drained(a) ==> b == a)
  }

  predicate ClaimKept(a: Claim, b: Claim) {
    && b.task == a.task && b.agent == a.agent && b.version == a.version
    && b.amount == a.amount && b.deadline == a.deadline && b.pins == a.pins
    && (a.status != Active ==> b == a)
  }

  predicate SubmissionKept(a: Submission, b: Submission) {
    && b.task == a.task && b.agent == a.agent && b.requestKey == a.requestKey && b.payloadHash == a.payloadHash
    && b.amount == a.amount && b.claim == a.claim && b.version == a.version
    && a.log <= b.log
    && (Terminal(a.state) ==> b == a)
  }

  predicate PaymentKept(a: Payment, b: Payment) {
    && b.bot == a.bot && b.provider == a.provider && b.amountMinor == a.amountMinor
    && b.currency == a.currency && b.credits == a.credits
    && (a.order.Some? ==> b.order == a.order)
    && (a.status != Pending ==> b.status == a.status)
  }

  predicate AdjustmentKept(a: Adjustment, b: Adjustment) {
    && b.payment == a.payment && b.event == a.event && b.transaction == a.transaction && SameObject(a, b)
    && (a.refunded.Some? ==> b.refunded.Some? && a.refunded.value <= b.refunded.value)
  }

  /** A withdrawn memory is not revived, and revisions only rise. */
  predicate MemoryKept(a: Memory, b: Memory) {
    b.owner == a.owner && a.revision <= b.revision && (b.active ==> a.active)
  }

  predicate OrderKept(a: Redemption, b: Redemption) {
    && Snapshot(b) == Snapshot(a)
    && (a.status in {Declined, Fulfilled, Cancelled} ==> b == a)
  }

  // -- one table --

  ghost predicate TasksKept(a: seq<Task>, b: seq<Task>) {
    |a| <= |b| && forall i :: 0 <= i < |a| ==> TaskKept(a[i], b[i])
  }

  ghost predicate ClaimsKept(a: seq<Claim>, b: seq<Claim>) {
    |a| <= |b| && forall i :: 0 <= i < |a| ==> ClaimKept(a[i], b[i])
  }

  ghost predicate SubmissionsKept(a: seq<Submission>, b: seq<Submission>) {
    |a| <= |b| && forall i :: 0 <= i < |a| ==> SubmissionKept(a[i], b[i])
  }

  ghost predicate PaymentsKept(a: seq<Payment>, b: seq<Payment>) {
    |a| <= |b| && forall i :: 0 <= i < |a| ==> PaymentKept(a[i], b[i])
  }

  ghost predicate AdjustmentsKept(a: seq<Adjustment>, b: seq<Adjustment>) {
    |a| <= |b| && forall i :: 0 <= i < |a| ==> AdjustmentKept(a[i], b[i])
  }

  ghost predicate MemoriesKept(a: seq<Memory>, b: seq<Memory>) {
    |a| <= |b| && forall i :: 0 <= i < |a| ==> MemoryKept(a[i], b[i])
  }

  ghost predicate OrdersKept(a: seq<Redemption>, b: seq<Redemption>) {
    |a| <= |b| && forall i :: 0 <= i < |a| ==> OrderKept(a[i], b[i])
  }

  /** A contract version, once published, always resolves to the same contract. */
  ghost predicate VersionsKept(a: map<(nat, nat), Contract>, b: map<(nat, nat), Contract>) {
    forall k :: k in a ==> k in b && b[k] == a[k]
  }

  ghost predicate BooksKept(a: Books, b: Books) {
    a.ledger <= b.ledger && |a.balances| <= |b.balances|
  }

  ghost predicate WorkKept(a: Economy, b: Economy) {
    && TasksKept(a.tasks, b.tasks)
    && ClaimsKept(a.claims, b.claims)
    && SubmissionsKept(a.submissions, b.submissions)
    && VersionsKept(a.versions, b.versions)
  }

  ghost predicate Extends(a: Economy, b: Economy) {
    && BooksKept(a.books, b.books)
    && WorkKept(a, b)
    && PaymentsKept(a.payments, b.payments)
    && AdjustmentsKept(a.adjustments, b.adjustments)
    && OrdersKept(a.redemptions, b.redemptions)
    && MemoriesKept(a.memories, b.memories)
  }

  lemma ExtendsIsTransitive(a: Economy, b: Economy, c: Economy)
    requires Extends(a, b) && Extends(b, c)
    ensures Extends(a, c)
  {
    assert forall i :: 0 <= i < |a.tasks| ==> TaskKept(a.tasks[i], b.tasks[i]) && TaskKept(b.tasks[i], c.tasks[i]);
    assert forall i :: 0 <= i < |a.submissions| ==>
                         SubmissionKept(a.submissions[i], b.submissions[i]) && SubmissionKept(b.submissions[i], c.submissions[i]);
  }

  // -- every step --

  /** A new task and a new contract version both take an unused key. */
  lemma CreateKeeps(e: Economy, publisher: nat, contract: Contract, budget: int64)
    requires Versioned(e.tasks, e.versions) && CreateTask(e, publisher, contract, budget).Ok?
    ensures WorkKept(e, CreateTask(e, publisher, contract, budget).value)
  {
  }

  lemma UpdateKeeps(e: Economy, publisher: nat, t: nat, contract: Contract)
    requires Versioned(e.tasks, e.versions) && UpdateTask(e, publisher, t, contract).Ok?
    ensures WorkKept(e, UpdateTask(e, publisher, t, contract).value)
  {
  }

  lemma PublisherStepKeeps(e: Economy, op: TaskOp)
    requires (op.Status? || op.Fund? || op.Refund?) && StepTask(e, op).Ok?
    ensures WorkKept(e, StepTask(e, op).value)
  {
  }

  /** A live claim's task is never drained, so its row may still move. */
  lemma EndClaimKeeps(e: Economy, c: nat, event: ClaimEvent)
    requires TaskInvariant(e) && c < |e.claims| && e.claims[c].status == Active && EndClaim(e, c, event).Ok?
    ensures WorkKept(e, EndClaim(e, c, event).value)
  {
    ClaimIsReserved(e, c);
  }

  lemma BindKeeps(e: Economy, claim: Claim, pins: seq<Pin>)
    requires BindClaim(e, claim, pins).Ok? && claim.task < |e.tasks| && e.tasks[claim.task].status != Closed
    ensures WorkKept(e, BindClaim(e, claim, pins).value)
  {
  }

  lemma WorkIsTransitive(a: Economy, b: Economy, c: Economy)
    requires WorkKept(a, b) && WorkKept(b, c)
    ensures WorkKept(a, c)
  {
    assert forall i :: 0 <= i < |a.tasks| ==> TaskKept(a.tasks[i], b.tasks[i]) && TaskKept(b.tasks[i], c.tasks[i]);
    assert forall i :: 0 <= i < |a.submissions| ==>
                         SubmissionKept(a.submissions[i], b.submissions[i]) && SubmissionKept(b.submissions[i], c.submissions[i]);
  }

  lemma EndClaimKeepsStatus(e: Economy, c: nat, event: ClaimEvent)
    requires c < |e.claims| && EndClaim(e, c, event).Ok?
    ensures var e' := EndClaim(e, c, event).value;
            |e'.tasks| == |e.tasks| && forall t :: 0 <= t < |e.tasks| ==> e'.tasks[t].status == e.tasks[t].status
  {
  }

  lemma SweepAndBindKeeps(e: Economy, c: nat, claim: Claim, pins: seq<Pin>)
    requires TaskInvariant(e) && c < |e.claims| && e.claims[c].status == Active
    requires claim.task < |e.tasks| && e.tasks[claim.task].status != Closed
    requires EndClaim(e, c, ClaimExpire).Ok? && BindClaim(EndClaim(e, c, ClaimExpire).value, claim, pins).Ok?
    ensures WorkKept(e, BindClaim(EndClaim(e, c, ClaimExpire).value, claim, pins).value)
  {
    var swept := EndClaim(e, c, ClaimExpire).value;
    EndClaimKeeps(e, c, ClaimExpire);
    EndClaimKeepsStatus(e, c, ClaimExpire);
    BindKeeps(swept, claim, pins);
    WorkIsTransitive(e, swept, BindClaim(swept, claim, pins).value);
  }

  lemma ClaimStepKeeps(e: Economy, agent: nat, t: nat, now: int)
    requires TaskInvariant(e) && ClaimTask(e, agent, t, now).Ok?
    ensures WorkKept(e, ClaimTask(e, agent, t, now).value)
  {
    var held := FindActiveClaim(e.claims, t, agent);
    if held.None? || e.claims[held.value].expiresAt <= now {
      ClaimedIsFresh(e, agent, t, now);
      ClaimPath(e, agent, t, now);
      FreshClaimKeeps(e, ClaimFor(e.tasks[t], agent, t, now, []), held, PinsOf(e, t));
    }
  }

  /** The sweep of an expired claim, if there is one, and the new claim. */
  lemma FreshClaimKeeps(e: Economy, claim: Claim, held: Option<nat>, pins: seq<Pin>)
    requires TaskInvariant(e) && claim.task < |e.tasks| && e.tasks[claim.task].status != Closed
    requires held.Some? ==> held.value < |e.claims| && e.claims[held.value].status == Active
    requires var swept := if held.Some? then EndClaim(e, held.value, ClaimExpire) else Ok(e);
             swept.Ok? && BindClaim(swept.value, claim, pins).Ok?
    ensures var swept := if held.Some? then EndClaim(e, held.value, ClaimExpire) else Ok(e);
            WorkKept(e, BindClaim(swept.value, claim, pins).value)
  {
    if held.Some? {
      SweepAndBindKeeps(e, held.value, claim, pins);
    } else {
      BindKeeps(e, claim, pins);
    }
  }

  lemma IntakeKeeps(e: Economy, agent: nat, t: nat, key: string, payload: string, hash: string, now: int)
    requires t < |e.tasks| && SubmitWithoutClaim(e, agent, t, key, payload, hash, now).Ok?
    ensures WorkKept(e, SubmitWithoutClaim(e, agent, t, key, payload, hash, now).value)
  {
    IntakePath(e, agent, t, key, payload, hash, now);
  }

  lemma SubmitUnderClaimKeeps(e: Economy, agent: nat, t: nat, key: string, payload: string, hash: string, c: nat, now: int)
    requires t < |e.tasks| && SubmitUnderClaim(e, agent, t, key, payload, hash, c, now).Ok?
    ensures WorkKept(e, SubmitUnderClaim(e, agent, t, key, payload, hash, c, now).value)
  {
  }

  lemma SubmitStepKeeps(e: Economy, agent: nat, t: nat, key: string, payload: string, hash: string, c: Option<nat>, now: int)
    requires SubmitWork(e, agent, t, key, payload, hash, c, now).Ok?
    ensures WorkKept(e, SubmitWork(e, agent, t, key, payload, hash, c, now).value)
  {
    SubmitPath(e, agent, t, key, payload, hash, c, now);
    if FindByIdentity(e.submissions, t, agent, key).None? {
      match c
      case None => IntakeKeeps(e, agent, t, key, payload, hash, now);
      case Some(claim) => SubmitUnderClaimKeeps(e, agent, t, key, payload, hash, claim, now);
    }
  }

  lemma OutcomeKeeps(e: Economy, s: nat, pre: SubmissionState, event: SubmissionEvent, at: int)
    requires WriteDeliveryOutcome(e, s, pre, event, at).Ok?
    requires e.submissions[s].task < |e.tasks| && e.submissions[s].amount > 0
    requires !Terminal(e.submissions[s].state) ==> e.tasks[e.submissions[s].task].reserved > 0
    ensures WorkKept(e, WriteDeliveryOutcome(e, s, pre, event, at).value)
  {
  }

  lemma OutcomeStepKeeps(e: Economy, s: nat, pre: SubmissionState, event: SubmissionEvent, at: int)
    requires TaskInvariant(e) && WriteDeliveryOutcome(e, s, pre, event, at).Ok?
    ensures WorkKept(e, WriteDeliveryOutcome(e, s, pre, event, at).value)
  {
    if !Terminal(e.submissions[s].state) {
      SubmissionIsReserved(e, s);
    }
    OutcomeKeeps(e, s, pre, event, at);
  }

  lemma RenewKeeps(e: Economy, agent: nat, c: nat, now: int)
    requires TaskInvariant(e) && RenewClaim(e, agent, c, now).Ok?
    ensures WorkKept(e, RenewClaim(e, agent, c, now).value)
  {
  }

  lemma ReleaseKeeps(e: Economy, agent: nat, c: nat)
    requires TaskInvariant(e) && ReleaseClaim(e, agent, c).Ok?
    ensures WorkKept(e, ReleaseClaim(e, agent, c).value)
  {
    EndClaimKeeps(e, c, ClaimRelease);
  }

  lemma ExpireKeeps(e: Economy, c: nat, now: int)
    requires TaskInvariant(e) && ExpireClaim(e, c, now).Ok?
    ensures WorkKept(e, ExpireClaim(e, c, now).value)
  {
    if c < |e.claims| && e.claims[c].status == Active && e.claims[c].expiresAt <= now {
      EndClaimKeeps(e, c, ClaimExpire);
    }
  }

  lemma TaskStepKeeps(e: Economy, op: TaskOp)
    requires TaskInvariant(e) && StepTask(e, op).Ok?
    ensures WorkKept(e, StepTask(e, op).value)
  {
    match op
    case Create(publisher, contract, budget) => CreateKeeps(e, publisher, contract, budget);
    case Update(publisher, t, contract) => UpdateKeeps(e, publisher, t, contract);
    case Claiming(agent, t, now) => ClaimStepKeeps(e, agent, t, now);
    case Renewing(agent, c, now) => RenewKeeps(e, agent, c, now);
    case Releasing(agent, c) => ReleaseKeeps(e, agent, c);
    case Expiring(c, now) => ExpireKeeps(e, c, now);
    case Submitting(agent, t, key, payload, hash, c, now) => SubmitStepKeeps(e, agent, t, key, payload, hash, c, now);
    case Outcome(s, pre, event, at) => OutcomeStepKeeps(e, s, pre, event, at);
    case _ => PublisherStepKeeps(e, op);
  }

  lemma UpsertKeeps(adjs: seq<Adjustment>, fact: Adjustment)
    requires InsertPaymentAdjustment(adjs, fact).Ok?
    ensures AdjustmentsKept(adjs, InsertPaymentAdjustment(adjs, fact).value)
  {
  }

  lemma AdjustStepKeeps(e: Economy, fact: Adjustment)
    requires RecordPaymentAdjustment(e, fact).Ok?
    ensures RecordPaymentAdjustment(e, fact).value.payments == e.payments
    ensures InsertPaymentAdjustment(e.adjustments, fact) == Ok(RecordPaymentAdjustment(e, fact).value.adjustments)
  {
  }

  lemma PaymentStepKeeps(e: Economy, op: PaymentOp)
    requires StepPayment(e, op).Ok?
    ensures PaymentsKept(e.payments, StepPayment(e, op).value.payments)
    ensures AdjustmentsKept(e.adjustments, StepPayment(e, op).value.adjustments)
  {
    if op.Adjust? {
      UpsertKeeps(e.adjustments, op.fact);
      AdjustStepKeeps(e, op.fact);
    }
  }

  lemma RewardStepKeeps(e: Economy, op: RewardOp)
    requires StepReward(e, op).Ok?
    ensures OrdersKept(e.redemptions, StepReward(e, op).value.redemptions)
  {
  }

  lemma PaymentBooksExtend(b: Books, b': Books)
    requires PaymentBooks(b, b') || RewardBooks(b, b')
    ensures BooksKept(b, b')
  {
  }

  lemma MemoryStepExtends(e: Economy, op: MemoryOp)
    requires StepMemory(e, op).Ok?
    ensures Extends(e, StepMemory(e, op).value)
  {
  }

  lemma AccountStepExtends(e: Economy, op: Op)
    requires (op.Register? || op.Charge?) && Step(e, op).Ok?
    ensures Extends(e, Step(e, op).value)
  {
  }

  lemma TaskStepExtends(e: Economy, op: TaskOp)
    requires TaskInvariant(e) && StepTask(e, op).Ok?
    ensures Extends(e, StepTask(e, op).value)
  {
    TaskStepStaysHome(e, op);
    TaskStepKeeps(e, op);
  }

  lemma PaymentStepExtends(e: Economy, op: PaymentOp)
    requires StepPayment(e, op).Ok?
    ensures Extends(e, StepPayment(e, op).value)
  {
    PaymentStepPosts(e, op);
    PaymentStepKeeps(e, op);
    PaymentBooksExtend(e.books, StepPayment(e, op).value.books);
  }

  lemma RewardStepExtends(e: Economy, op: RewardOp)
    requires StepReward(e, op).Ok?
    ensures Extends(e, StepReward(e, op).value)
  {
    RewardStepPosts(e, op);
    RewardStepKeeps(e, op);
    PaymentBooksExtend(e.books, StepReward(e, op).value.books);
  }

  lemma StepExtends(e: Economy, op: Op)
    requires TaskInvariant(e)
    ensures Extends(e, Commit(e, op))
  {
    if Step(e, op).Ok? {
      match op
      case TaskStep(t) => TaskStepExtends(e, t);
      case PaymentStep(p) => PaymentStepExtends(e, p);
      case RewardStep(r) => RewardStepExtends(e, r);
      case MemoryStep(m) => MemoryStepExtends(e, m);
      case _ => AccountStepExtends(e, op);
    }
  }

  lemma RunSplits(e: Economy, ops: seq<Op>, op: Op)
    ensures Run(e, ops + [op]) == Commit(Run(e, ops), op)
  {
    assert (ops + [op])[..|ops|] == ops;
  }

  lemma OneMoreExtends(ops: seq<Op>, op: Op)
    ensures Extends(Run(EMPTY, ops), Run(EMPTY, ops + [op]))
  {
    EveryRunIsSound(ops);
    RunSplits(EMPTY, ops, op);
    StepExtends(Run(EMPTY, ops), op);
  }

  /** Whatever happens next, a run only extends what it has recorded. */
  lemma {:induction false} RunsExtend(ops: seq<Op>, later: seq<Op>)
    ensures Extends(Run(EMPTY, ops), Run(EMPTY, ops + later))
  {
    if later == [] {
      assert ops + later == ops;
    } else {
      var init := later[..|later| - 1];
      RunsExtend(ops, init);
      assert ops + later == (ops + init) + [later[|later| - 1]];
      OneMoreExtends(ops + init, later[|later| - 1]);
      ExtendsIsTransitive(Run(EMPTY, ops), Run(EMPTY, ops + init), Run(EMPTY, ops + later));
    }
  }
}
