/**
 Every run of the credit economy, in any order and by anyone: the books balance, both
 auditors stay silent, and what was once recorded is never rewritten.
 */
module EconomyRuns {
  import opened Int64
  import opened Results
  import opened Credits
  import opened Schema
  import opened TaskKernel
  import opened TaskStore
  import opened TaskLaws
  import opened TaskAudience
  import opened Payments
  import opened PaymentLaws
  import opened Rewards
  import opened RewardLaws
  import Rows

  const SIGNUP_GRANT: int64 := 66

  datatype TaskOp =
    | Create(publisher: nat, contract: Contract, budget: int64)
    | Update(publisher: nat, task: nat, contract: Contract)
    | Status(owner: Option<nat>, task: nat, change: TaskEvent)
    | Fund(publisher: nat, task: nat, amount: int64)
    | Refund(publisher: nat, task: nat)
    | Claiming(agent: nat, task: nat, now: int)
    | Renewing(agent: nat, claim: nat, now: int)
    | Releasing(agent: nat, claim: nat)
    | Expiring(claim: nat, now: int)
    | Submitting(agent: nat, task: nat, key: string, payload: string, hash: string, under: Option<nat>, now: int)
    | Outcome(submission: nat, pre: SubmissionState, event: SubmissionEvent, at: int)

  datatype PaymentOp =
    | CreatePending(bot: nat, provider: string, order: Option<string>, amountMinor: int64, currency: string, credits: int64)
    | Bind(provider: string, payment: nat, bound: string)
    | Complete(payment: nat)
    | Fail(payment: nat)
    | Cancel(payment: nat)
    | Adjust(fact: Adjustment)

  datatype RewardOp =
    | AddProduct(title: string, description: string, price: int64)
    | EditProduct(product: nat, newTitle: Option<string>, newDescription: Option<string>, newPrice: Option<int64>)
    | Activate(product: nat, active: bool)
    | Ordering(bot: nat, product: nat, key: string)
    | Approve(redemption: nat, note: string)
    | Fulfil(redemption: nat, note: string)
    | Reject(redemption: nat, note: string)
    | CancelOrder(redemption: nat)

  /** What the owner of a memory does to it, as far as claims bind it. */
  datatype MemoryOp =
    | Add(holder: nat)
    | Revise(holder: nat, memory: nat)
    | Withdraw(holder: nat, memory: nat)

  /** Accounts enter with the signup grant; Charge stands for the remaining priced actions. */
  datatype Op =
    | Register
    | Charge(bot: nat, name: string, amount: int64)
    | TaskStep(task: TaskOp)
    | PaymentStep(payment: PaymentOp)
    | RewardStep(reward: RewardOp)
    | MemoryStep(change: MemoryOp)

  function StepTask(e: Economy, op: TaskOp): Result<Economy> {
    match op
    case Create(publisher, contract, budget) => CreateTask(e, publisher, contract, budget)
    case Update(publisher, t, contract) => UpdateTask(e, publisher, t, contract)
    case Status(owner, t, event) => ChangeStatus(e, owner, t, event)
    case Fund(publisher, t, amount) => FundTask(e, publisher, t, amount)
    case Refund(publisher, t) => RefundTask(e, publisher, t)
    case Claiming(agent, t, now) => ClaimTask(e, agent, t, now)
    case Renewing(agent, c, now) => RenewClaim(e, agent, c, now)
    case Releasing(agent, c) => ReleaseClaim(e, agent, c)
    case Expiring(c, now) => ExpireClaim(e, c, now)
    case Submitting(agent, t, key, payload, hash, c, now) => SubmitWork(e, agent, t, key, payload, hash, c, now)
    case Outcome(s, pre, event, at) => WriteDeliveryOutcome(e, s, pre, event, at)
  }

  function StepPayment(e: Economy, op: PaymentOp): Result<Economy> {
    match op
    case CreatePending(bot, provider, order, amountMinor, currency, credits) =>
      CreatePendingPayment(e, bot, provider, order, amountMinor, currency, credits)
    case Bind(provider, p, order) => BindProviderOrder(e, provider, p, order)
    case Complete(p) => CompletePayment(e, p)
    case Fail(p) => TerminatePayment(e, p, PaymentFailed)
    case Cancel(p) => TerminatePayment(e, p, PaymentCancelled)
    case Adjust(fact) => RecordPaymentAdjustment(e, fact)
  }

  function StepReward(e: Economy, op: RewardOp): Result<Economy> {
    match op
    case AddProduct(title, description, price) => CreateProduct(e, title, description, price)
    case EditProduct(k, title, description, price) => UpdateProduct(e, k, title, description, price)
    case Activate(k, active) => SetProductActive(e, k, active)
    case Ordering(bot, k, key) => Redeem(e, bot, k, key)
    case Approve(r, note) => LockTransition(e, r, note, Approved)
    case Fulfil(r, note) => LockTransition(e, r, note, Fulfilled)
    case Reject(r, note) => RefundTransition(e, r, note, Declined)
    case CancelOrder(r) => RefundTransition(e, r, "", Cancelled)
  }

  function StepMemory(e: Economy, op: MemoryOp): Result<Economy> {
    match op
    case Add(holder) =>
      var _ :- Need(holder < |e.books.balances|, BotNotFound);
      Ok(e.(memories := e.memories + [Memory(holder, true, 1)]))
    case Revise(holder, m) =>
      var _ :- Need(OwnActiveMemory(e, holder, m), NotFound);
      Ok(e.(memories := e.memories[m := e.memories[m].(revision := e.memories[m].revision + 1)]))
    case Withdraw(holder, m) =>
      var _ :- Need(OwnActiveMemory(e, holder, m), NotFound);
      Ok(e.(memories := e.memories[m := e.memories[m].(active := false)]))
  }

  function RegisterBot(e: Economy): Result<Economy> {
    var bot := |e.books.balances|;
    var books :- Record(e.books.(balances := e.books.balances + [0]), bot, OtherKind("grant_signup"), SIGNUP_GRANT, NoRef);
    Ok(e.(books := books))
  }

  function ChargeBot(e: Economy, bot: nat, name: string, amount: int64): Result<Economy> {
    var books :- Record(e.books, bot, OtherKind(name), amount, NoRef);
    Ok(e.(books := books))
  }

  function Step(e: Economy, op: Op): Result<Economy> {
    match op
    case Register => RegisterBot(e)
    case Charge(bot, name, amount) => ChargeBot(e, bot, name, amount)
    case TaskStep(t) => StepTask(e, t)
    case PaymentStep(p) => StepPayment(e, p)
    case RewardStep(r) => StepReward(e, r)
    case MemoryStep(m) => StepMemory(e, m)
  }

  /** A failed transaction rolls back. */
  function Commit(e: Economy, op: Op): Economy {
    match Step(e, op) case Ok(next) => next case Err(_) => e
  }

  function Run(e: Economy, ops: seq<Op>): Economy {
    if ops == [] then e else Commit(Run(e, ops[..|ops| - 1]), ops[|ops| - 1])
  }

  // -- what every committed transaction keeps --

  ghost predicate EveryBotHasRow(books: Books) {
    forall k: nat :: k < |books.balances| ==> LatestBalanceAfter(books.ledger, k).Some?
  }

  /** What every run keeps, with no assumption on what the provider reports. */
  ghost predicate Accounted(e: Economy) {
    TaskInvariant(e) && PaymentsExplained(e) && RewardInvariant(e) && EveryBotHasRow(e.books)
  }

  ghost predicate Sound(e: Economy) {
    Accounted(e) && AudiencesFixed(e)
  }

  /** The provider assumption: an object of a refund or dispute fact always speaks of one payment. */
  ghost predicate Honest(op: Op, owner: Ownership) {
    op.PaymentStep? && op.payment.Adjust? ==> Honours(op.payment.fact, owner)
  }

  /** The books moved by at most one posted row. */
  ghost predicate OnePost(b: Books, b': Books, row: Row) {
    b'.ledger == b.ledger + [row] && |b'.balances| == |b.balances|
  }

  ghost predicate TaskBooks(b: Books, b': Books) {
    b' == b || exists row :: OnePost(b, b', row) && TaskKind(row.kind) && (row.ref.TaskRef? || row.ref.SubmissionRef?)
  }

  /** Tables that no task transaction touches. */
  ghost predicate Elsewhere(e: Economy, e': Economy) {
    && e'.payments == e.payments && e'.adjustments == e.adjustments && e'.redemptions == e.redemptions
    && e'.memories == e.memories
  }

  lemma LockIsOnePost(e: Economy, t: nat, publisher: nat, kind: Kind, amount: int64)
    requires Lock(e, t, publisher, kind, amount).Ok? && TaskKind(kind)
    ensures var e' := Lock(e, t, publisher, kind, amount).value;
            && TaskBooks(e.books, e'.books)
            && Elsewhere(e, e')
  {
    PostAppends(e.books, publisher, kind, -amount, TaskRef(t), false);
    var e' := Lock(e, t, publisher, kind, amount).value;
    assert OnePost(e.books, e'.books, e'.books.ledger[|e.books.ledger|]);
  }

  lemma RefundIsOnePost(e: Economy, publisher: nat, t: nat)
    requires RefundTask(e, publisher, t).Ok?
    ensures var e' := RefundTask(e, publisher, t).value;
            && TaskBooks(e.books, e'.books)
            && Elsewhere(e, e')
  {
    PostAppends(e.books, publisher, TaskRefund, e.tasks[t].Available(), TaskRef(t), true);
    var e' := RefundTask(e, publisher, t).value;
    assert OnePost(e.books, e'.books, e'.books.ledger[|e.books.ledger|]);
  }

  lemma OutcomeIsOnePost(e: Economy, s: nat, pre: SubmissionState, event: SubmissionEvent, at: int)
    requires WriteDeliveryOutcome(e, s, pre, event, at).Ok?
    ensures var e' := WriteDeliveryOutcome(e, s, pre, event, at).value;
            && TaskBooks(e.books, e'.books)
            && Elsewhere(e, e')
  {
    var e' := WriteDeliveryOutcome(e, s, pre, event, at).value;
    if e'.books != e.books {
      var sub := e.submissions[s];
      PostAppends(e.books, sub.agent, TaskEarn, sub.amount, SubmissionRef(s), sub.amount >= 0);
      assert OnePost(e.books, e'.books, e'.books.ledger[|e.books.ledger|]);
    }
  }

  lemma ClaimMovesNoBooks(e: Economy, agent: nat, t: nat, now: int)
    requires ClaimTask(e, agent, t, now).Ok?
    ensures ClaimTask(e, agent, t, now).value.books == e.books && Elsewhere(e, ClaimTask(e, agent, t, now).value)
  {
  }

  lemma SubmitMovesNoBooks(e: Economy, agent: nat, t: nat, key: string, payload: string, hash: string, c: Option<nat>, now: int)
    requires SubmitWork(e, agent, t, key, payload, hash, c, now).Ok?
    ensures var e' := SubmitWork(e, agent, t, key, payload, hash, c, now).value; e'.books == e.books && Elsewhere(e, e')
  {
  }

  /** Task transactions keep to the task tables and to task rows of the ledger. */
  lemma TaskStepStaysHome(e: Economy, op: TaskOp)
    requires StepTask(e, op).Ok?
    ensures var e' := StepTask(e, op).value; TaskBooks(e.books, e'.books) && Elsewhere(e, e')
  {
    match op
    case Create(publisher, contract, budget) =>
      LockIsOnePost(InsertTask(e, publisher, contract), |e.tasks|, publisher, TaskLock, budget);
    case Update(publisher, t, contract) =>
    case Status(owner, t, event) =>
    case Fund(publisher, t, amount) => LockIsOnePost(e, t, publisher, TaskFund, amount);
    case Refund(publisher, t) => RefundIsOnePost(e, publisher, t);
    case Claiming(agent, t, now) => ClaimMovesNoBooks(e, agent, t, now);
    case Renewing(agent, c, now) =>
    case Releasing(agent, c) =>
    case Expiring(c, now) =>
    case Submitting(agent, t, key, payload, hash, c, now) => SubmitMovesNoBooks(e, agent, t, key, payload, hash, c, now);
    case Outcome(s, pre, event, at) => OutcomeIsOnePost(e, s, pre, event, at);
  }

  lemma TaskStepKeepsTasks(e: Economy, op: TaskOp)
    requires TaskInvariant(e) && StepTask(e, op).Ok?
    ensures TaskInvariant(StepTask(e, op).value)
  {
    match op
    case Submitting(agent, t, key, payload, hash, c, now) => SubmitKeepsInvariant(e, agent, t, key, payload, hash, c, now);
    case Outcome(s, pre, event, at) => OutcomeKeepsInvariant(e, s, pre, event, at);
    case _ =>
      if ByPublisher(op) {
        PublisherStepKeepsTasks(e, op);
      } else {
        ClaimStepKeepsTasks(e, op);
      }
  }

  predicate ByPublisher(op: TaskOp) {
    op.Create? || op.Update? || op.Status? || op.Fund? || op.Refund?
  }

  lemma PublisherStepKeepsTasks(e: Economy, op: TaskOp)
    requires TaskInvariant(e) && ByPublisher(op) && StepTask(e, op).Ok?
    ensures TaskInvariant(StepTask(e, op).value)
  {
    match op
    case Create(publisher, contract, budget) => CreateKeepsInvariant(e, publisher, contract, budget);
    case Update(publisher, t, contract) => UpdateKeepsInvariant(e, publisher, t, contract);
    case Status(owner, t, event) => StatusKeepsInvariant(e, t, e.tasks[t].status, event);
    case Fund(publisher, t, amount) => FundKeepsInvariant(e, publisher, t, amount);
    case Refund(publisher, t) => RefundKeepsInvariant(e, publisher, t);
  }

  lemma ClaimStepKeepsTasks(e: Economy, op: TaskOp)
    requires TaskInvariant(e) && (op.Claiming? || op.Renewing? || op.Releasing? || op.Expiring?) && StepTask(e, op).Ok?
    ensures TaskInvariant(StepTask(e, op).value)
  {
    match op
    case Claiming(agent, t, now) => ClaimKeepsInvariant(e, agent, t, now);
    case Renewing(agent, c, now) => RenewKeepsInvariant(e, agent, c, now);
    case Releasing(agent, c) => EndClaimKeepsInvariant(e, c, ClaimRelease);
    case Expiring(c, now) =>
      if StepTask(e, op).value != e {
        EndClaimKeepsInvariant(e, c, ClaimExpire);
      }
  }

  lemma TaskStepKeepsAudience(e: Economy, op: TaskOp)
    requires AudiencesFixed(e) && StepTask(e, op).Ok?
    ensures AudiencesFixed(StepTask(e, op).value)
  {
    var e' := StepTask(e, op).value;
    match op
    case Create(publisher, contract, budget) => CreateFixesAudience(e, publisher, contract, budget);
    case Update(publisher, t, contract) => UpdateKeepsAudience(e, publisher, t, contract);
    case Status(owner, t, event) => UnmovedKeepsAudience(e, e');
    case Fund(publisher, t, amount) => UnmovedKeepsAudience(e, e');
    case Refund(publisher, t) => UnmovedKeepsAudience(e, e');
    case Claiming(agent, t, now) =>
      ClaimLeavesAudience(e, agent, t, now);
      UnmovedKeepsAudience(e, e');
    case Renewing(agent, c, now) => UnmovedKeepsAudience(e, e');
    case Releasing(agent, c) =>
      EndClaimLeavesAudience(e, c, ClaimRelease);
      UnmovedKeepsAudience(e, e');
    case Expiring(c, now) =>
      if e' != e {
        EndClaimLeavesAudience(e, c, ClaimExpire);
        UnmovedKeepsAudience(e, e');
      }
    case Submitting(agent, t, key, payload, hash, c, now) =>
      SubmitLeavesAudience(e, agent, t, key, payload, hash, c, now);
      UnmovedKeepsAudience(e, e');
    case Outcome(s, pre, event, at) =>
      OutcomeLeavesAudience(e, s, pre, event, at);
      UnmovedKeepsAudience(e, e');
  }

  lemma RowsOnlyAccumulate(b: Books, b': Books, row: Row)
    requires EveryBotHasRow(b) && OnePost(b, b', row)
    ensures EveryBotHasRow(b')
  {
    forall k: nat | k < |b'.balances| ensures LatestBalanceAfter(b'.ledger, k).Some? {
      assert b'.ledger[..|b.ledger|] == b.ledger;
    }
  }

  lemma TaskStepKeepsOthers(e: Economy, op: TaskOp)
    requires PaymentsExplained(e) && RewardInvariant(e) && EveryBotHasRow(e.books) && StepTask(e, op).Ok?
    ensures var e' := StepTask(e, op).value;
            PaymentsExplained(e') && RewardInvariant(e') && EveryBotHasRow(e'.books)
  {
    TaskStepStaysHome(e, op);
    var e' := StepTask(e, op).value;
    if e'.books == e.books {
      SameBooksSamePayments(e, e');
      SameBooksSameOrders(e, e');
    } else {
      var row :| OnePost(e.books, e'.books, row) && TaskKind(row.kind) && (row.ref.TaskRef? || row.ref.SubmissionRef?);
      ForeignRow(e, e', row);
    }
  }

  lemma SameBooksSamePayments(e: Economy, e': Economy)
    requires PaymentsExplained(e)
    requires e'.books == e.books && e'.payments == e.payments && e'.adjustments == e.adjustments
    ensures PaymentsExplained(e')
  {
    forall p: nat | p < |e'.payments| ensures PaymentExplained(e', p) {
      assert PaymentExplained(e, p);
    }
  }

  lemma SameBooksSameOrders(e: Economy, e': Economy)
    requires RewardInvariant(e) && e'.books == e.books && e'.redemptions == e.redemptions
    ensures RewardInvariant(e')
  {
    forall r: nat | r < |e'.redemptions| ensures OrderExplained(e', r) {
      assert OrderExplained(e, r);
    }
  }

  /** A row of neither payments nor redemptions. */
  lemma ForeignRow(e: Economy, e': Economy, row: Row)
    requires PaymentsExplained(e) && RewardInvariant(e) && EveryBotHasRow(e.books)
    requires OnePost(e.books, e'.books, row)
    requires row.kind != GrantPayment && row.kind != ReversePayment && !row.ref.PaymentRef? && !row.ref.RedemptionRef?
    requires e'.payments == e.payments && e'.adjustments == e.adjustments && e'.redemptions == e.redemptions
    ensures PaymentsExplained(e') && RewardInvariant(e') && EveryBotHasRow(e'.books)
  {
    OtherRowsAreForeign(e, row, e');
    OtherRowsLeaveOrders(e, row, e');
    RowsOnlyAccumulate(e.books, e'.books, row);
  }

  // -- rows that are not task rows, seen from the task tables --

  ghost predicate SameTasks(e: Economy, e': Economy) {
    e'.tasks == e.tasks && e'.claims == e.claims && e'.submissions == e.submissions && e'.versions == e.versions
  }

  /** Credits that arrive or leave without a task change both sides of the conservation law alike. */
  lemma OutsideRow(e: Economy, e': Economy, bot: nat, kind: Kind, amount: int64, ref: Ref, allowNegative: bool)
    requires TaskInvariant(e) && SameTasks(e, e')
    requires Post(e.books, bot, kind, amount, ref, allowNegative) == Ok(e'.books)
    requires !TaskKind(kind) && !ref.TaskRef? && !ref.SubmissionRef?
    ensures TaskInvariant(e')
    ensures exists row :: OnePost(e.books, e'.books, row) && row.bot == bot && row.kind == kind && row.amount == amount && row.ref == ref
  {
    PostAppends(e.books, bot, kind, amount, ref, allowNegative);
    PostKeepsBooks(e.books, bot, kind, amount, ref, allowNegative);
    var row := e'.books.ledger[|e.books.ledger|];
    assert OnePost(e.books, e'.books, row);
    OutsideMoney(e, e', row);
    Rows.SumUpdate(e.books.balances, bot, e'.books.balances[bot], Itself());
  }

  lemma OutsideMoney(e: Economy, e': Economy, row: Row)
    requires Money(e) && SameTasks(e, e') && OnePost(e.books, e'.books, row)
    requires !TaskKind(row.kind) && !row.ref.TaskRef? && !row.ref.SubmissionRef?
    ensures forall t: nat :: t < |e'.tasks| ==> CountersExplained(e', t)
    ensures forall s: nat :: s < |e'.submissions| ==> PaidExactly(e', s)
    ensures RefsExist(e'.books.ledger, |e'.tasks|, |e'.submissions|)
    ensures Rows.Sum(e'.books.ledger, OutsideTasks()) == Rows.Sum(e.books.ledger, OutsideTasks()) + row.amount
  {
    LedgerSums(e.books.ledger, row);
    forall t: nat | t < |e'.tasks| ensures CountersExplained(e', t) {
      assert CountersExplained(e, t);
    }
    OtherRowPaysNobody(e, row, e');
    Rows.SumAppend(e.books.ledger, row, OutsideTasks());
  }

  lemma SameBooksSameTasks(e: Economy, e': Economy)
    requires TaskInvariant(e) && SameTasks(e, e') && e'.books == e.books
    ensures TaskInvariant(e')
  {
    forall t: nat | t < |e'.tasks| ensures CountersExplained(e', t) {
      assert CountersExplained(e, t);
    }
    forall s: nat | s < |e'.submissions| ensures PaidExactly(e', s) {
      assert PaidExactly(e, s);
    }
  }

  lemma ChargeKeepsAccounts(e: Economy, bot: nat, name: string, amount: int64)
    requires Accounted(e) && ChargeBot(e, bot, name, amount).Ok?
    ensures Accounted(ChargeBot(e, bot, name, amount).value)
  {
    var e' := ChargeBot(e, bot, name, amount).value;
    OutsideRow(e, e', bot, OtherKind(name), amount, NoRef, amount >= 0);
    var row :| OnePost(e.books, e'.books, row) && row.bot == bot && row.kind == OtherKind(name) && row.ref == NoRef;
    ForeignRow(e, e', row);
  }

  /** Opening an empty account changes nothing but the number of accounts. */
  lemma OpenAccount(e: Economy, e': Economy)
    requires TaskInvariant(e) && PaymentsExplained(e) && RewardInvariant(e)
    requires e' == e.(books := e.books.(balances := e.books.balances + [0]))
    ensures TaskInvariant(e') && PaymentsExplained(e') && RewardInvariant(e')
  {
    OpenAccountBooks(e.books, e'.books);
    OpenAccountTasks(e, e');
    forall p: nat | p < |e'.payments| ensures PaymentExplained(e', p) {
      assert PaymentExplained(e, p);
    }
    forall r: nat | r < |e'.redemptions| ensures OrderExplained(e', r) {
      assert OrderExplained(e, r);
    }
  }

  lemma OpenAccountBooks(b: Books, b': Books)
    requires Balanced(b) && b' == b.(balances := b.balances + [0])
    ensures Balanced(b')
  {
    forall i | 0 <= i < |b.ledger| ensures OfBot(|b.balances|)(b.ledger[i]) == 0 {
      assert RunningTotalAt(b, i);
    }
    Rows.SumZero(b.ledger, OfBot(|b.balances|));
    forall k: nat | k < |b'.balances| ensures BalanceIsTotal(b', k) {
      assert k < |b.balances| ==> BalanceIsTotal(b, k);
    }
    forall i: nat | i < |b'.ledger| ensures RunningTotalAt(b', i) {
      assert RunningTotalAt(b, i);
    }
  }

  lemma OpenAccountTasks(e: Economy, e': Economy)
    requires TaskInvariant(e) && SameTasks(e, e')
    requires e'.books == e.books.(balances := e.books.balances + [0]) && Balanced(e'.books)
    ensures TaskInvariant(e')
  {
    Rows.SumAppend(e.books.balances, 0, Itself());
    forall t: nat | t < |e'.tasks| ensures CountersExplained(e', t) {
      assert CountersExplained(e, t);
    }
    forall s: nat | s < |e'.submissions| ensures PaidExactly(e', s) {
      assert PaidExactly(e, s);
    }
    assert Shape(e');
  }

  lemma RegisterKeepsAccounts(e: Economy)
    requires Accounted(e) && RegisterBot(e).Ok?
    ensures Accounted(RegisterBot(e).value)
  {
    var n := |e.books.balances|;
    var joined := e.(books := e.books.(balances := e.books.balances + [0]));
    OpenAccount(e, joined);
    var e' := RegisterBot(e).value;
    OutsideRow(joined, e', n, OtherKind("grant_signup"), SIGNUP_GRANT, NoRef, true);
    var row :| OnePost(joined.books, e'.books, row) && row.bot == n && row.kind == OtherKind("grant_signup") && row.ref == NoRef;
    OtherRowsAreForeign(joined, row, e');
    OtherRowsLeaveOrders(joined, row, e');
    forall k: nat | k < |e'.books.balances| ensures LatestBalanceAfter(e'.books.ledger, k).Some? {
      assert e'.books.ledger[..|e.books.ledger|] == e.books.ledger;
    }
  }

  // -- payment and reward transactions, seen from everywhere --

  /** The arguments of one ledger post. */
  datatype Posting = Posting(bot: nat, kind: Kind, amount: int64, ref: Ref, allowNegative: bool)

  predicate Posted(b: Books, b': Books, post: Posting) {
    Post(b, post.bot, post.kind, post.amount, post.ref, post.allowNegative) == Ok(b')
  }

  /** The books did not move, or moved by one row of this channel. */
  ghost predicate PaymentBooks(b: Books, b': Books) {
    || b' == b
    || exists post :: Posted(b, b', post) && (post.kind == GrantPayment || post.kind == ReversePayment) && post.ref.PaymentRef?
  }

  lemma CompletePosts(e: Economy, p: nat)
    requires CompletePayment(e, p).Ok?
    ensures PaymentBooks(e.books, CompletePayment(e, p).value.books)
  {
    var e' := CompletePayment(e, p).value;
    var pay := e.payments[p];
    if e'.books != e.books {
      assert Posted(e.books, e'.books, Posting(pay.bot, GrantPayment, pay.credits, PaymentRef(p), pay.credits >= 0));
    }
  }

  lemma AdjustPosts(e: Economy, fact: Adjustment)
    requires RecordPaymentAdjustment(e, fact).Ok?
    ensures PaymentBooks(e.books, RecordPaymentAdjustment(e, fact).value.books)
  {
    var e' := RecordPaymentAdjustment(e, fact).value;
    if HasFact(InsertPaymentAdjustment(e.adjustments, fact).value, fact.payment) && e'.books != e.books {
      AdjustEffect(e, fact);
      var p := fact.payment;
      var delta := ReversalTargetOf(e'.adjustments, p, e.payments[p].credits, fact.amountPaid).value - Reversed(e, p);
      assert Posted(e.books, e'.books, Posting(e.payments[p].bot, ReversePayment, -delta, PaymentRef(p), true));
    }
  }

  lemma PaymentStepFrame(e: Economy, op: PaymentOp)
    requires StepPayment(e, op).Ok?
    ensures var e' := StepPayment(e, op).value;
            SameTasks(e, e') && e'.redemptions == e.redemptions && e'.memories == e.memories
  {
    if op.Adjust? {
      AdjustFrame(e, op.fact);
    } else if op.Complete? {
      CompleteFrame(e, op.payment);
    }
  }

  lemma CompleteFrame(e: Economy, p: nat)
    requires CompletePayment(e, p).Ok?
    ensures var e' := CompletePayment(e, p).value;
            SameTasks(e, e') && e'.redemptions == e.redemptions && e'.memories == e.memories
  {
  }

  lemma AdjustFrame(e: Economy, fact: Adjustment)
    requires RecordPaymentAdjustment(e, fact).Ok?
    ensures var e' := RecordPaymentAdjustment(e, fact).value;
            SameTasks(e, e') && e'.redemptions == e.redemptions && e'.memories == e.memories
  {
  }

  /** What a payment transaction did to the books: nothing, one grant, or one reversal. */
  lemma PaymentStepPosts(e: Economy, op: PaymentOp)
    requires StepPayment(e, op).Ok?
    ensures var e' := StepPayment(e, op).value;
            && SameTasks(e, e') && e'.redemptions == e.redemptions && e'.memories == e.memories
            && PaymentBooks(e.books, e'.books)
  {
    PaymentStepFrame(e, op);
    match op
    case Complete(p) => CompletePosts(e, p);
    case Adjust(fact) => AdjustPosts(e, fact);
    case _ =>
  }

  lemma PaymentStepKeepsPayments(e: Economy, op: PaymentOp)
    requires PaymentsExplained(e) && StepPayment(e, op).Ok?
    ensures PaymentsExplained(StepPayment(e, op).value)
  {
    match op
    case CreatePending(bot, provider, order, amountMinor, currency, credits) =>
      CreateKeepsPayments(e, bot, provider, order, amountMinor, currency, credits);
    case Bind(provider, p, order) => BindKeepsPayments(e, provider, p, order);
    case Complete(p) => CompleteKeepsPayments(e, p);
    case Fail(p) => TerminateKeepsPayments(e, p, PaymentFailed);
    case Cancel(p) => TerminateKeepsPayments(e, p, PaymentCancelled);
    case Adjust(fact) => AdjustReachesTarget(e, fact);
  }

  /** A row of one of the two money channels, seen from the tasks and from every account. */
  lemma ChannelRow(e: Economy, e': Economy, post: Posting) returns (row: Row)
    requires TaskInvariant(e) && EveryBotHasRow(e.books) && SameTasks(e, e')
    requires Posted(e.books, e'.books, post)
    requires !TaskKind(post.kind) && !post.ref.TaskRef? && !post.ref.SubmissionRef?
    ensures TaskInvariant(e') && EveryBotHasRow(e'.books)
    ensures OnePost(e.books, e'.books, row) && row.kind == post.kind && row.ref == post.ref
  {
    OutsideRow(e, e', post.bot, post.kind, post.amount, post.ref, post.allowNegative);
    row :| OnePost(e.books, e'.books, row) && row.bot == post.bot && row.kind == post.kind && row.amount == post.amount && row.ref == post.ref;
    RowsOnlyAccumulate(e.books, e'.books, row);
  }

  lemma PaymentStepKeepsAccounts(e: Economy, op: PaymentOp)
    requires Accounted(e) && StepPayment(e, op).Ok?
    ensures Accounted(StepPayment(e, op).value)
  {
    PaymentStepKeepsPayments(e, op);
    PaymentStepPosts(e, op);
    PaymentRowKeepsOthers(e, StepPayment(e, op).value);
  }

  lemma PaymentRowKeepsOthers(e: Economy, e': Economy)
    requires TaskInvariant(e) && RewardInvariant(e) && EveryBotHasRow(e.books)
    requires SameTasks(e, e') && e'.redemptions == e.redemptions && PaymentBooks(e.books, e'.books)
    ensures TaskInvariant(e') && RewardInvariant(e') && EveryBotHasRow(e'.books)
  {
    if e'.books == e.books {
      SameBooksSameTasks(e, e');
      SameBooksSameOrders(e, e');
    } else {
      var post :| Posted(e.books, e'.books, post) && (post.kind == GrantPayment || post.kind == ReversePayment) && post.ref.PaymentRef?;
      var row := ChannelRow(e, e', post);
      OtherRowsLeaveOrders(e, row, e');
    }
  }

  /** The books did not move, or moved by one row of this channel. */
  ghost predicate RewardBooks(b: Books, b': Books) {
    || b' == b
    || exists post :: Posted(b, b', post) && (post.kind == SpendRedemption || post.kind == RefundRedemption) && post.ref.RedemptionRef?
  }

  lemma RewardStepPosts(e: Economy, op: RewardOp)
    requires StepReward(e, op).Ok?
    ensures var e' := StepReward(e, op).value;
            && SameTasks(e, e') && e'.payments == e.payments && e'.adjustments == e.adjustments && e'.memories == e.memories
            && RewardBooks(e.books, e'.books)
  {
    var e' := StepReward(e, op).value;
    if e'.books != e.books {
      match op
      case Ordering(bot, k, key) =>
        assert Posted(e.books, e'.books, Posting(bot, SpendRedemption, -e.products[k].price, RedemptionRef(|e.redemptions|), false));
      case Reject(r, note) =>
        var row := e.redemptions[r];
        assert Posted(e.books, e'.books, Posting(row.bot, RefundRedemption, row.cost, RedemptionRef(r), row.cost >= 0));
      case CancelOrder(r) =>
        var row := e.redemptions[r];
        assert Posted(e.books, e'.books, Posting(row.bot, RefundRedemption, row.cost, RedemptionRef(r), row.cost >= 0));
      case _ =>
    }
  }

  lemma RewardStepKeepsOrders(e: Economy, op: RewardOp)
    requires RewardInvariant(e) && StepReward(e, op).Ok?
    ensures RewardInvariant(StepReward(e, op).value)
  {
    var e' := StepReward(e, op).value;
    match op
    case Ordering(bot, k, key) => RedeemKeepsOrders(e, bot, k, key);
    case Approve(r, note) => TransitionKeepsOrders(e, r, note, Approved);
    case Fulfil(r, note) => TransitionKeepsOrders(e, r, note, Fulfilled);
    case Reject(r, note) => RefundKeepsOrders(e, r, note, Declined);
    case CancelOrder(r) => RefundKeepsOrders(e, r, "", Cancelled);
    case AddProduct(title, description, price) => SameBooksSameOrders(e, e');
    case EditProduct(k, title, description, price) => SameBooksSameOrders(e, e');
    case Activate(k, active) => SameBooksSameOrders(e, e');
  }

  lemma RewardStepKeepsAccounts(e: Economy, op: RewardOp)
    requires Accounted(e) && StepReward(e, op).Ok?
    ensures Accounted(StepReward(e, op).value)
  {
    RewardStepKeepsOrders(e, op);
    RewardStepPosts(e, op);
    RewardRowKeepsOthers(e, StepReward(e, op).value);
  }

  lemma RewardRowKeepsOthers(e: Economy, e': Economy)
    requires TaskInvariant(e) && PaymentsExplained(e) && EveryBotHasRow(e.books)
    requires SameTasks(e, e') && e'.payments == e.payments && e'.adjustments == e.adjustments && RewardBooks(e.books, e'.books)
    ensures TaskInvariant(e') && PaymentsExplained(e') && EveryBotHasRow(e'.books)
  {
    if e'.books == e.books {
      SameBooksSameTasks(e, e');
      SameBooksSamePayments(e, e');
    } else {
      var post :| Posted(e.books, e'.books, post) && (post.kind == SpendRedemption || post.kind == RefundRedemption) && post.ref.RedemptionRef?;
      var row := ChannelRow(e, e', post);
      ForeignToPayments(e, e', row);
    }
  }

  lemma ForeignToPayments(e: Economy, e': Economy, row: Row)
    requires PaymentsExplained(e) && OnePost(e.books, e'.books, row)
    requires row.kind != GrantPayment && row.kind != ReversePayment && !row.ref.PaymentRef?
    requires e'.payments == e.payments && e'.adjustments == e.adjustments
    ensures PaymentsExplained(e')
  {
    OtherRowsAreForeign(e, row, e');
  }

  /** A memory binds later claims only; nothing recorded depends on it. */
  lemma MemoryStepKeepsAccounts(e: Economy, op: MemoryOp)
    requires Accounted(e) && StepMemory(e, op).Ok?
    ensures Accounted(StepMemory(e, op).value)
  {
    var e' := StepMemory(e, op).value;
    SameBooksSameTasks(e, e');
    SameBooksSamePayments(e, e');
    SameBooksSameOrders(e, e');
  }

  lemma StepKeepsAudience(e: Economy, op: Op)
    requires AudiencesFixed(e) && Step(e, op).Ok?
    ensures AudiencesFixed(Step(e, op).value)
  {
    match op
    case TaskStep(t) => TaskStepKeepsAudience(e, t);
    case PaymentStep(p) =>
      PaymentStepPosts(e, p);
      UnmovedKeepsAudience(e, Step(e, op).value);
    case RewardStep(r) =>
      RewardStepPosts(e, r);
      UnmovedKeepsAudience(e, Step(e, op).value);
    case _ => UnmovedKeepsAudience(e, Step(e, op).value);
  }

  lemma StepKeepsAccounts(e: Economy, op: Op)
    requires Accounted(e)
    ensures Accounted(Commit(e, op))
  {
    if Step(e, op).Ok? {
      match op
      case Register => RegisterKeepsAccounts(e);
      case Charge(bot, name, amount) => ChargeKeepsAccounts(e, bot, name, amount);
      case TaskStep(t) =>
        TaskStepKeepsTasks(e, t);
        TaskStepKeepsOthers(e, t);
      case PaymentStep(p) => PaymentStepKeepsAccounts(e, p);
      case RewardStep(r) => RewardStepKeepsAccounts(e, r);
      case MemoryStep(m) => MemoryStepKeepsAccounts(e, m);
    }
  }

  lemma StepKeepsSound(e: Economy, op: Op)
    requires Sound(e)
    ensures Sound(Commit(e, op))
  {
    StepKeepsAccounts(e, op);
    if Step(e, op).Ok? {
      StepKeepsAudience(e, op);
    }
  }

  /** Every reachable state of the economy is sound, whatever transactions ran and in which order. */
  lemma {:induction false} EveryRunIsSound(ops: seq<Op>)
    ensures Sound(Run(EMPTY, ops))
  {
    if ops != [] {
      var init := ops[..|ops| - 1];
      EveryRunIsSound(init);
      StepKeepsSound(Run(EMPTY, init), ops[|ops| - 1]);
    }
  }

  // -- the provider assumption --

  lemma OrderStepKeepsPaid(e: Economy, op: PaymentOp)
    requires StepPayment(e, op).Ok?
    ensures PaidStays(e.payments, StepPayment(e, op).value.payments)
    ensures !op.Adjust? ==> StepPayment(e, op).value.adjustments == e.adjustments
  {
  }

  /** A payment that is paid is paid for good, step by step. */
  lemma StepKeepsPaid(e: Economy, op: Op)
    requires Step(e, op).Ok?
    ensures PaidStays(e.payments, Step(e, op).value.payments)
    ensures !(op.PaymentStep? && op.payment.Adjust?) ==> Step(e, op).value.adjustments == e.adjustments
  {
    match op
    case TaskStep(t) => TaskStepStaysHome(e, t);
    case RewardStep(r) => RewardStepPosts(e, r);
    case PaymentStep(p) => OrderStepKeepsPaid(e, p);
    case _ =>
  }

  lemma StepKeepsFacts(e: Economy, op: Op, owner: Ownership)
    requires FactsOk(e, owner) && Honest(op, owner)
    ensures FactsOk(Commit(e, op), owner)
  {
    if Step(e, op).Ok? {
      if op.PaymentStep? && op.payment.Adjust? {
        AdjustKeepsFacts(e, owner, op.payment.fact);
      } else {
        StepKeepsPaid(e, op);
        OrdersKeepFacts(e, Commit(e, op), owner);
      }
    }
  }

  /** As long as every object names one payment, the facts of each payment share one basis. */
  lemma {:induction false} HonestRunsKeepFacts(ops: seq<Op>, owner: Ownership)
    requires forall i :: 0 <= i < |ops| ==> Honest(ops[i], owner)
    ensures FactsOk(Run(EMPTY, ops), owner)
  {
    if ops != [] {
      var init := ops[..|ops| - 1];
      HonestRunsKeepFacts(init, owner);
      StepKeepsFacts(Run(EMPTY, init), ops[|ops| - 1], owner);
    }
  }
}
