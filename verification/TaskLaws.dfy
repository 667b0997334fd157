/**
 What every task transaction keeps: the counters of a task agree with its claims, its
 submissions and the ledger, and credits are neither created nor destroyed.
 */
module TaskLaws {
  import opened Int64
  import opened Results
  import opened Credits
  import opened Schema
  import opened TaskKernel
  import opened TaskStore
  import opened Rows
  import H = HarnessPins

  // -- weights --

  function ActiveAmount(t: nat): Claim -> int {
    (c: Claim) => if c.task == t && c.status == Active then c.amount else 0
  }

  function InFlightAmount(t: nat): Submission -> int {
    (s: Submission) => if s.task == t && !Terminal(s.state) then s.amount else 0
  }

  function SettledAmount(t: nat): Submission -> int {
    (s: Submission) => if s.task == t && s.state == Settled then s.amount else 0
  }

  function LockedBy(t: nat): Row -> int {
    (r: Row) => if r.ref == TaskRef(t) && (r.kind == TaskLock || r.kind == TaskFund) then 0 - r.amount else 0
  }

  function RefundedBy(t: nat): Row -> int {
    (r: Row) => if r.ref == TaskRef(t) && r.kind == TaskRefund then r.amount else 0
  }

  function EarnedBy(s: nat): Row -> int {
    (r: Row) => if r.ref == SubmissionRef(s) && r.kind == TaskEarn then r.amount else 0
  }

  function Payouts(s: nat): Row -> int {
    (r: Row) => if r.ref == SubmissionRef(s) && r.kind == TaskEarn && r.amount > 0 then 1 else 0
  }

  predicate TaskKind(k: Kind) {
    k in {TaskLock, TaskFund, TaskEarn, TaskRefund}
  }

  function OutsideTasks(): Row -> int {
    (r: Row) => if TaskKind(r.kind) then 0 else r.amount
  }

  function EscrowOf(): Task -> int {
    (t: Task) => t.Escrow()
  }

  function Itself(): int64 -> int {
    (x: int64) => x
  }

  // -- invariants --

  /** Events numbered from 1, each leaving the state the previous one entered, by a kernel edge. */
  ghost predicate LogOk(log: seq<LogEntry>, state: SubmissionState) {
    && log != []
    && log[0].from == None && log[0].to == Delivering
    && (forall i :: 0 <= i < |log| ==> log[i].seqNo == i + 1)
    && (forall i :: 0 < i < |log| ==>
          && log[i].from == Some(log[i - 1].to)
          && SubmissionTransition(log[i - 1].to, log[i].cause) == Ok(log[i].to))
    && log[|log| - 1].to == state
  }

  predicate TaskRowOk(task: Task, bots: nat) {
    && task.publisher < bots
    && 0 <= task.settled && 0 <= task.reserved && 0 <= task.refunded && 0 <= task.Available()
    && task.locked <= MAX_AMOUNT
    && 0 < task.contract.price <= MAX_AMOUNT
    && task.version >= 1
  }

  ghost predicate TaskRowsOk(tasks: seq<Task>, bots: nat) {
    forall t :: 0 <= t < |tasks| ==> TaskRowOk(tasks[t], bots)
  }

  predicate ClaimRowOk(c: Claim, tasks: nat, bots: nat, versions: map<(nat, nat), Contract>) {
    c.task < tasks && c.agent < bots && c.amount > 0 && (c.task, c.version) in versions
  }

  ghost predicate ClaimRowsOk(claims: seq<Claim>, tasks: nat, bots: nat, versions: map<(nat, nat), Contract>) {
    forall c :: 0 <= c < |claims| ==> ClaimRowOk(claims[c], tasks, bots, versions)
  }

  ghost predicate SubmissionRowOk(s: Submission, tasks: nat, bots: nat, versions: map<(nat, nat), Contract>) {
    && s.task < tasks && s.agent < bots && s.amount > 0 && (s.task, s.version) in versions
    && LogOk(s.log, s.state)
    && (s.payload.Some? <==> !Terminal(s.state))
  }

  ghost predicate SubmissionRowsOk(subs: seq<Submission>, tasks: nat, bots: nat, versions: map<(nat, nat), Contract>) {
    forall s :: 0 <= s < |subs| ==> SubmissionRowOk(subs[s], tasks, bots, versions)
  }

  /** Contract versions: exactly 1 up to the current one, which is the task's contract. */
  ghost predicate Versioned(tasks: seq<Task>, versions: map<(nat, nat), Contract>) {
    && (forall k: (nat, nat) :: k in versions <==> k.0 < |tasks| && 1 <= k.1 <= tasks[k.0].version)
    && (forall t: nat :: t < |tasks| && (t, tasks[t].version) in versions ==>
          versions[(t, tasks[t].version)] == tasks[t].contract)
  }

  ghost predicate OneActiveClaim(claims: seq<Claim>) {
    forall i, j :: 0 <= i < j < |claims| && claims[i].status == Active && claims[j].status == Active ==>
                     claims[i].task != claims[j].task || claims[i].agent != claims[j].agent
  }

  ghost predicate OneIdentity(subs: seq<Submission>) {
    forall i, j :: 0 <= i < j < |subs| ==>
                     || subs[i].task != subs[j].task
                     || subs[i].agent != subs[j].agent
                     || subs[i].requestKey != subs[j].requestKey
  }

  /** Every row is well formed and points at rows that exist. */
  ghost predicate Shape(e: Economy) {
    var bots := |e.books.balances|;
    && TaskRowsOk(e.tasks, bots)
    && ClaimRowsOk(e.claims, |e.tasks|, bots, e.versions)
    && SubmissionRowsOk(e.submissions, |e.tasks|, bots, e.versions)
    && Versioned(e.tasks, e.versions)
    && OneActiveClaim(e.claims)
    && OneIdentity(e.submissions)
  }

  /** What active claims and in-flight submissions hold of a task's budget. */
  function Held(claims: seq<Claim>, subs: seq<Submission>, t: nat): int {
    Sum(claims, ActiveAmount(t)) + Sum(subs, InFlightAmount(t))
  }

  /** The counters of one task, each as the sum that explains it. */
  predicate CountersExplained(e: Economy, t: nat)
    requires t < |e.tasks|
  {
    && e.tasks[t].reserved == Held(e.claims, e.submissions, t)
    && e.tasks[t].settled == Sum(e.submissions, SettledAmount(t))
    && e.tasks[t].locked == Sum(e.books.ledger, LockedBy(t))
    && e.tasks[t].refunded == Sum(e.books.ledger, RefundedBy(t))
  }

  /** A settled submission has been paid once, its amount; no other has been paid. */
  predicate PaidExactly(e: Economy, s: nat)
    requires s < |e.submissions|
  {
    var sub := e.submissions[s];
    && Sum(e.books.ledger, Payouts(s)) == (if sub.state == Settled then 1 else 0)
    && Sum(e.books.ledger, EarnedBy(s)) == (if sub.state == Settled then sub.amount else 0)
  }

  predicate RefExists(r: Row, tasks: nat, subs: nat) {
    match r.ref
    case TaskRef(t) => t < tasks
    case SubmissionRef(s) => s < subs
    case _ => true
  }

  ghost predicate RefsExist(ledger: seq<Row>, tasks: nat, subs: nat) {
    forall i :: 0 <= i < |ledger| ==> RefExists(ledger[i], tasks, subs)
  }

  /** Balances plus escrow move only with ledger rows that are not task rows. */
  ghost predicate Conserved(books: Books, tasks: seq<Task>) {
    Sum(books.balances, Itself()) + Sum(tasks, EscrowOf()) == Sum(books.ledger, OutsideTasks())
  }

  ghost predicate Money(e: Economy) {
    && Balanced(e.books)
    && Conserved(e.books, e.tasks)
    && RefsExist(e.books.ledger, |e.tasks|, |e.submissions|)
    && (forall t: nat :: t < |e.tasks| ==> CountersExplained(e, t))
    && (forall s: nat :: s < |e.submissions| ==> PaidExactly(e, s))
  }

  ghost predicate TaskInvariant(e: Economy) {
    Shape(e) && Money(e)
  }

  // -- no reservation is ever missing --

  lemma ClaimIsReserved(e: Economy, c: nat)
    requires TaskInvariant(e) && c < |e.claims| && e.claims[c].status == Active
    ensures e.tasks[e.claims[c].task].reserved >= e.claims[c].amount
  {
    var t := e.claims[c].task;
    assert CountersExplained(e, t);
    SumAtLeast(e.claims, c, ActiveAmount(t));
    SumNonNegative(e.submissions, InFlightAmount(t));
  }

  lemma SubmissionIsReserved(e: Economy, s: nat)
    requires TaskInvariant(e) && s < |e.submissions| && !Terminal(e.submissions[s].state)
    ensures e.tasks[e.submissions[s].task].reserved >= e.submissions[s].amount
  {
    var t := e.submissions[s].task;
    assert CountersExplained(e, t);
    SumAtLeast(e.submissions, s, InFlightAmount(t));
    SumNonNegative(e.claims, ActiveAmount(t));
  }

  // -- how one row change moves the sums --

  /** The counters of the one task a transaction touches move by what their sums move by. */
  lemma CountersMove(e: Economy, t: nat, e': Economy)
    requires Money(e) && t < |e.tasks| == |e'.tasks| && e'.tasks == e.tasks[t := e'.tasks[t]]
    requires forall u: nat :: Held(e'.claims, e'.submissions, u)
                              == Held(e.claims, e.submissions, u) + (if u == t then e'.tasks[t].reserved - e.tasks[t].reserved else 0)
    requires forall u: nat :: Sum(e'.submissions, SettledAmount(u))
                              == Sum(e.submissions, SettledAmount(u)) + (if u == t then e'.tasks[t].settled - e.tasks[t].settled else 0)
    requires forall u: nat :: Sum(e'.books.ledger, LockedBy(u))
                              == Sum(e.books.ledger, LockedBy(u)) + (if u == t then e'.tasks[t].locked - e.tasks[t].locked else 0)
    requires forall u: nat :: Sum(e'.books.ledger, RefundedBy(u))
                              == Sum(e.books.ledger, RefundedBy(u)) + (if u == t then e'.tasks[t].refunded - e.tasks[t].refunded else 0)
    ensures forall u: nat :: u < |e'.tasks| ==> CountersExplained(e', u)
  {
    forall u: nat | u < |e'.tasks| ensures CountersExplained(e', u) {
      assert CountersExplained(e, u);
    }
  }

  /** Submissions that were paid stay paid, and the rest unpaid. */
  ghost predicate SameSettled(e: Economy, e': Economy) {
    && |e'.submissions| == |e.submissions|
    && (forall s :: 0 <= s < |e.submissions| ==> && e'.submissions[s].amount == e.submissions[s].amount
                                                 && (e'.submissions[s].state == Settled <==> e.submissions[s].state == Settled))
  }

  /** Neither the ledger nor any settled submission changed, so payments stand. */
  lemma PaymentsUntouched(e: Economy, e': Economy)
    requires (forall s: nat :: s < |e.submissions| ==> PaidExactly(e, s)) && SameSettled(e, e')
    requires e'.books.ledger == e.books.ledger
    ensures forall s: nat :: s < |e'.submissions| ==> PaidExactly(e', s)
  {
    forall s: nat | s < |e'.submissions| ensures PaidExactly(e', s) {
      assert PaidExactly(e, s);
    }
  }

  /** A ledger row that is no payout leaves payments as they are. */
  lemma OtherRowPaysNobody(e: Economy, row: Row, e': Economy)
    requires (forall s: nat :: s < |e.submissions| ==> PaidExactly(e, s)) && SameSettled(e, e')
    requires row.kind != TaskEarn && e'.books.ledger == e.books.ledger + [row]
    ensures forall s: nat :: s < |e'.submissions| ==> PaidExactly(e', s)
  {
    forall s: nat | s < |e'.submissions| ensures PaidExactly(e', s) {
      assert PaidExactly(e, s);
      SumAppend(e.books.ledger, row, Payouts(s));
      SumAppend(e.books.ledger, row, EarnedBy(s));
    }
  }

  /** A task row of the ledger moves the same amount out of escrow as into the balance. */
  lemma CreditsMove(books: Books, tasks: seq<Task>, t: nat, task: Task, bot: nat, kind: Kind, amount: int64, ref: Ref)
    requires Balanced(books) && Conserved(books, tasks) && t < |tasks|
    requires TaskKind(kind) && Record(books, bot, kind, amount, ref).Ok?
    requires task.Escrow() == tasks[t].Escrow() - amount
    ensures var books' := Record(books, bot, kind, amount, ref).value;
            && Balanced(books') && Conserved(books', tasks[t := task])
            && |books'.balances| == |books.balances|
            && books'.ledger == books.ledger + [Row(bot, kind, amount, books'.balances[bot], ref)]
  {
    PostKeepsBooks(books, bot, kind, amount, ref, amount >= 0);
    PostAppends(books, bot, kind, amount, ref, amount >= 0);
    var books' := Record(books, bot, kind, amount, ref).value;
    SumAppend(books.ledger, books'.ledger[|books.ledger|], OutsideTasks());
    SumUpdate(books.balances, bot, books'.balances[bot], Itself());
    SumUpdate(tasks, t, task, EscrowOf());
  }

  /** What one more ledger row does to the ledger-side sums of every task. */
  lemma LedgerSums(ledger: seq<Row>, row: Row)
    ensures forall u: nat :: Sum(ledger + [row], LockedBy(u)) == Sum(ledger, LockedBy(u)) + LockedBy(u)(row)
    ensures forall u: nat :: Sum(ledger + [row], RefundedBy(u)) == Sum(ledger, RefundedBy(u)) + RefundedBy(u)(row)
  {
    forall u: nat
      ensures Sum(ledger + [row], LockedBy(u)) == Sum(ledger, LockedBy(u)) + LockedBy(u)(row)
      ensures Sum(ledger + [row], RefundedBy(u)) == Sum(ledger, RefundedBy(u)) + RefundedBy(u)(row)
    {
      SumAppend(ledger, row, LockedBy(u));
      SumAppend(ledger, row, RefundedBy(u));
    }
  }

  lemma EscrowUnmoved(books: Books, tasks: seq<Task>, t: nat, task: Task)
    requires Conserved(books, tasks) && t < |tasks| && task.Escrow() == tasks[t].Escrow()
    ensures Conserved(books, tasks[t := task])
  {
    SumUpdate(tasks, t, task, EscrowOf());
  }

  /** Replacing a task row without moving its counters moves nothing. */
  lemma CountersUnmoved(e: Economy, t: nat, e': Economy)
    requires Money(e) && t < |e.tasks| == |e'.tasks| && e'.tasks == e.tasks[t := e'.tasks[t]]
    requires e'.books == e.books && e'.claims == e.claims && e'.submissions == e.submissions
    requires e'.tasks[t].reserved == e.tasks[t].reserved && e'.tasks[t].settled == e.tasks[t].settled
    requires e'.tasks[t].locked == e.tasks[t].locked && e'.tasks[t].refunded == e.tasks[t].refunded
    ensures Money(e')
  {
    CountersMove(e, t, e');
    PaymentsUntouched(e, e');
    EscrowUnmoved(e.books, e.tasks, t, e'.tasks[t]);
  }

  // -- publisher transactions keep the invariant --

  lemma StatusShape(e: Economy, t: nat, from: TaskStatus, event: TaskEvent)
    requires Shape(e) && ApplyTaskStatus(e, t, from, event).Ok?
    ensures Shape(ApplyTaskStatus(e, t, from, event).value)
  {
  }

  lemma StatusKeepsInvariant(e: Economy, t: nat, from: TaskStatus, event: TaskEvent)
    requires TaskInvariant(e) && ApplyTaskStatus(e, t, from, event).Ok?
    ensures TaskInvariant(ApplyTaskStatus(e, t, from, event).value)
  {
    StatusShape(e, t, from, event);
    CountersUnmoved(e, t, ApplyTaskStatus(e, t, from, event).value);
  }

  lemma MoreVersions(e: Economy, versions: map<(nat, nat), Contract>)
    requires Shape(e) && forall k :: k in e.versions ==> k in versions
    ensures ClaimRowsOk(e.claims, |e.tasks|, |e.books.balances|, versions)
    ensures SubmissionRowsOk(e.submissions, |e.tasks|, |e.books.balances|, versions)
  {
  }

  lemma NextVersion(tasks: seq<Task>, versions: map<(nat, nat), Contract>, t: nat, contract: Contract)
    requires Versioned(tasks, versions) && t < |tasks| && tasks[t].version >= 1
    ensures var next := tasks[t].version + 1;
            Versioned(tasks[t := tasks[t].(contract := contract, version := next)], versions[(t, next) := contract])
  {
  }

  lemma UpdateShape(e: Economy, t: nat, contract: Contract)
    requires Shape(e) && t < |e.tasks| && ValidContract(contract)
    ensures ReplaceTaskContract(e, t, e.tasks[t].version, contract).Ok?
    ensures Shape(ReplaceTaskContract(e, t, e.tasks[t].version, contract).value)
  {
    MoreVersions(e, ReplaceTaskContract(e, t, e.tasks[t].version, contract).value.versions);
    NextVersion(e.tasks, e.versions, t, contract);
  }

  lemma UpdateKeepsInvariant(e: Economy, publisher: nat, t: nat, contract: Contract)
    requires TaskInvariant(e) && UpdateTask(e, publisher, t, contract).Ok?
    ensures TaskInvariant(UpdateTask(e, publisher, t, contract).value)
  {
    UpdateShape(e, t, contract);
    CountersUnmoved(e, t, UpdateTask(e, publisher, t, contract).value);
  }

  lemma LockShape(e: Economy, t: nat, publisher: nat, kind: Kind, amount: int64)
    requires Shape(e) && Lock(e, t, publisher, kind, amount).Ok?
    requires e.tasks[t].locked + amount <= MAX_AMOUNT
    ensures Shape(Lock(e, t, publisher, kind, amount).value)
  {
  }

  /** A ledger row of one task moves that task's locked or refunded counter by what the row says. */
  lemma TaskRowExplains(e: Economy, t: nat, row: Row, e': Economy)
    requires forall u: nat :: u < |e.tasks| ==> CountersExplained(e, u)
    requires t < |e.tasks| == |e'.tasks| && forall u :: 0 <= u < |e.tasks| && u != t ==> e'.tasks[u] == e.tasks[u]
    requires e'.claims == e.claims && e'.submissions == e.submissions && e'.books.ledger == e.books.ledger + [row]
    requires row.ref == TaskRef(t)
    requires e'.tasks[t].reserved == e.tasks[t].reserved && e'.tasks[t].settled == e.tasks[t].settled
    requires e'.tasks[t].locked == e.tasks[t].locked + LockedBy(t)(row)
    requires e'.tasks[t].refunded == e.tasks[t].refunded + RefundedBy(t)(row)
    ensures forall u: nat :: u < |e'.tasks| ==> CountersExplained(e', u)
  {
    forall u: nat | u < |e'.tasks| ensures CountersExplained(e', u) {
      assert CountersExplained(e, u);
      SumAppend(e.books.ledger, row, LockedBy(u));
      SumAppend(e.books.ledger, row, RefundedBy(u));
    }
  }

  lemma LockPath(e: Economy, t: nat, publisher: nat, kind: Kind, amount: int64)
    requires Lock(e, t, publisher, kind, amount).Ok?
    ensures t < |e.tasks| && amount > 0 && Record(e.books, publisher, kind, -amount, TaskRef(t)).Ok?
    ensures var books := Record(e.books, publisher, kind, -amount, TaskRef(t)).value;
            Lock(e, t, publisher, kind, amount).value
            == e.(tasks := e.tasks[t := e.tasks[t].(locked := e.tasks[t].locked + amount)], books := books)
  {
  }

  lemma LockCounters(e: Economy, t: nat, row: Row, e': Economy)
    requires Money(e) && t < |e.tasks| && (row.kind == TaskLock || row.kind == TaskFund) && row.ref == TaskRef(t)
    requires e'.tasks == e.tasks[t := e.tasks[t].(locked := e.tasks[t].locked - row.amount)]
    requires e'.claims == e.claims && e'.submissions == e.submissions && e'.books.ledger == e.books.ledger + [row]
    ensures forall u: nat :: u < |e'.tasks| ==> CountersExplained(e', u)
    ensures forall s: nat :: s < |e'.submissions| ==> PaidExactly(e', s)
    ensures RefsExist(e'.books.ledger, |e'.tasks|, |e'.submissions|)
  {
    TaskRowExplains(e, t, row, e');
    OtherRowPaysNobody(e, row, e');
  }

  lemma LockMoney(e: Economy, t: nat, publisher: nat, kind: Kind, amount: int64)
    requires Money(e) && (kind == TaskLock || kind == TaskFund) && Lock(e, t, publisher, kind, amount).Ok?
    ensures Money(Lock(e, t, publisher, kind, amount).value)
  {
    LockPath(e, t, publisher, kind, amount);
    var e' := Lock(e, t, publisher, kind, amount).value;
    CreditsMove(e.books, e.tasks, t, e'.tasks[t], publisher, kind, -amount, TaskRef(t));
    LockCounters(e, t, Row(publisher, kind, -amount, e'.books.balances[publisher], TaskRef(t)), e');
  }

  lemma FundKeepsInvariant(e: Economy, publisher: nat, t: nat, amount: int64)
    requires TaskInvariant(e) && FundTask(e, publisher, t, amount).Ok?
    ensures TaskInvariant(FundTask(e, publisher, t, amount).value)
  {
    LockShape(e, t, publisher, TaskFund, amount);
    LockMoney(e, t, publisher, TaskFund, amount);
  }

  lemma RefundShape(e: Economy, publisher: nat, t: nat)
    requires Shape(e) && RefundTask(e, publisher, t).Ok?
    ensures Shape(RefundTask(e, publisher, t).value)
  {
  }

  lemma RefundPath(e: Economy, t: nat, publisher: nat)
    requires RefundTaskAvailable(e, t, publisher).Ok? && e.tasks[t].Available() > 0
    ensures Fits(e.tasks[t].Available()) && Record(e.books, publisher, TaskRefund, e.tasks[t].Available(), TaskRef(t)).Ok?
    ensures var books := Record(e.books, publisher, TaskRefund, e.tasks[t].Available(), TaskRef(t)).value;
            RefundTaskAvailable(e, t, publisher).value
            == e.(tasks := e.tasks[t := e.tasks[t].(refunded := e.tasks[t].refunded + e.tasks[t].Available())], books := books)
  {
  }

  lemma RefundCounters(e: Economy, t: nat, row: Row, e': Economy)
    requires Money(e) && t < |e.tasks| && row.kind == TaskRefund && row.ref == TaskRef(t)
    requires e'.tasks == e.tasks[t := e.tasks[t].(refunded := e.tasks[t].refunded + row.amount)]
    requires e'.claims == e.claims && e'.submissions == e.submissions && e'.books.ledger == e.books.ledger + [row]
    ensures forall u: nat :: u < |e'.tasks| ==> CountersExplained(e', u)
    ensures forall s: nat :: s < |e'.submissions| ==> PaidExactly(e', s)
    ensures RefsExist(e'.books.ledger, |e'.tasks|, |e'.submissions|)
  {
    TaskRowExplains(e, t, row, e');
    OtherRowPaysNobody(e, row, e');
  }

  lemma RefundMoney(e: Economy, t: nat, publisher: nat)
    requires Money(e) && RefundTaskAvailable(e, t, publisher).Ok?
    ensures Money(RefundTaskAvailable(e, t, publisher).value)
  {
    var available := e.tasks[t].Available();
    if available > 0 {
      RefundPath(e, t, publisher);
      var e' := RefundTaskAvailable(e, t, publisher).value;
      CreditsMove(e.books, e.tasks, t, e'.tasks[t], publisher, TaskRefund, available, TaskRef(t));
      RefundCounters(e, t, Row(publisher, TaskRefund, available, e'.books.balances[publisher], TaskRef(t)), e');
    }
  }

  lemma RefundKeepsInvariant(e: Economy, publisher: nat, t: nat)
    requires TaskInvariant(e) && RefundTask(e, publisher, t).Ok?
    ensures TaskInvariant(RefundTask(e, publisher, t).value)
  {
    RefundShape(e, publisher, t);
    RefundMoney(e, t, publisher);
  }

  lemma InsertShape(e: Economy, publisher: nat, contract: Contract)
    requires Shape(e)
    requires ValidContract(contract) && publisher < |e.books.balances|
    ensures Shape(InsertTask(e, publisher, contract))
  {
  }

  /** Nothing mentions a task that does not exist yet. */
  lemma UnmentionedTask(e: Economy)
    requires Shape(e) && RefsExist(e.books.ledger, |e.tasks|, |e.submissions|)
    ensures var n := |e.tasks|;
            && Held(e.claims, e.submissions, n) == 0
            && Sum(e.submissions, SettledAmount(n)) == 0
            && Sum(e.books.ledger, LockedBy(n)) == 0
            && Sum(e.books.ledger, RefundedBy(n)) == 0
  {
    var n := |e.tasks|;
    SumZero(e.claims, ActiveAmount(n));
    SumZero(e.submissions, InFlightAmount(n));
    SumZero(e.submissions, SettledAmount(n));
    SumZero(e.books.ledger, LockedBy(n));
    SumZero(e.books.ledger, RefundedBy(n));
  }

  lemma InsertMoney(e: Economy, publisher: nat, contract: Contract)
    requires TaskInvariant(e)
    ensures Money(InsertTask(e, publisher, contract))
  {
    var e' := InsertTask(e, publisher, contract);
    InsertCounters(e, publisher, contract);
    PaymentsUntouched(e, e');
    SumAppend(e.tasks, e'.tasks[|e.tasks|], EscrowOf());
  }

  lemma InsertCounters(e: Economy, publisher: nat, contract: Contract)
    requires TaskInvariant(e)
    ensures var e' := InsertTask(e, publisher, contract); forall u: nat :: u < |e'.tasks| ==> CountersExplained(e', u)
  {
    UnmentionedTask(e);
    var e' := InsertTask(e, publisher, contract);
    forall u: nat | u < |e'.tasks| ensures CountersExplained(e', u) {
      assert u < |e.tasks| ==> CountersExplained(e, u);
    }
  }

  lemma CreatePath(e: Economy, publisher: nat, contract: Contract, budget: int64)
    requires CreateTask(e, publisher, contract, budget).Ok?
    ensures ValidContract(contract) && publisher < |e.books.balances| && budget <= MAX_AMOUNT
    ensures Lock(InsertTask(e, publisher, contract), |e.tasks|, publisher, TaskLock, budget) == CreateTask(e, publisher, contract, budget)
  {
  }

  lemma InsertKeepsInvariant(e: Economy, publisher: nat, contract: Contract)
    requires TaskInvariant(e) && ValidContract(contract) && publisher < |e.books.balances|
    ensures TaskInvariant(InsertTask(e, publisher, contract))
  {
    InsertShape(e, publisher, contract);
    InsertMoney(e, publisher, contract);
  }

  lemma CreateKeepsInvariant(e: Economy, publisher: nat, contract: Contract, budget: int64)
    requires TaskInvariant(e) && CreateTask(e, publisher, contract, budget).Ok?
    ensures TaskInvariant(CreateTask(e, publisher, contract, budget).value)
  {
    CreatePath(e, publisher, contract, budget);
    InsertKeepsInvariant(e, publisher, contract);
    var inserted := InsertTask(e, publisher, contract);
    LockShape(inserted, |e.tasks|, publisher, TaskLock, budget);
    LockMoney(inserted, |e.tasks|, publisher, TaskLock, budget);
  }

  // -- executor transactions keep the invariant --

  lemma ReservationShape(e: Economy, t: nat, reserved: int)
    requires Shape(e) && t < |e.tasks| && 0 <= reserved <= e.tasks[t].reserved + e.tasks[t].Available()
    ensures Shape(e.(tasks := e.tasks[t := e.tasks[t].(reserved := reserved)]))
  {
  }

  lemma ClaimStatusShape(e: Economy, c: nat, from: ClaimStatus, event: ClaimEvent)
    requires Shape(e) && ApplyClaimStatus(e, c, from, event).Ok?
    ensures Shape(ApplyClaimStatus(e, c, from, event).value)
  {
  }

  lemma InsertClaimShape(e: Economy, claim: Claim)
    requires Shape(e) && ClaimRowOk(claim, |e.tasks|, |e.books.balances|, e.versions)
    requires InsertClaim(e, claim).Ok?
    ensures Shape(InsertClaim(e, claim).value)
  {
  }

  lemma InsertSubmissionShape(e: Economy, t: nat, agent: nat, key: string, payload: string, hash: string,
                              amount: int64, claim: nat, version: nat, at: int)
    requires Shape(e) && t < |e.tasks| && agent < |e.books.balances| && amount > 0 && (t, version) in e.versions
    requires InsertSubmission(e, t, agent, key, payload, hash, amount, claim, version, at).Ok?
    ensures Shape(InsertSubmission(e, t, agent, key, payload, hash, amount, claim, version, at).value)
  {
  }

  lemma EndClaimShape(e: Economy, c: nat, event: ClaimEvent)
    requires Shape(e) && c < |e.claims| && EndClaim(e, c, event).Ok?
    ensures Shape(EndClaim(e, c, event).value)
  {
    ClaimStatusShape(e, c, Active, event);
    var claim := e.claims[c];
    ReservationShape(ApplyClaimStatus(e, c, Active, event).value, claim.task, e.tasks[claim.task].reserved - claim.amount);
  }

  lemma EndClaimMoney(e: Economy, c: nat, event: ClaimEvent)
    requires Money(e) && c < |e.claims| && event in {ClaimRelease, ClaimExpire} && EndClaim(e, c, event).Ok?
    ensures Money(EndClaim(e, c, event).value)
  {
    var e' := EndClaim(e, c, event).value;
    var t := e.claims[c].task;
    forall u: nat
      ensures Sum(e'.claims, ActiveAmount(u)) == Sum(e.claims, ActiveAmount(u)) - (if u == t then e.claims[c].amount else 0)
    {
      SumUpdate(e.claims, c, e'.claims[c], ActiveAmount(u));
    }
    CountersMove(e, t, e');
    PaymentsUntouched(e, e');
    EscrowUnmoved(e.books, e.tasks, t, e'.tasks[t]);
  }

  /** Ending a live claim never meets a missing reservation. */
  lemma EndClaimKeepsInvariant(e: Economy, c: nat, event: ClaimEvent)
    requires TaskInvariant(e) && c < |e.claims| && e.claims[c].status == Active
    requires event in {ClaimRelease, ClaimExpire}
    ensures EndClaim(e, c, event).Ok?
    ensures TaskInvariant(EndClaim(e, c, event).value)
  {
    ClaimIsReserved(e, c);
    EndClaimShape(e, c, event);
    EndClaimMoney(e, c, event);
  }

  lemma IssueShape(e: Economy, claim: Claim)
    requires Shape(e) && ClaimRowOk(claim, |e.tasks|, |e.books.balances|, e.versions) && IssueClaim(e, claim).Ok?
    ensures Shape(IssueClaim(e, claim).value)
  {
    InsertClaimShape(e, claim);
    ReservationShape(InsertClaim(e, claim).value, claim.task, e.tasks[claim.task].reserved + claim.amount);
  }

  lemma IssueMoney(e: Economy, claim: Claim)
    requires Money(e) && claim.status == Active && IssueClaim(e, claim).Ok?
    ensures Money(IssueClaim(e, claim).value)
  {
    var e' := IssueClaim(e, claim).value;
    var t := claim.task;
    forall u: nat
      ensures Sum(e'.claims, ActiveAmount(u)) == Sum(e.claims, ActiveAmount(u)) + (if u == t then claim.amount else 0)
    {
      SumAppend(e.claims, claim, ActiveAmount(u));
    }
    CountersMove(e, t, e');
    PaymentsUntouched(e, e');
    EscrowUnmoved(e.books, e.tasks, t, e'.tasks[t]);
  }

  /** With the sweep done, no active claim of this agent on this task is left. */
  lemma SweptClaimIsGone(e: Economy, c: nat, event: ClaimEvent)
    requires OneActiveClaim(e.claims) && c < |e.claims| && e.claims[c].amount > 0
    requires event in {ClaimRelease, ClaimExpire} && EndClaim(e, c, event).Ok?
    ensures FindActiveClaim(EndClaim(e, c, event).value.claims, e.claims[c].task, e.claims[c].agent).None?
    ensures var e' := EndClaim(e, c, event).value;
            && e.claims[c].task < |e.tasks| == |e'.tasks| && e'.versions == e.versions && e'.books == e.books
            && e'.tasks[e.claims[c].task].Available() >= e.tasks[e.claims[c].task].Available()
  {
  }

  lemma SlotMeansPrice(available: int, price: int)
    requires price > 0 && available >= 0
    ensures available / price >= 1 <==> available >= price
  {
    assert available == price * (available / price) + available % price;
  }

  /** Who may claim: the guards alone decide. */
  predicate MayClaim(e: Economy, agent: nat, t: nat, now: int) {
    && t < |e.tasks| && agent < |e.books.balances|
    && AudienceVisible(e.tasks[t], agent)
    && e.tasks[t].status == Open && e.tasks[t].publisher != agent
    && (|| (var held := FindActiveClaim(e.claims, t, agent);
            held.Some? && e.claims[held.value].expiresAt > now)
        || (&& BelowRejectionLimit(e, t, agent, now) && e.tasks[t].Available() >= e.tasks[t].contract.price
            && |PinsOf(e, t)| <= 1))
  }

  function ClaimFor(task: Task, agent: nat, t: nat, now: int, pins: seq<Pin>): Claim {
    Claim(t, agent, task.version, now + task.contract.ttl, now + task.contract.maxDuration, task.contract.price, Active, pins)
  }

  /** Freezing at most one pin is inserting the claim with its pins; two or more fail the transaction. */
  lemma FreezingIsInserting(e: Economy, claim: Claim, pins: seq<Pin>)
    requires InsertClaim(e, claim).Ok?
    ensures FreezePins(InsertClaim(e, claim).value, |e.claims|, pins)
            == if |pins| <= 1 then InsertClaim(e, claim.(pins := pins)) else Err(TransactionAborted)
  {
    H.InsertIsExact(|e.claims|, pins);
    assert (e.claims + [claim])[|e.claims| := claim.(pins := pins)] == e.claims + [claim.(pins := pins)];
  }

  lemma BindIsIssue(e: Economy, claim: Claim, pins: seq<Pin>)
    requires InsertClaim(e, claim).Ok?
    ensures BindClaim(e, claim, pins)
            == if |pins| <= 1 then IssueClaim(e, claim.(pins := pins)) else Err(TransactionAborted)
  {
    FreezingIsInserting(e, claim, pins);
  }

  /** Whoever holds no active claim can be issued one that the available budget covers. */
  lemma IssueKeepsInvariant(e: Economy, claim: Claim)
    requires TaskInvariant(e) && claim.status == Active && claim.task < |e.tasks|
    requires ClaimRowOk(claim, |e.tasks|, |e.books.balances|, e.versions)
    requires FindActiveClaim(e.claims, claim.task, claim.agent).None?
    requires e.tasks[claim.task].Available() >= claim.amount
    ensures IssueClaim(e, claim).Ok? && TaskInvariant(IssueClaim(e, claim).value)
  {
    IssueShape(e, claim);
    IssueMoney(e, claim);
  }

  lemma CurrentVersionExists(e: Economy, t: nat)
    requires Shape(e) && t < |e.tasks|
    ensures (t, e.tasks[t].version) in e.versions && e.tasks[t].contract.price > 0
    ensures e.versions[(t, e.tasks[t].version)] == e.tasks[t].contract
  {
  }

  /** Sweeping an expired claim and issuing a new one in the same transaction. */
  lemma SweepAndIssue(e: Economy, c: nat, claim: Claim)
    requires TaskInvariant(e) && c < |e.claims| && e.claims[c].status == Active
    requires claim.status == Active && claim.task == e.claims[c].task && claim.agent == e.claims[c].agent
    requires ClaimRowOk(claim, |e.tasks|, |e.books.balances|, e.versions)
    requires e.tasks[claim.task].Available() >= claim.amount
    ensures EndClaim(e, c, ClaimExpire).Ok?
    ensures IssueClaim(EndClaim(e, c, ClaimExpire).value, claim).Ok?
    ensures TaskInvariant(IssueClaim(EndClaim(e, c, ClaimExpire).value, claim).value)
  {
    EndClaimKeepsInvariant(e, c, ClaimExpire);
    SweptClaimIsGone(e, c, ClaimExpire);
    IssueKeepsInvariant(EndClaim(e, c, ClaimExpire).value, claim);
  }

  /** The visible guards of a fresh claim, harness aside. */
  predicate FreshGuards(e: Economy, agent: nat, t: nat, now: int) {
    && t < |e.tasks| && agent < |e.books.balances| && AudienceVisible(e.tasks[t], agent)
    && e.tasks[t].status == Open && e.tasks[t].publisher != agent && BelowRejectionLimit(e, t, agent, now)
    && e.tasks[t].contract.price > 0 && e.tasks[t].Available() >= e.tasks[t].contract.price
  }

  /** Past its guards, claiming is sweeping (where needed) and binding. */
  lemma ClaimPath(e: Economy, agent: nat, t: nat, now: int)
    requires FreshGuards(e, agent, t, now)
    requires var held := FindActiveClaim(e.claims, t, agent);
             held.Some? ==> e.claims[held.value].expiresAt <= now
    ensures var held := FindActiveClaim(e.claims, t, agent);
            var swept := if held.Some? then EndClaim(e, held.value, ClaimExpire) else Ok(e);
            ClaimTask(e, agent, t, now) ==
            if swept.Err? then swept else BindClaim(swept.value, ClaimFor(e.tasks[t], agent, t, now, []), PinsOf(e, t))
  {
    SlotMeansPrice(e.tasks[t].Available(), e.tasks[t].contract.price);
  }

  lemma ClaimedIsFresh(e: Economy, agent: nat, t: nat, now: int)
    requires ClaimTask(e, agent, t, now).Ok?
    requires var held := FindActiveClaim(e.claims, t, agent);
             held.Some? ==> e.claims[held.value].expiresAt <= now
    ensures FreshGuards(e, agent, t, now)
  {
    SlotMeansPrice(e.tasks[t].Available(), e.tasks[t].contract.price);
  }

  /** Whoever holds no active claim gets one with its pins, unless there are two. */
  lemma FreshBinds(e: Economy, task: Task, agent: nat, t: nat, now: int, pins: seq<Pin>)
    requires FindActiveClaim(e.claims, t, agent).None?
    ensures BindClaim(e, ClaimFor(task, agent, t, now, []), pins)
            == if |pins| <= 1 then IssueClaim(e, ClaimFor(task, agent, t, now, pins)) else Err(TransactionAborted)
  {
    BindIsIssue(e, ClaimFor(task, agent, t, now, []), pins);
  }

  /** A first claim, and a claim after an expired one, succeed exactly when at most one memory is pinned. */
  lemma FirstClaim(e: Economy, agent: nat, t: nat, now: int)
    requires TaskInvariant(e) && FreshGuards(e, agent, t, now) && FindActiveClaim(e.claims, t, agent).None?
    ensures ClaimTask(e, agent, t, now).Ok? <==> |PinsOf(e, t)| <= 1
    ensures ClaimTask(e, agent, t, now).Ok? ==> TaskInvariant(ClaimTask(e, agent, t, now).value)
  {
    CurrentVersionExists(e, t);
    ClaimPath(e, agent, t, now);
    FreshBinds(e, e.tasks[t], agent, t, now, PinsOf(e, t));
    IssueKeepsInvariant(e, ClaimFor(e.tasks[t], agent, t, now, PinsOf(e, t)));
  }

  lemma ClaimAgain(e: Economy, agent: nat, t: nat, now: int, c: nat)
    requires TaskInvariant(e) && FreshGuards(e, agent, t, now) && FindActiveClaim(e.claims, t, agent) == Some(c)
    requires c < |e.claims| && e.claims[c].expiresAt <= now
    ensures ClaimTask(e, agent, t, now).Ok? <==> |PinsOf(e, t)| <= 1
    ensures ClaimTask(e, agent, t, now).Ok? ==> TaskInvariant(ClaimTask(e, agent, t, now).value)
  {
    CurrentVersionExists(e, t);
    SweepAndIssue(e, c, ClaimFor(e.tasks[t], agent, t, now, PinsOf(e, t)));
    SweptClaimIsGone(e, c, ClaimExpire);
    ClaimPath(e, agent, t, now);
    FreshBinds(EndClaim(e, c, ClaimExpire).value, e.tasks[t], agent, t, now, PinsOf(e, t));
  }

  /**
   Exactly who may claim. Past the visible guards a claim never fails on money, but a contract
   whose harness still resolves to two memories lets nobody claim afresh.
   */
  lemma ClaimKeepsInvariant(e: Economy, agent: nat, t: nat, now: int)
    requires TaskInvariant(e)
    ensures ClaimTask(e, agent, t, now).Ok? <==> MayClaim(e, agent, t, now)
    ensures ClaimTask(e, agent, t, now).Ok? ==> TaskInvariant(ClaimTask(e, agent, t, now).value)
  {
    if t < |e.tasks| && agent < |e.books.balances| {
      CurrentVersionExists(e, t);
      SlotMeansPrice(e.tasks[t].Available(), e.tasks[t].contract.price);
      if FreshGuards(e, agent, t, now) {
        match FindActiveClaim(e.claims, t, agent)
        case None => FirstClaim(e, agent, t, now);
        case Some(c) =>
          if e.claims[c].expiresAt <= now {
            ClaimAgain(e, agent, t, now, c);
          }
      }
    }
  }

  lemma RenewShape(e: Economy, agent: nat, c: nat, now: int)
    requires Shape(e) && RenewClaim(e, agent, c, now).Ok?
    ensures Shape(RenewClaim(e, agent, c, now).value)
  {
  }

  lemma RenewKeepsInvariant(e: Economy, agent: nat, c: nat, now: int)
    requires TaskInvariant(e) && RenewClaim(e, agent, c, now).Ok?
    ensures TaskInvariant(RenewClaim(e, agent, c, now).value)
  {
    RenewShape(e, agent, c, now);
    var e' := RenewClaim(e, agent, c, now).value;
    forall u: nat ensures Sum(e'.claims, ActiveAmount(u)) == Sum(e.claims, ActiveAmount(u)) {
      SumUpdate(e.claims, c, e'.claims[c], ActiveAmount(u));
    }
    CountersMove(e, e.claims[c].task, e');
    PaymentsUntouched(e, e');
  }

  /** What one more in-flight submission does to the sums over submissions. */
  lemma IntakeSums(subs: seq<Submission>, sub: Submission)
    requires sub.state == Delivering
    ensures forall u: nat :: Sum(subs + [sub], InFlightAmount(u))
                             == Sum(subs, InFlightAmount(u)) + (if u == sub.task then sub.amount else 0)
    ensures forall u: nat :: Sum(subs + [sub], SettledAmount(u)) == Sum(subs, SettledAmount(u))
  {
    forall u: nat
      ensures Sum(subs + [sub], InFlightAmount(u))
              == Sum(subs, InFlightAmount(u)) + (if u == sub.task then sub.amount else 0)
      ensures Sum(subs + [sub], SettledAmount(u)) == Sum(subs, SettledAmount(u))
    {
      SumAppend(subs, sub, InFlightAmount(u));
      SumAppend(subs, sub, SettledAmount(u));
    }
  }

  /** Nothing has been paid for a submission that does not exist yet. */
  lemma IntakeIsUnpaid(e: Economy, e': Economy, sub: Submission)
    requires Money(e) && sub.state == Delivering
    requires e'.submissions == e.submissions + [sub] && e'.books == e.books
    ensures forall s: nat :: s < |e'.submissions| ==> PaidExactly(e', s)
    ensures RefsExist(e'.books.ledger, |e.tasks|, |e'.submissions|)
  {
    SumZero(e.books.ledger, Payouts(|e.submissions|));
    SumZero(e.books.ledger, EarnedBy(|e.submissions|));
    forall s: nat | s < |e'.submissions| ensures PaidExactly(e', s) {
      assert s < |e.submissions| ==> PaidExactly(e, s);
    }
  }

  /** The claim row an intake without a claim records: born used, with the frozen pins. */
  function EngagementFor(e: Economy, agent: nat, t: nat, now: int): Claim
    requires t < |e.tasks|
  {
    Claim(t, agent, e.tasks[t].version, now, now, e.tasks[t].contract.price, Used, PinsOf(e, t))
  }

  /** Reserving the price and recording a claim born used. */
  lemma EngagementShape(e: Economy, claim: Claim)
    requires Shape(e) && claim.status == Used && ClaimRowOk(claim, |e.tasks|, |e.books.balances|, e.versions)
    requires ReserveTaskAmount(e, claim.task, claim.amount).Ok?
    ensures var reserved := ReserveTaskAmount(e, claim.task, claim.amount).value;
            && InsertClaim(reserved, claim).Ok? && Shape(InsertClaim(reserved, claim).value)
  {
    ReservationShape(e, claim.task, e.tasks[claim.task].reserved + claim.amount);
    InsertClaimShape(ReserveTaskAmount(e, claim.task, claim.amount).value, claim);
  }

  /** Past its guards an intake without a claim reserves, engages and records, unless two pins stop it. */
  lemma IntakePath(e: Economy, agent: nat, t: nat, key: string, payload: string, hash: string, now: int)
    requires t < |e.tasks| && !e.tasks[t].contract.claimRequired && e.tasks[t].status == Open
    requires ReserveTaskAmount(e, t, e.tasks[t].contract.price).Ok?
    ensures var reserved := ReserveTaskAmount(e, t, e.tasks[t].contract.price).value;
            var fact := EngagementFor(e, agent, t, now);
            && InsertClaim(reserved, fact).Ok?
            && SubmitWithoutClaim(e, agent, t, key, payload, hash, now)
               == if |PinsOf(e, t)| <= 1
                  then InsertSubmission(InsertClaim(reserved, fact).value, t, agent, key, payload, hash,
                                        e.tasks[t].contract.price, |e.claims|, e.tasks[t].version, now)
                  else Err(TransactionAborted)
  {
    var reserved := ReserveTaskAmount(e, t, e.tasks[t].contract.price).value;
    FreezingIsInserting(reserved, EngagementFor(e, agent, t, now).(pins := []), PinsOf(e, t));
  }

  lemma SubmitWithoutClaimShape(e: Economy, agent: nat, t: nat, key: string, payload: string, hash: string, now: int)
    requires Shape(e) && t < |e.tasks| && agent < |e.books.balances|
    requires SubmitWithoutClaim(e, agent, t, key, payload, hash, now).Ok?
    ensures Shape(SubmitWithoutClaim(e, agent, t, key, payload, hash, now).value)
  {
    var task := e.tasks[t];
    var price := task.contract.price;
    var fact := EngagementFor(e, agent, t, now);
    CurrentVersionExists(e, t);
    IntakePath(e, agent, t, key, payload, hash, now);
    EngagementShape(e, fact);
    InsertSubmissionShape(InsertClaim(ReserveTaskAmount(e, t, price).value, fact).value, t, agent, key, payload, hash, price,
                          |e.claims|, task.version, now);
  }

  lemma SubmitWithoutClaimMoney(e: Economy, agent: nat, t: nat, key: string, payload: string, hash: string, now: int)
    requires Money(e) && t < |e.tasks| && SubmitWithoutClaim(e, agent, t, key, payload, hash, now).Ok?
    ensures Money(SubmitWithoutClaim(e, agent, t, key, payload, hash, now).value)
  {
    IntakePath(e, agent, t, key, payload, hash, now);
    var e' := SubmitWithoutClaim(e, agent, t, key, payload, hash, now).value;
    var sub := e'.submissions[|e.submissions|];
    IntakeSums(e.submissions, sub);
    IntakeIsUnpaid(e, e', sub);
    forall u: nat ensures Sum(e'.claims, ActiveAmount(u)) == Sum(e.claims, ActiveAmount(u)) {
      SumAppend(e.claims, EngagementFor(e, agent, t, now), ActiveAmount(u));
    }
    CountersMove(e, t, e');
    EscrowUnmoved(e.books, e.tasks, t, e'.tasks[t]);
  }

  lemma SubmitUnderClaimShape(e: Economy, agent: nat, t: nat, key: string, payload: string, hash: string, c: nat, now: int)
    requires Shape(e) && t < |e.tasks| && agent < |e.books.balances|
    requires SubmitUnderClaim(e, agent, t, key, payload, hash, c, now).Ok?
    ensures Shape(SubmitUnderClaim(e, agent, t, key, payload, hash, c, now).value)
  {
    ClaimStatusShape(e, c, Active, ClaimUse);
    InsertSubmissionShape(ApplyClaimStatus(e, c, Active, ClaimUse).value, t, agent, key, payload, hash,
                          e.claims[c].amount, c, e.claims[c].version, now);
  }

  /** The claim's hold on the budget passes to the submission; the task row does not move. */
  lemma SubmitUnderClaimMoney(e: Economy, agent: nat, t: nat, key: string, payload: string, hash: string, c: nat, now: int)
    requires Money(e) && t < |e.tasks| && SubmitUnderClaim(e, agent, t, key, payload, hash, c, now).Ok?
    ensures Money(SubmitUnderClaim(e, agent, t, key, payload, hash, c, now).value)
  {
    var e' := SubmitUnderClaim(e, agent, t, key, payload, hash, c, now).value;
    var sub := e'.submissions[|e.submissions|];
    IntakeSums(e.submissions, sub);
    IntakeIsUnpaid(e, e', sub);
    forall u: nat
      ensures Sum(e'.claims, ActiveAmount(u))
              == Sum(e.claims, ActiveAmount(u)) - (if u == t then e.claims[c].amount else 0)
    {
      SumUpdate(e.claims, c, e'.claims[c], ActiveAmount(u));
    }
    CountersMove(e, t, e');
  }

  /** A new intake that passed its guards is one of the two kinds; a replay changes nothing. */
  lemma SubmitPath(e: Economy, agent: nat, t: nat, key: string, payload: string, hash: string, c: Option<nat>, now: int)
    requires SubmitWork(e, agent, t, key, payload, hash, c, now).Ok?
    ensures t < |e.tasks| && agent < |e.books.balances|
    ensures SubmitWork(e, agent, t, key, payload, hash, c, now) ==
            if FindByIdentity(e.submissions, t, agent, key).Some? then Ok(e)
            else if c.None? then SubmitWithoutClaim(e, agent, t, key, payload, hash, now)
            else SubmitUnderClaim(e, agent, t, key, payload, hash, c.value, now)
  {
  }

  /** Exactly when an intake succeeds: a replay of the same payload, or a new one whose guards pass. */
  predicate MaySubmit(e: Economy, agent: nat, t: nat, key: string, hash: string, c: Option<nat>, now: int) {
    && t < |e.tasks| && agent < |e.books.balances|
    && (match FindByIdentity(e.submissions, t, agent, key)
        case Some(twin) => e.submissions[twin].payloadHash == hash
        case None =>
          && AudienceVisible(e.tasks[t], agent) && e.tasks[t].publisher != agent
          && BelowRejectionLimit(e, t, agent, now)
          && (match c
              case None => && !e.tasks[t].contract.claimRequired && e.tasks[t].status == Open
                           && e.tasks[t].Available() >= e.tasks[t].contract.price && |PinsOf(e, t)| <= 1
              case Some(claim) => && claim < |e.claims| && e.claims[claim].agent == agent && e.claims[claim].task == t
                                  && e.claims[claim].status == Active && e.claims[claim].expiresAt > now))
  }

  lemma IntakeSucceedsExactly(e: Economy, agent: nat, t: nat, key: string, payload: string, hash: string, now: int)
    requires t < |e.tasks| && e.tasks[t].contract.price > 0 && FindByIdentity(e.submissions, t, agent, key).None?
    ensures SubmitWithoutClaim(e, agent, t, key, payload, hash, now).Ok? <==>
              && !e.tasks[t].contract.claimRequired && e.tasks[t].status == Open
              && e.tasks[t].Available() >= e.tasks[t].contract.price && |PinsOf(e, t)| <= 1
  {
    if !e.tasks[t].contract.claimRequired && e.tasks[t].status == Open && e.tasks[t].Available() >= e.tasks[t].contract.price {
      IntakePath(e, agent, t, key, payload, hash, now);
    }
  }

  lemma SubmitSucceedsExactly(e: Economy, agent: nat, t: nat, key: string, payload: string, hash: string, c: Option<nat>, now: int)
    requires t < |e.tasks| ==> e.tasks[t].contract.price > 0
    ensures SubmitWork(e, agent, t, key, payload, hash, c, now).Ok? <==> MaySubmit(e, agent, t, key, hash, c, now)
  {
    if t < |e.tasks| && FindByIdentity(e.submissions, t, agent, key).None? {
      IntakeSucceedsExactly(e, agent, t, key, payload, hash, now);
    }
  }

  /** Intake succeeds exactly when it may, and keeps the invariant. */
  lemma SubmitKeepsInvariant(e: Economy, agent: nat, t: nat, key: string, payload: string, hash: string, c: Option<nat>, now: int)
    requires TaskInvariant(e)
    ensures SubmitWork(e, agent, t, key, payload, hash, c, now).Ok? <==> MaySubmit(e, agent, t, key, hash, c, now)
    ensures SubmitWork(e, agent, t, key, payload, hash, c, now).Ok? ==>
              TaskInvariant(SubmitWork(e, agent, t, key, payload, hash, c, now).value)
  {
    SubmitSucceedsExactly(e, agent, t, key, payload, hash, c, now);
    if SubmitWork(e, agent, t, key, payload, hash, c, now).Ok? {
      SubmitPath(e, agent, t, key, payload, hash, c, now);
      if FindByIdentity(e.submissions, t, agent, key).None? {
        if c.None? {
          SubmitWithoutClaimShape(e, agent, t, key, payload, hash, now);
          SubmitWithoutClaimMoney(e, agent, t, key, payload, hash, now);
        } else {
          SubmitUnderClaimShape(e, agent, t, key, payload, hash, c.value, now);
          SubmitUnderClaimMoney(e, agent, t, key, payload, hash, c.value, now);
        }
      }
    }
  }

  // -- delivery outcomes --

  lemma {:induction false} MaxSeqOfLog(log: seq<LogEntry>)
    requires forall i :: 0 <= i < |log| ==> log[i].seqNo == i + 1
    ensures MaxSeq(log) == |log|
  {
    if log != [] {
      MaxSeqOfLog(log[..|log| - 1]);
    }
  }

  /** One more legal event keeps the log well formed and numbered without gaps. */
  lemma LogExtends(log: seq<LogEntry>, from: SubmissionState, event: SubmissionEvent, to: SubmissionState, at: int)
    requires LogOk(log, from) && SubmissionTransition(from, event) == Ok(to)
    ensures LogOk(log + [LogEntry(MaxSeq(log) + 1, Some(from), to, event, at)], to)
  {
    MaxSeqOfLog(log);
  }

  lemma StateShape(e: Economy, s: nat, from: SubmissionState, event: SubmissionEvent, at: int)
    requires Shape(e) && SetSubmissionState(e, s, from, event, at).Ok?
    ensures Shape(SetSubmissionState(e, s, from, event, at).value)
  {
    LogExtends(e.submissions[s].log, from, event, SubmissionTransition(from, event).value, at);
    RowShape(e, s, SetSubmissionState(e, s, from, event, at).value.submissions[s]);
  }

  /** Overwriting a submission row under its own identity. */
  lemma RowShape(e: Economy, s: nat, sub: Submission)
    requires Shape(e) && s < |e.submissions| && SubmissionRowOk(sub, |e.tasks|, |e.books.balances|, e.versions)
    requires var was := e.submissions[s]; sub.task == was.task && sub.agent == was.agent && sub.requestKey == was.requestKey
    ensures Shape(e.(submissions := e.submissions[s := sub]))
  {
  }

  /** The sums over submissions after one of them changed state. */
  lemma OutcomeSums(subs: seq<Submission>, s: nat, sub: Submission)
    requires s < |subs| && sub.task == subs[s].task && sub.amount == subs[s].amount
    ensures forall u: nat ::
              Sum(subs[s := sub], InFlightAmount(u))
              == Sum(subs, InFlightAmount(u)) - InFlightAmount(u)(subs[s]) + InFlightAmount(u)(sub)
    ensures forall u: nat ::
              Sum(subs[s := sub], SettledAmount(u))
              == Sum(subs, SettledAmount(u)) - SettledAmount(u)(subs[s]) + SettledAmount(u)(sub)
  {
    forall u: nat
      ensures Sum(subs[s := sub], InFlightAmount(u))
              == Sum(subs, InFlightAmount(u)) - InFlightAmount(u)(subs[s]) + InFlightAmount(u)(sub)
      ensures Sum(subs[s := sub], SettledAmount(u))
              == Sum(subs, SettledAmount(u)) - SettledAmount(u)(subs[s]) + SettledAmount(u)(sub)
    {
      SumUpdate(subs, s, sub, InFlightAmount(u));
      SumUpdate(subs, s, sub, SettledAmount(u));
    }
  }

  /** Paying one submission its amount, once, settles exactly that submission. */
  lemma PayoutSettles(e: Economy, s: nat, row: Row, e': Economy)
    requires Money(e) && s < |e.submissions| && e.submissions[s].state != Settled
    requires |e'.submissions| == |e.submissions| && e'.submissions == e.submissions[s := e'.submissions[s]] && e'.submissions[s].state == Settled
    requires row.kind == TaskEarn && row.ref == SubmissionRef(s) && row.amount == e'.submissions[s].amount > 0
    requires e'.books.ledger == e.books.ledger + [row]
    ensures forall i: nat :: i < |e'.submissions| ==> PaidExactly(e', i)
  {
    forall i: nat | i < |e'.submissions| ensures PaidExactly(e', i) {
      assert PaidExactly(e, i);
      SumAppend(e.books.ledger, row, Payouts(i));
      SumAppend(e.books.ledger, row, EarnedBy(i));
    }
  }

  lemma SettlementShape(e: Economy, s: nat, pre: SubmissionState, at: int)
    requires Shape(e) && s < |e.submissions| && e.submissions[s].state == pre
    requires WriteDeliveryOutcome(e, s, pre, Deliver2XX, at).Ok?
    ensures Shape(WriteDeliveryOutcome(e, s, pre, Deliver2XX, at).value)
  {
    StateShape(e, s, pre, Deliver2XX, at);
    var sub := e.submissions[s];
    SettleShape(SetSubmissionState(e, s, pre, Deliver2XX, at).value, sub.task, s, sub.agent, sub.amount);
  }

  lemma SettleShape(e: Economy, t: nat, s: nat, agent: nat, amount: int64)
    requires Shape(e) && SettleTaskSubmission(e, t, s, agent, amount).Ok?
    ensures Shape(SettleTaskSubmission(e, t, s, agent, amount).value)
  {
  }

  lemma SettlementMoney(e: Economy, s: nat, pre: SubmissionState, at: int)
    requires Money(e) && s < |e.submissions| && e.submissions[s].state == pre
    requires WriteDeliveryOutcome(e, s, pre, Deliver2XX, at).Ok?
    ensures Money(WriteDeliveryOutcome(e, s, pre, Deliver2XX, at).value)
  {
    var was := e.submissions[s];
    var e' := WriteDeliveryOutcome(e, s, pre, Deliver2XX, at).value;
    var t := was.task;
    CreditsMove(e.books, e.tasks, t, e'.tasks[t], was.agent, TaskEarn, was.amount, SubmissionRef(s));
    var row := e'.books.ledger[|e.books.ledger|];
    LedgerSums(e.books.ledger, row);
    OutcomeSums(e.submissions, s, e'.submissions[s]);
    CountersMove(e, t, e');
    PayoutSettles(e, s, row, e');
  }

  lemma UnpaidOutcomeShape(e: Economy, s: nat, pre: SubmissionState, event: SubmissionEvent, at: int)
    requires Shape(e) && s < |e.submissions| && e.submissions[s].state == pre && event != Deliver2XX
    requires SubmissionTransition(pre, event).Ok? && WriteDeliveryOutcome(e, s, pre, event, at).Ok?
    ensures Shape(WriteDeliveryOutcome(e, s, pre, event, at).value)
  {
    StateShape(e, s, pre, event, at);
  }

  lemma UnpaidOutcomeMoney(e: Economy, s: nat, pre: SubmissionState, event: SubmissionEvent, at: int)
    requires Money(e) && s < |e.submissions| && e.submissions[s].state == pre && event != Deliver2XX
    requires e.submissions[s].task < |e.tasks|
    requires SubmissionTransition(pre, event).Ok? && WriteDeliveryOutcome(e, s, pre, event, at).Ok?
    ensures Money(WriteDeliveryOutcome(e, s, pre, event, at).value)
  {
    var e' := WriteDeliveryOutcome(e, s, pre, event, at).value;
    var t := e.submissions[s].task;
    assert e'.tasks == e.tasks[t := e'.tasks[t]];
    UnpaidMoney(e, s, e');
  }

  /** A submission leaves its reservation, or keeps it, without being paid. */
  lemma UnpaidMoney(e: Economy, s: nat, e': Economy)
    requires Money(e) && s < |e.submissions| == |e'.submissions| && e.submissions[s].task < |e.tasks| == |e'.tasks|
    requires e'.books == e.books && e'.claims == e.claims
    requires var was, now := e.submissions[s], e'.submissions[s];
             && e'.submissions == e.submissions[s := now] && now.task == was.task && now.amount == was.amount && now.agent == was.agent
             && was.state != SubmissionState.Settled && now.state != SubmissionState.Settled
             && var t := was.task;
                && e'.tasks == e.tasks[t := e'.tasks[t]]
                && e'.tasks[t].reserved - e.tasks[t].reserved == InFlightAmount(t)(now) - InFlightAmount(t)(was)
                && e'.tasks[t].settled == e.tasks[t].settled && e'.tasks[t].locked == e.tasks[t].locked
                && e'.tasks[t].refunded == e.tasks[t].refunded
    ensures Money(e')
  {
    var t := e.submissions[s].task;
    OutcomeSums(e.submissions, s, e'.submissions[s]);
    CountersMove(e, t, e');
    PaymentsUntouched(e, e');
    EscrowUnmoved(e.books, e.tasks, t, e'.tasks[t]);
  }

  /** Exactly when an outcome is written: the submission exists, and it moved on, or the edge is legal and payable. */
  predicate MayWrite(e: Economy, s: nat, pre: SubmissionState, event: SubmissionEvent) {
    && s < |e.submissions|
    && (|| e.submissions[s].state != pre
        || (event == Timeout && pre == Uncertain)
        || (&& SubmissionTransition(pre, event).Ok?
            && (event == Deliver2XX && e.submissions[s].agent < |e.books.balances| ==>
                  Fits(e.books.balances[e.submissions[s].agent] + e.submissions[s].amount))))
  }

  /**
   Writing an outcome never meets a missing reservation: on a reachable state it fails exactly
   for an unknown submission, an illegal edge, or a payout the agent's balance cannot hold.
   */
  lemma OutcomeKeepsInvariant(e: Economy, s: nat, pre: SubmissionState, event: SubmissionEvent, at: int)
    requires TaskInvariant(e)
    ensures WriteDeliveryOutcome(e, s, pre, event, at).Ok? <==> MayWrite(e, s, pre, event)
    ensures WriteDeliveryOutcome(e, s, pre, event, at).Ok? ==>
              TaskInvariant(WriteDeliveryOutcome(e, s, pre, event, at).value)
  {
    if s < |e.submissions| && e.submissions[s].state == pre && SubmissionTransition(pre, event).Ok? {
      OutcomeSucceedsExactly(e, s, pre, event, at);
      if WriteDeliveryOutcome(e, s, pre, event, at).Ok? {
        if event == Deliver2XX {
          SettlementShape(e, s, pre, at);
          SettlementMoney(e, s, pre, at);
        } else {
          UnpaidOutcomeShape(e, s, pre, event, at);
          UnpaidOutcomeMoney(e, s, pre, event, at);
        }
      }
    }
  }

  lemma OutcomeSucceedsExactly(e: Economy, s: nat, pre: SubmissionState, event: SubmissionEvent, at: int)
    requires TaskInvariant(e) && s < |e.submissions| && e.submissions[s].state == pre && SubmissionTransition(pre, event).Ok?
    ensures WriteDeliveryOutcome(e, s, pre, event, at).Ok? <==> MayWrite(e, s, pre, event)
  {
    SubmissionIsReserved(e, s);
    PostAppends(e.books, e.submissions[s].agent, TaskEarn, e.submissions[s].amount, SubmissionRef(s), true);
  }

  // -- drained tasks --

  /** Closed, nothing reserved, nothing left: locked is exactly settled plus refunded. */
  predicate Drained(task: Task) {
    task.status == Closed && task.reserved == 0 && task.locked == task.settled + task.refunded
  }

  lemma RefundDrains(e: Economy, publisher: nat, t: nat)
    requires TaskInvariant(e) && RefundTask(e, publisher, t).Ok?
    ensures Drained(RefundTask(e, publisher, t).value.tasks[t])
  {
  }

  /** A drained task has no live claim and no in-flight submission left to move it. */
  lemma DrainedIsQuiet(e: Economy, t: nat)
    requires TaskInvariant(e) && t < |e.tasks| && Drained(e.tasks[t])
    ensures forall c :: 0 <= c < |e.claims| && e.claims[c].task == t ==> e.claims[c].status != Active
    ensures forall s :: 0 <= s < |e.submissions| && e.submissions[s].task == t ==> Terminal(e.submissions[s].state)
  {
    forall c | 0 <= c < |e.claims| && e.claims[c].task == t ensures e.claims[c].status != Active {
      if e.claims[c].status == Active {
        ClaimIsReserved(e, c);
      }
    }
    forall s | 0 <= s < |e.submissions| && e.submissions[s].task == t ensures Terminal(e.submissions[s].state) {
      if !Terminal(e.submissions[s].state) {
        SubmissionIsReserved(e, s);
      }
    }
  }
}
