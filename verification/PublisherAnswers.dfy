/**
 What a publisher's request is answered, read off the tables alone: when it succeeds, and the
 whole new state when it does.
 */
module PublisherAnswers {
  import opened Int64
  import opened Results
  import opened Credits
  import opened Schema
  import opened TaskKernel
  import opened TaskStore

  // -- who is refused --

  /** What a stranger is told: outside the audience, not even that the task exists. */
  function Refusal(task: Task, who: nat): Error {
    if task.audience == {} || who in task.audience then NotOwner else NotFound
  }

  /** Nobody but its publisher refunds, funds, updates or moves a task. */
  lemma StrangersAreRefused(e: Economy, who: nat, t: nat, amount: int64, contract: Contract, event: TaskEvent)
    requires t < |e.tasks| && e.tasks[t].publisher != who
    ensures RefundTask(e, who, t) == Err(Refusal(e.tasks[t], who))
    ensures ChangeStatus(e, Some(who), t, event) == Err(Refusal(e.tasks[t], who))
    ensures FundTask(e, who, t, amount).Err? && UpdateTask(e, who, t, contract).Err?
    ensures 0 < amount <= 9007199254740991 ==> FundTask(e, who, t, amount) == Err(Refusal(e.tasks[t], who))
  {
  }

  // -- money --

  /** The state with only the books and this task row replaced. */
  predicate Moved(e: Economy, e': Economy, t: nat, task: Task) {
    t < |e.tasks| && e' == e.(books := e'.books, tasks := e.tasks[t := task])
  }

  /** A refund goes to the publisher of a closed task without reservations, and takes all that is left. */
  lemma RefundExactly(e: Economy, who: nat, t: nat)
    ensures RefundTask(e, who, t).Ok? <==>
              && t < |e.tasks| && e.tasks[t].publisher == who && who < |e.books.balances|
              && e.tasks[t].status == Closed && e.tasks[t].reserved <= 0
              && var left := e.tasks[t].locked - e.tasks[t].settled - e.tasks[t].reserved - e.tasks[t].refunded;
                 0 < left && Fits(left) && Fits(e.books.balances[who] + left)
    ensures RefundTask(e, who, t).Ok? ==>
              var e' := RefundTask(e, who, t).value;
              var left := e.tasks[t].locked - e.tasks[t].settled - e.tasks[t].reserved - e.tasks[t].refunded;
              && Moved(e, e', t, e.tasks[t].(refunded := e.tasks[t].refunded + left))
              && Booked(e.books, e'.books, who, TaskRefund, left, TaskRef(t))
  {
    if t < |e.tasks| && Fits(e.tasks[t].Available()) {
      RecordExactly(e.books, who, TaskRefund, e.tasks[t].Available(), TaskRef(t));
    }
  }

  /** Funding takes the amount from the publisher's balance into the task, unless it is closed or would hold too much. */
  lemma FundExactly(e: Economy, who: nat, t: nat, amount: int64)
    ensures FundTask(e, who, t, amount).Ok? <==>
              && t < |e.tasks| && e.tasks[t].publisher == who && who < |e.books.balances|
              && e.tasks[t].status != Closed && 0 < amount && e.tasks[t].locked + amount <= 9007199254740991
              && amount <= 9007199254740991 && amount <= e.books.balances[who]
    ensures FundTask(e, who, t, amount).Ok? ==>
              var e' := FundTask(e, who, t, amount).value;
              && Moved(e, e', t, e.tasks[t].(locked := e.tasks[t].locked + amount))
              && Booked(e.books, e'.books, who, TaskFund, 0 - amount, TaskRef(t))
  {
    if 0 < amount {
      RecordExactly(e.books, who, TaskFund, 0 - amount, TaskRef(t));
    }
  }

  // -- contracts --

  /** The bounds of a contract, in numbers: price, rejections a day, seconds, inputs, named agents. */
  lemma ContractBounds(c: Contract)
    ensures ValidContract(c) <==>
              && 1 <= c.price <= 9007199254740991 && 1 <= c.maxRejected <= 50
              && 300 <= c.ttl <= 7200 && 600 <= c.maxDuration <= 86400 && c.ttl <= c.maxDuration
              && |c.harness| <= 10 && (c.audience == Everyone || 1 <= |c.audience.agents| <= 50)
  {
  }

  /** All inputs are the publisher's own live memories. */
  predicate InputsAreOwn(e: Economy, who: nat, refs: seq<nat>) {
    forall m :: m in refs ==> m < |e.memories| && e.memories[m].owner == who && e.memories[m].active
  }

  lemma InputsExactly(e: Economy, who: nat, refs: seq<nat>)
    ensures HarnessValid(e, who, refs) <==> InputsAreOwn(e, who, refs)
  {
    if HarnessValid(e, who, refs) {
      forall m | m in refs ensures OwnActiveMemory(e, who, m) {
        var i :| 0 <= i < |refs| && refs[i] == m;
      }
    } else {
      var i :| 0 <= i < |refs| && !OwnActiveMemory(e, who, refs[i]);
      assert refs[i] in refs;
    }
  }

  /** A new task is paused at version 1, its budget already debited, its audience the named agents. */
  lemma CreateExactly(e: Economy, who: nat, c: Contract, budget: int64)
    ensures CreateTask(e, who, c, budget).Ok? <==>
              && ValidContract(c) && c.price <= budget <= 9007199254740991
              && who < |e.books.balances| && budget <= e.books.balances[who]
              && InputsAreOwn(e, who, c.harness)
              && (c.audience == Everyone || (who !in c.audience.agents && forall a :: a in c.audience.agents ==> a < |e.books.balances|))
    ensures CreateTask(e, who, c, budget).Ok? ==>
              var e' := CreateTask(e, who, c, budget).value;
              var named := if c.audience == Everyone then {} else c.audience.agents;
              && e' == e.(books := e'.books, tasks := e.tasks + [Task(who, named, Paused, budget, 0, 0, 0, c, 1)],
                          versions := e.versions[(|e.tasks|, 1) := c])
              && Booked(e.books, e'.books, who, TaskLock, 0 - budget, TaskRef(|e.tasks|))
  {
    InputsExactly(e, who, c.harness);
    RecordsDebit(e.books, who, TaskLock, budget, TaskRef(|e.tasks|));
    var row := Task(who, Named(c.audience), Paused, 0, 0, 0, 0, c, 1);
    assert (e.tasks + [row])[|e.tasks| := row.(locked := budget)] == e.tasks + [row.(locked := budget)];
  }

  lemma RecordsDebit(b: Books, bot: nat, kind: Kind, amount: int64, ref: Ref)
    ensures 0 < amount ==> (Record(b, bot, kind, 0 - amount, ref).Ok? <==> bot < |b.balances| && amount <= b.balances[bot])
    ensures 0 < amount && Record(b, bot, kind, 0 - amount, ref).Ok? ==>
              Booked(b, Record(b, bot, kind, 0 - amount, ref).value, bot, kind, 0 - amount, ref)
  {
    if 0 < amount {
      RecordExactly(b, bot, kind, 0 - amount, ref);
    }
  }

  /** Only a paused task takes a new contract, from its publisher, with the same audience; the version grows by one. */
  lemma UpdateExactly(e: Economy, who: nat, t: nat, c: Contract)
    ensures UpdateTask(e, who, t, c).Ok? <==>
              && t < |e.tasks| && e.tasks[t].publisher == who && e.tasks[t].status == Paused
              && ValidContract(c) && InputsAreOwn(e, who, c.harness) && c.audience == e.tasks[t].contract.audience
    ensures UpdateTask(e, who, t, c).Ok? ==>
              var next := e.tasks[t].version + 1;
              UpdateTask(e, who, t, c).value
              == e.(tasks := e.tasks[t := e.tasks[t].(contract := c, version := next)], versions := e.versions[(t, next) := c])
  {
    InputsExactly(e, who, c.harness);
  }

  // -- status --

  /** From which states an event is legal, and where it leads. */
  predicate LeadsTo(from: TaskStatus, event: TaskEvent, to: TaskStatus) {
    match to
    case Open => event == EventOpen && from == Paused
    case Paused => (event == EventPause || event == EventPlatformPause) && from == Open
    case Closed => (event == EventClose || event == EventPlatformClose) && from != Closed
  }

  /** A closed task stays closed; opening needs an owner, and a contract and inputs that still hold. */
  lemma StatusExactly(e: Economy, owner: Option<nat>, t: nat, event: TaskEvent)
    ensures ChangeStatus(e, owner, t, event).Ok? <==>
              && t < |e.tasks| && (owner.Some? ==> e.tasks[t].publisher == owner.value)
              && (exists to :: LeadsTo(e.tasks[t].status, event, to))
              && (event == EventOpen ==> owner.Some? && ValidContract(e.tasks[t].contract)
                                         && InputsAreOwn(e, e.tasks[t].publisher, e.tasks[t].contract.harness))
    ensures ChangeStatus(e, owner, t, event).Ok? ==>
              forall to :: LeadsTo(e.tasks[t].status, event, to) ==>
                ChangeStatus(e, owner, t, event).value == e.(tasks := e.tasks[t := e.tasks[t].(status := to)])
  {
    if t < |e.tasks| {
      InputsExactly(e, e.tasks[t].publisher, e.tasks[t].contract.harness);
      EventsLead(e.tasks[t].status, event);
    }
  }

  lemma EventsLead(from: TaskStatus, event: TaskEvent)
    ensures TaskTransition(from, event).Ok? <==> exists to :: LeadsTo(from, event, to)
    ensures forall to :: LeadsTo(from, event, to) ==> TaskTransition(from, event) == Ok(to)
  {
    var to := match event
      case EventOpen => Open case EventPause => Paused case EventPlatformPause => Paused
      case EventClose => Closed case EventPlatformClose => Closed;
    assert TaskTransition(from, event).Ok? ==> LeadsTo(from, event, to);
  }
}
