/**
 Tasks, claims and submissions: the repository primitives, and the transactions the service
 layer composes from them. Each function is one committed transaction, or the failure that
 leaves the tables as they were.
 */
module TaskStore {
  import opened Int64
  import opened Results
  import opened Credits
  import opened Schema
  import opened TaskKernel
  import Rows
  import H = HarnessPins

  const MAX_AUDIENCE: nat := 50

  const MAX_HARNESS: nat := 10

  predicate ValidAudience(a: Audience) {
    a.Only? ==> 1 <= |a.agents| <= MAX_AUDIENCE
  }

  predicate ValidContract(c: Contract) {
    && 0 < c.price <= MAX_AMOUNT
    && 1 <= c.maxRejected <= 50
    && 300 <= c.ttl <= 7200 && 600 <= c.maxDuration <= 86400 && c.ttl <= c.maxDuration
    && |c.harness| <= MAX_HARNESS
    && ValidAudience(c.audience)
  }

  /** The agents a contract names. */
  function Named(a: Audience): set<nat> {
    match a case Everyone => {} case Only(agents) => agents
  }

  // -- harness --

  predicate OwnActiveMemory(e: Economy, publisher: nat, m: nat) {
    m < |e.memories| && e.memories[m].owner == publisher && e.memories[m].active
  }

  /** Every reference is one of the publisher's active memories. */
  predicate HarnessValid(e: Economy, publisher: nat, refs: seq<nat>) {
    forall i :: 0 <= i < |refs| ==> OwnActiveMemory(e, publisher, refs[i])
  }

  /** The references that still resolve, at their current revisions; a withdrawn memory pins nothing. */
  function ResolveHarness(e: Economy, publisher: nat, refs: seq<nat>): (pins: seq<Pin>)
    ensures |pins| <= |refs|
  {
    if refs == [] then []
    else
      var rest := ResolveHarness(e, publisher, refs[..|refs| - 1]);
      var m := refs[|refs| - 1];
      if OwnActiveMemory(e, publisher, m) then rest + [H.Pin(m, e.memories[m].revision)] else rest
  }

  function PinsOf(e: Economy, t: nat): seq<Pin>
    requires t < |e.tasks|
  {
    ResolveHarness(e, e.tasks[t].publisher, e.tasks[t].contract.harness)
  }

  // -- rows --

  function InsertTask(e: Economy, publisher: nat, contract: Contract): Economy {
    e.(tasks := e.tasks + [Task(publisher, Named(contract.audience), Paused, 0, 0, 0, 0, contract, 1)],
       versions := e.versions[(|e.tasks|, 1) := contract])
  }

  /** Publishes a new contract version; a compare-and-swap on the current one. */
  function ReplaceTaskContract(e: Economy, t: nat, fromVersion: nat, contract: Contract): Result<Economy> {
    if t >= |e.tasks| || e.tasks[t].version != fromVersion then Err(Conflict)
    else
      var next := e.tasks[t].version + 1;
      Ok(e.(tasks := e.tasks[t := e.tasks[t].(contract := contract, version := next)],
            versions := e.versions[(t, next) := contract]))
  }

  function ApplyTaskStatus(e: Economy, t: nat, from: TaskStatus, event: TaskEvent): Result<Economy> {
    var to :- TaskTransition(from, event);
    if t >= |e.tasks| || e.tasks[t].status != from then Err(Conflict)
    else Ok(e.(tasks := e.tasks[t := e.tasks[t].(status := to)]))
  }

  /** The agent's active claim on the task, newest first; at most one exists. */
  function FindActiveClaim(claims: seq<Claim>, t: nat, agent: nat): (found: Option<nat>)
    ensures found.Some? ==> && found.value < |claims|
                            && claims[found.value].task == t
                            && claims[found.value].agent == agent
                            && claims[found.value].status == Active
    ensures found.None? ==> forall i :: 0 <= i < |claims| ==>
                                          !(claims[i].task == t && claims[i].agent == agent && claims[i].status == Active)
  {
    if claims == [] then None
    else
      var last := |claims| - 1;
      var c := claims[last];
      if c.task == t && c.agent == agent && c.status == Active then Some(last)
      else FindActiveClaim(claims[..last], t, agent)
  }

  /** A second active claim of one agent on one task hits the partial unique index. */
  function InsertClaim(e: Economy, claim: Claim): Result<Economy> {
    if claim.status == Active && FindActiveClaim(e.claims, claim.task, claim.agent).Some? then Err(Conflict)
    else Ok(e.(claims := e.claims + [claim]))
  }

  function ApplyClaimStatus(e: Economy, c: nat, from: ClaimStatus, event: ClaimEvent): Result<Economy> {
    var to :- ClaimTransition(from, event);
    if c >= |e.claims| || e.claims[c].status != from then Err(Conflict)
    else Ok(e.(claims := e.claims[c := e.claims[c].(status := to)]))
  }

  /** The submission holding the idempotency identity (agent, task, request key). */
  function FindByIdentity(subs: seq<Submission>, t: nat, agent: nat, key: string): (found: Option<nat>)
    ensures found.Some? ==> && found.value < |subs|
                            && subs[found.value].task == t
                            && subs[found.value].agent == agent
                            && subs[found.value].requestKey == key
    ensures found.None? ==> forall i :: 0 <= i < |subs| ==>
                                          !(subs[i].task == t && subs[i].agent == agent && subs[i].requestKey == key)
  {
    if subs == [] then None
    else
      var last := |subs| - 1;
      if subs[last].task == t && subs[last].agent == agent && subs[last].requestKey == key then Some(last)
      else FindByIdentity(subs[..last], t, agent, key)
  }

  function InsertSubmission(e: Economy, t: nat, agent: nat, key: string, payload: string, hash: string,
                            amount: int64, claim: nat, version: nat, at: int): Result<Economy>
  {
    if FindByIdentity(e.submissions, t, agent, key).Some? then Err(Conflict)
    else
      var first := LogEntry(1, None, Delivering, Submit, at);
      Ok(e.(submissions := e.submissions +
                           [Submission(t, agent, key, Some(payload), hash, amount, Delivering, claim, version, [first])]))
  }

  function MaxSeq(log: seq<LogEntry>): nat {
    if log == [] then 0
    else
      var rest := MaxSeq(log[..|log| - 1]);
      var last := log[|log| - 1].seqNo;
      if last > rest then last else rest
  }

  /** The only writer of a submission state: kernel check, compare-and-swap, event append. */
  function SetSubmissionState(e: Economy, s: nat, from: SubmissionState, event: SubmissionEvent, at: int): Result<Economy> {
    var to :- SubmissionTransition(from, event);
    if s >= |e.submissions| || e.submissions[s].state != from then Err(Conflict)
    else
      var sub := e.submissions[s];
      var entry := LogEntry(MaxSeq(sub.log) + 1, Some(from), to, event, at);
      Ok(e.(submissions := e.submissions[s :=
              sub.(state := to, payload := if Terminal(to) then None else sub.payload, log := sub.log + [entry])]))
  }

  // -- money primitives --

  function Lock(e: Economy, t: nat, publisher: nat, kind: Kind, amount: int64): Result<Economy> {
    if amount <= 0 then Err(ValidationFailed)
    else if t >= |e.tasks| then Err(NotFound)
    else
      var books :- Record(e.books, publisher, kind, -amount, TaskRef(t));
      Ok(e.(tasks := e.tasks[t := e.tasks[t].(locked := e.tasks[t].locked + amount)], books := books))
  }

  function LockTaskBudget(e: Economy, t: nat, publisher: nat, amount: int64): Result<Economy> {
    Lock(e, t, publisher, TaskLock, amount)
  }

  function FundTaskBudget(e: Economy, t: nat, publisher: nat, amount: int64): Result<Economy> {
    Lock(e, t, publisher, TaskFund, amount)
  }

  function ReserveTaskAmount(e: Economy, t: nat, amount: int): Result<Economy> {
    if amount <= 0 then Err(ValidationFailed)
    else if t >= |e.tasks| || e.tasks[t].Available() < amount then Err(NoAvailableBudget)
    else Ok(e.(tasks := e.tasks[t := e.tasks[t].(reserved := e.tasks[t].reserved + amount)]))
  }

  function ReleaseTaskReservation(e: Economy, t: nat, amount: int): Result<Economy> {
    if amount <= 0 then Err(ValidationFailed)
    else if t >= |e.tasks| || e.tasks[t].reserved < amount then Err(InsufficientReservation)
    else Ok(e.(tasks := e.tasks[t := e.tasks[t].(reserved := e.tasks[t].reserved - amount)]))
  }

  function SettleTaskSubmission(e: Economy, t: nat, s: nat, agent: nat, amount: int64): Result<Economy> {
    if amount <= 0 then Err(ValidationFailed)
    else if t >= |e.tasks| || e.tasks[t].reserved < amount then Err(InsufficientReservation)
    else
      var books :- Record(e.books, agent, TaskEarn, amount, SubmissionRef(s));
      var task := e.tasks[t];
      Ok(e.(tasks := e.tasks[t := task.(reserved := task.reserved - amount, settled := task.settled + amount)],
            books := books))
  }

  function RefundTaskAvailable(e: Economy, t: nat, publisher: nat): Result<Economy> {
    if t >= |e.tasks| then Err(NotFound)
    else
      var available := e.tasks[t].Available();
      if available <= 0 then Ok(e)
      else if !Fits(available) then Err(CreditOverflow)
      else
        var books :- Record(e.books, publisher, TaskRefund, available, TaskRef(t));
        Ok(e.(tasks := e.tasks[t := e.tasks[t].(refunded := e.tasks[t].refunded + available)], books := books))
  }

  // -- rejection limit --

  /** When the submission entered rejected, by its newest such event. */
  function RejectedAt(log: seq<LogEntry>): Option<int> {
    if log == [] then None
    else if log[|log| - 1].to == Rejected then Some(log[|log| - 1].at)
    else RejectedAt(log[..|log| - 1])
  }

  /** CountAgentSubmissions: one unit per rejected submission whose rejection is in the window. */
  function RejectedInWindow(t: nat, agent: nat, since: int): Submission -> int {
    (s: Submission) =>
      if s.task == t && s.agent == agent && s.state == Rejected
         && RejectedAt(s.log).Some? && RejectedAt(s.log).value > since then 1 else 0
  }

  const REJECTION_WINDOW: int := 24 * 3600

  predicate BelowRejectionLimit(e: Economy, t: nat, agent: nat, now: int)
    requires t < |e.tasks|
  {
    Rows.Sum(e.submissions, RejectedInWindow(t, agent, now - REJECTION_WINDOW)) < e.tasks[t].contract.maxRejected
  }

  predicate AudienceVisible(task: Task, agent: nat) {
    task.audience == {} || agent in task.audience
  }

  // -- publisher transactions --

  function CreateTask(e: Economy, publisher: nat, contract: Contract, budget: int64): Result<Economy> {
    var _ :- Need(ValidContract(contract) && contract.price <= budget <= MAX_AMOUNT, ValidationFailed);
    var _ :- Need(publisher < |e.books.balances|, BotNotFound);
    var _ :- Need(e.books.balances[publisher] >= budget, InsufficientCredits);
    var _ :- Need(HarnessValid(e, publisher, contract.harness), ValidationFailed);
    var named := Named(contract.audience);
    var _ :- Need(publisher !in named && forall a :: a in named ==> a < |e.books.balances|, ValidationFailed);
    LockTaskBudget(InsertTask(e, publisher, contract), |e.tasks|, publisher, budget)
  }

  /** Ownership gate: strangers outside the audience cannot tell the task exists. */
  function OwnedTask(e: Economy, publisher: nat, t: nat): Result<Task> {
    if t >= |e.tasks| then Err(NotFound)
    else if e.tasks[t].publisher == publisher then Ok(e.tasks[t])
    else if !AudienceVisible(e.tasks[t], publisher) then Err(NotFound)
    else Err(NotOwner)
  }

  /** A new contract version while paused; the audience is fixed at creation. */
  function UpdateTask(e: Economy, publisher: nat, t: nat, contract: Contract): Result<Economy> {
    var _ :- Need(ValidContract(contract) && HarnessValid(e, publisher, contract.harness), ValidationFailed);
    var task :- OwnedTask(e, publisher, t);
    var _ :- Need(task.status == Paused, InvalidState);
    var _ :- Need(contract.audience == task.contract.audience, ValidationFailed);
    ReplaceTaskContract(e, t, task.version, contract)
  }

  /**
   Publisher pause, close and open when an owner acts; platform governance otherwise. Opening
   checks the contract and its harness again.
   */
  function ChangeStatus(e: Economy, owner: Option<nat>, t: nat, event: TaskEvent): Result<Economy> {
    var task :- if owner.Some? then OwnedTask(e, owner.value, t)
                else if t < |e.tasks| then Ok(e.tasks[t]) else Err(NotFound);
    var _ :- Need(event == EventOpen ==> owner.Some? && ValidContract(task.contract)
                                         && HarnessValid(e, task.publisher, task.contract.harness), ValidationFailed);
    ApplyTaskStatus(e, t, task.status, event)
  }

  function FundTask(e: Economy, publisher: nat, t: nat, amount: int64): Result<Economy> {
    var _ :- Need(0 < amount <= MAX_AMOUNT, ValidationFailed);
    var task :- OwnedTask(e, publisher, t);
    var _ :- Need(task.status != Closed, InvalidState);
    var _ :- Need(task.locked + amount <= MAX_AMOUNT, ValidationFailed);
    FundTaskBudget(e, t, publisher, amount)
  }

  function RefundTask(e: Economy, publisher: nat, t: nat): Result<Economy> {
    var task :- OwnedTask(e, publisher, t);
    var _ :- Need(task.status == Closed, InvalidState);
    var _ :- Need(task.reserved <= 0, HasReservations);
    var _ :- Need(task.Available() > 0, NothingToRefund);
    RefundTaskAvailable(e, t, publisher)
  }

  // -- executor transactions --

  /** Ends an active claim and returns its reservation. */
  function EndClaim(e: Economy, c: nat, event: ClaimEvent): Result<Economy>
    requires c < |e.claims|
  {
    var ended :- ApplyClaimStatus(e, c, Active, event);
    ReleaseTaskReservation(ended, e.claims[c].task, e.claims[c].amount)
  }

  function IssueClaim(e: Economy, claim: Claim): Result<Economy> {
    var inserted :- InsertClaim(e, claim);
    ReserveTaskAmount(inserted, claim.task, claim.amount)
  }

  /** Freezes the resolved harness revisions of a claim just inserted. */
  function FreezePins(e: Economy, c: nat, pins: seq<Pin>): Result<Economy>
    requires c < |e.claims|
  {
    var rows :- H.InsertRows(c, pins);
    Ok(e.(claims := e.claims[c := e.claims[c].(pins := rows)]))
  }

  /** A claim row, its frozen pins, then its reservation. */
  function BindClaim(e: Economy, claim: Claim, pins: seq<Pin>): Result<Economy> {
    var inserted :- InsertClaim(e, claim);
    var bound :- FreezePins(inserted, |e.claims|, pins);
    ReserveTaskAmount(bound, claim.task, claim.amount)
  }

  /** The slot test reads the task row as it was locked, before the sweep returned any reservation. */
  function ClaimSlot(locked: Economy, swept: Economy, agent: nat, t: nat, now: int): Result<Economy>
    requires t < |locked.tasks|
  {
    var task := locked.tasks[t];
    var _ :- Need(BelowRejectionLimit(locked, t, agent, now), SubmissionLimit);
    var price := task.contract.price;
    var _ :- Need(price > 0 && task.Available() / price >= 1, SlotsExhausted);
    BindClaim(swept, Claim(t, agent, task.version, now + task.contract.ttl,
                           now + task.contract.maxDuration, price, Active, []), PinsOf(locked, t))
  }

  /** A live claim is returned as it is; an expired one is swept first. */
  function ClaimTask(e: Economy, agent: nat, t: nat, now: int): Result<Economy> {
    var _ :- Need(t < |e.tasks| && agent < |e.books.balances|, NotFound);
    var task := e.tasks[t];
    var _ :- Need(task.publisher == agent || AudienceVisible(task, agent), NotFound);
    var _ :- Need(task.status == Open, TaskNotOpen);
    var _ :- Need(task.publisher != agent, OwnTask);
    var held := FindActiveClaim(e.claims, t, agent);
    if held.Some? && e.claims[held.value].expiresAt > now then Ok(e)
    else
      var swept :- if held.Some? then EndClaim(e, held.value, ClaimExpire) else Ok(e);
      ClaimSlot(e, swept, agent, t, now)
  }

  function RenewClaim(e: Economy, agent: nat, c: nat, now: int): Result<Economy> {
    var _ :- Need(c < |e.claims| && e.claims[c].task < |e.tasks|, ClaimInvalid);
    var claim := e.claims[c];
    var _ :- Need(claim.agent == agent && claim.status == Active && claim.expiresAt > now, ClaimInvalid);
    var _ :- Need(e.tasks[claim.task].status == Open, TaskNotOpen);
    var _ :- Need(now < claim.deadline, ClaimInvalid);
    var wanted := now + e.tasks[claim.task].contract.ttl;
    var expires := if wanted > claim.deadline then claim.deadline else wanted;
    Ok(e.(claims := e.claims[c := claim.(expiresAt := expires)]))
  }

  function ReleaseClaim(e: Economy, agent: nat, c: nat): Result<Economy> {
    var _ :- Need(c < |e.claims| && e.claims[c].agent == agent && e.claims[c].status == Active, ClaimInvalid);
    EndClaim(e, c, ClaimRelease)
  }

  /** One step of the expiry reclaimer; a claim that moved on meanwhile is skipped. */
  function ExpireClaim(e: Economy, c: nat, now: int): Result<Economy> {
    if c >= |e.claims| || e.claims[c].status != Active || e.claims[c].expiresAt > now then Ok(e)
    else EndClaim(e, c, ClaimExpire)
  }

  /** Intake without a claim reserves its own price and records a claim born used. */
  function SubmitWithoutClaim(e: Economy, agent: nat, t: nat, key: string, payload: string, hash: string, now: int): Result<Economy>
    requires t < |e.tasks|
  {
    var task := e.tasks[t];
    var _ :- Need(!task.contract.claimRequired, ClaimRequired);
    var _ :- Need(task.status == Open, TaskNotOpen);
    var price := task.contract.price;
    var reserved :- ReserveTaskAmount(e, t, price);
    var engaged :- InsertClaim(reserved, Claim(t, agent, task.version, now, now, price, Used, []));
    var bound :- FreezePins(engaged, |e.claims|, PinsOf(e, t));
    InsertSubmission(bound, t, agent, key, payload, hash, price, |e.claims|, task.version, now)
  }

  /** Intake under a claim hands the claim's reservation over to the submission. */
  function SubmitUnderClaim(e: Economy, agent: nat, t: nat, key: string, payload: string, hash: string, c: nat, now: int): Result<Economy>
    requires t < |e.tasks|
  {
    var _ :- Need(c < |e.claims|, ClaimInvalid);
    var claim := e.claims[c];
    var _ :- Need(claim.agent == agent && claim.task == t && claim.status == Active && claim.expiresAt > now, ClaimInvalid);
    var used :- ApplyClaimStatus(e, c, Active, ClaimUse);
    InsertSubmission(used, t, agent, key, payload, hash, claim.amount, c, claim.version, now)
  }

  function SubmitWork(e: Economy, agent: nat, t: nat, key: string, payload: string, hash: string, c: Option<nat>, now: int): Result<Economy> {
    var _ :- Need(t < |e.tasks| && agent < |e.books.balances|, NotFound);
    var twin := FindByIdentity(e.submissions, t, agent, key);
    if twin.Some? then
      if e.submissions[twin.value].payloadHash == hash then Ok(e) else Err(IdempotencyConflict)
    else
      var task := e.tasks[t];
      var _ :- Need(task.publisher == agent || AudienceVisible(task, agent), NotFound);
      var _ :- Need(task.publisher != agent, OwnTask);
      var _ :- Need(BelowRejectionLimit(e, t, agent, now), SubmissionLimit);
      match c
      case None => SubmitWithoutClaim(e, agent, t, key, payload, hash, now)
      case Some(claim) => SubmitUnderClaim(e, agent, t, key, payload, hash, claim, now)
  }

  /**
   Writes one delivery outcome, seen when the submission was in state pre. A state that moved
   since keeps the other writer's outcome, and a repeated timeout is no state change.
   */
  function WriteDeliveryOutcome(e: Economy, s: nat, pre: SubmissionState, event: SubmissionEvent, at: int): Result<Economy> {
    var _ :- Need(s < |e.submissions|, NotFound);
    var sub := e.submissions[s];
    if sub.state != pre || (event == Timeout && pre == Uncertain) then Ok(e)
    else
      var moved :- SetSubmissionState(e, s, pre, event, at);
      match event
      case Deliver2XX => SettleTaskSubmission(moved, sub.task, s, sub.agent, sub.amount)
      case Deliver4XX => ReleaseTaskReservation(moved, sub.task, sub.amount)
      case DeliveryFailed => ReleaseTaskReservation(moved, sub.task, sub.amount)
      case Unresolved => ReleaseTaskReservation(moved, sub.task, sub.amount)
      case _ => Ok(moved)
  }
}
