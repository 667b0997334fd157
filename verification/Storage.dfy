/**
 The tables as the program updates them: one statement at a time, inside a transaction that
 commits whole or rolls back. Every transaction is proved equal to the function that
 specifies it, so what is proved of those functions holds of the statements.
 */
module Storage {
  import opened Int64
  import opened Results
  import opened Schema
  import opened TaskKernel
  import opened TaskLaws
  import opened Reversal
  import opened PaymentLaws
  import opened RewardLaws
  import opened EconomyHistory
  import PA = PublisherAnswers
  import XA = ExecutorAnswers
  import RA = RewardAnswers
  import H = HarnessPins
  import opened C = Credits
  import opened T = TaskStore
  import opened P = Payments
  import opened R = Rewards
  import Rows

  /** The transaction did what the specification says, or failed as it says and changed nothing. */
  ghost predicate Did(before: Economy, after: Economy, failure: Option<Error>, spec: Result<Economy>) {
    match spec
    case Ok(next) => failure.None? && after == next
    case Err(error) => failure == Some(error) && after == before
  }

  class Database {
    var balances: seq<int64>
    var ledger: seq<Row>
    var memories: seq<Memory>
    var tasks: seq<Task>
    var claims: seq<Claim>
    var submissions: seq<Submission>
    var versions: map<(nat, nat), Contract>
    var payments: seq<Payment>
    var adjustments: seq<Adjustment>
    var products: seq<Product>
    var redemptions: seq<Redemption>

    function State(): Economy
      reads this
    {
      Economy(Books(balances, ledger), memories, tasks, claims, submissions, versions, payments, adjustments, products, redemptions)
    }

    constructor ()
      ensures State() == EMPTY
    {
      balances, ledger, memories := [], [], [];
      tasks, claims, submissions, versions := [], [], [], map[];
      payments, adjustments, products, redemptions := [], [], [], [];
    }

    method Rollback(saved: Economy)
      modifies this
      ensures State() == saved
    {
      balances, ledger, memories := saved.books.balances, saved.books.ledger, saved.memories;
      tasks, claims, submissions, versions := saved.tasks, saved.claims, saved.submissions, saved.versions;
      payments, adjustments, products, redemptions := saved.payments, saved.adjustments, saved.products, saved.redemptions;
    }

    // -- credits --

    /** Locks the balance row, guards the sum, then updates the balance and appends the ledger row. */
    method Post(bot: nat, kind: Kind, amount: int64, ref: Ref, allowNegative: bool) returns (failure: Option<Error>)
      modifies this`balances, this`ledger
      ensures var spec := C.Post(old(State()).books, bot, kind, amount, ref, allowNegative);
              Did(old(State()), State(), failure, if spec.Ok? then Ok(old(State()).(books := spec.value)) else Err(spec.error))
    {
      if bot >= |balances| {
        return Some(BotNotFound);
      }
      var current := balances[bot];
      var sum := CheckAdd(current, amount);
      if sum.Err? {
        return Some(sum.error);
      }
      var balance := sum.value;
      if balance < 0 && !allowNegative {
        return Some(InsufficientCredits);
      }
      balances := balances[bot := balance];
      ledger := ledger + [Row(bot, kind, amount, balance, ref)];
      failure := None;
    }

    method Record(bot: nat, kind: Kind, amount: int64, ref: Ref) returns (failure: Option<Error>)
      modifies this`balances, this`ledger
      ensures var spec := C.Record(old(State()).books, bot, kind, amount, ref);
              Did(old(State()), State(), failure, if spec.Ok? then Ok(old(State()).(books := spec.value)) else Err(spec.error))
    {
      failure := Post(bot, kind, amount, ref, amount >= 0);
    }

    /** Takes credits back even below zero: only a missing account or an overflow can stop it. */
    method RecordAuthoritativeReversal(bot: nat, kind: Kind, amount: int64, ref: Ref) returns (failure: Option<Error>)
      modifies this`balances, this`ledger
      ensures var spec := C.RecordAuthoritativeReversal(old(State()).books, bot, kind, amount, ref);
              Did(old(State()), State(), failure, if spec.Ok? then Ok(old(State()).(books := spec.value)) else Err(spec.error))
      ensures failure.None? <==> amount < 0 && bot < |old(balances)| && Fits(old(balances)[bot] + amount)
      ensures failure.None? ==> balances == old(balances)[bot := old(balances)[bot] + amount]
                                && ledger == old(ledger) + [Row(bot, kind, amount, old(balances)[bot] + amount, ref)]
      ensures Balanced(old(State()).books) ==> Balanced(State().books)
    {
      PostAppends(State().books, bot, kind, amount, ref, true);
      if amount >= 0 {
        return Some(NotAReversal);
      }
      ghost var before := State().books;
      failure := Post(bot, kind, amount, ref, true);
      if failure.None? && Balanced(before) {
        PostKeepsBooks(before, bot, kind, amount, ref, true);
      }
    }

    // -- task money --

    /** What leaves the publisher's balance enters the task's escrow, or nothing moves. */
    method Lock(t: nat, publisher: nat, kind: Kind, amount: int64) returns (failure: Option<Error>)
      modifies this
      ensures Did(old(State()), State(), failure, T.Lock(old(State()), t, publisher, kind, amount))
      ensures failure.None? ==> && t < |tasks| == |old(tasks)| && publisher < |balances| == |old(balances)|
                                && tasks[t].Escrow() - old(tasks)[t].Escrow() == amount == old(balances)[publisher] - balances[publisher]
    {
      if amount <= 0 {
        return Some(ValidationFailed);
      }
      PostAppends(State().books, publisher, kind, -amount, TaskRef(t), false);
      if t >= |tasks| {
        return Some(NotFound);
      }
      var saved := State();
      tasks := tasks[t := tasks[t].(locked := tasks[t].locked + amount)];
      failure := Record(publisher, kind, -amount, TaskRef(t));
      if failure.Some? {
        Rollback(saved);
      }
    }

    /** Sets aside available budget, as long as there is enough. */
    method ReserveTaskAmount(t: nat, amount: int) returns (failure: Option<Error>)
      modifies this`tasks
      ensures Did(old(State()), State(), failure, T.ReserveTaskAmount(old(State()), t, amount))
      ensures failure.None? <==> 0 < amount && t < |old(tasks)| && amount <= old(tasks)[t].Available()
      ensures failure.None? ==> && |tasks| == |old(tasks)|
                                && 0 <= tasks[t].Available() == old(tasks)[t].Available() - amount
                                && tasks[t].Escrow() == old(tasks)[t].Escrow()
    {
      if amount <= 0 {
        return Some(ValidationFailed);
      }
      if t >= |tasks| || tasks[t].locked - tasks[t].settled - tasks[t].reserved - tasks[t].refunded < amount {
        return Some(NoAvailableBudget);
      }
      tasks := tasks[t := tasks[t].(reserved := tasks[t].reserved + amount)];
      failure := None;
    }

    /** Returns a reservation; in a reachable state that of any live claim or in-flight submission is there. */
    method ReleaseTaskReservation(t: nat, amount: int) returns (failure: Option<Error>)
      modifies this`tasks
      ensures Did(old(State()), State(), failure, T.ReleaseTaskReservation(old(State()), t, amount))
      ensures TaskInvariant(old(State())) && (exists c :: 0 <= c < |claims| && claims[c] == old(claims)[c]
                                                          && claims[c].status == Active && claims[c].task == t && claims[c].amount == amount)
              ==> failure.None?
      ensures TaskInvariant(old(State())) && (exists s :: 0 <= s < |submissions| && submissions[s] == old(submissions)[s]
                                                          && !Terminal(submissions[s].state) && submissions[s].task == t && submissions[s].amount == amount)
              ==> failure.None?
      ensures failure.None? ==> |tasks| == |old(tasks)| && tasks[t].Available() == old(tasks)[t].Available() + amount
    {
      ghost var before := State();
      if TaskInvariant(before) {
        AmountsAreReserved(before);
      }
      if amount <= 0 {
        return Some(ValidationFailed);
      }
      if t >= |tasks| || tasks[t].reserved < amount {
        return Some(InsufficientReservation);
      }
      tasks := tasks[t := tasks[t].(reserved := tasks[t].reserved - amount)];
      failure := None;
    }

    /** What leaves the escrow reaches the agent; what is available for others does not change. */
    method SettleTaskSubmission(t: nat, s: nat, agent: nat, amount: int64) returns (failure: Option<Error>)
      modifies this
      ensures Did(old(State()), State(), failure, T.SettleTaskSubmission(old(State()), t, s, agent, amount))
      ensures failure.None? ==> && t < |tasks| == |old(tasks)| && agent < |balances| == |old(balances)|
                                && old(tasks)[t].Escrow() - tasks[t].Escrow() == amount == balances[agent] - old(balances)[agent]
                                && tasks[t].Available() == old(tasks)[t].Available()
    {
      PostAppends(State().books, agent, TaskEarn, amount, SubmissionRef(s), amount >= 0);
      if amount <= 0 {
        return Some(ValidationFailed);
      }
      if t >= |tasks| || tasks[t].reserved < amount {
        return Some(InsufficientReservation);
      }
      var saved := State();
      tasks := tasks[t := tasks[t].(reserved := tasks[t].reserved - amount, settled := tasks[t].settled + amount)];
      failure := Record(agent, TaskEarn, amount, SubmissionRef(s));
      if failure.Some? {
        Rollback(saved);
      }
    }

    /** Afterwards nothing is available; what was reached the publisher. */
    method RefundTaskAvailable(t: nat, publisher: nat) returns (failure: Option<Error>)
      modifies this
      ensures Did(old(State()), State(), failure, T.RefundTaskAvailable(old(State()), t, publisher))
      ensures failure.None? ==> && t < |tasks| == |old(tasks)| && tasks[t].Available() <= 0
                                && tasks[t].reserved == old(tasks)[t].reserved
    {
      if t >= |tasks| {
        return Some(NotFound);
      }
      var saved := State();
      var available := tasks[t].Available();
      if available <= 0 {
        return None;
      }
      if !Fits(available) {
        return Some(CreditOverflow);
      }
      tasks := tasks[t := tasks[t].(refunded := tasks[t].refunded + available)];
      failure := Record(publisher, TaskRefund, available, TaskRef(t));
      if failure.Some? {
        Rollback(saved);
      }
    }

    // -- publishers --

    /** Task row, first contract version, then the budget lock; a lock that fails takes both with it. */
    method CreateTask(publisher: nat, contract: Contract, budget: int64) returns (failure: Option<Error>)
      modifies this
      ensures Did(old(State()), State(), failure, T.CreateTask(old(State()), publisher, contract, budget))
      ensures TaskInvariant(old(State())) ==> TaskInvariant(State())
    {
      CreateOutcome(State(), publisher, contract, budget);
      if !ValidContract(contract) || !(contract.price <= budget <= MAX_AMOUNT) {
        return Some(ValidationFailed);
      }
      if publisher >= |balances| {
        return Some(BotNotFound);
      }
      if balances[publisher] < budget {
        return Some(InsufficientCredits);
      }
      if !HarnessValid(State(), publisher, contract.harness) {
        return Some(ValidationFailed);
      }
      var named := Named(contract.audience);
      if publisher in named || exists a :: a in named && a >= |balances| {
        return Some(ValidationFailed);
      }
      var saved, t := State(), |tasks|;
      tasks := tasks + [Task(publisher, named, Paused, 0, 0, 0, 0, contract, 1)];
      versions := versions[(t, 1) := contract];
      failure := Lock(t, publisher, TaskLock, budget);
      if failure.Some? {
        Rollback(saved);
      }
    }

    /** Whoever read the current version publishes the next one; every earlier version stays. */
    method ReplaceTaskContract(t: nat, fromVersion: nat, contract: Contract) returns (failure: Option<Error>)
      modifies this`tasks, this`versions
      ensures Did(old(State()), State(), failure, T.ReplaceTaskContract(old(State()), t, fromVersion, contract))
      ensures failure.None? <==> t < |old(tasks)| && old(tasks)[t].version == fromVersion
      ensures Versioned(old(tasks), old(versions)) && failure.None? && fromVersion >= 1 ==>
                && Versioned(tasks, versions) && VersionsKept(old(versions), versions)
                && versions.Keys == old(versions).Keys + {(t, fromVersion + 1)}
    {
      if t >= |tasks| || tasks[t].version != fromVersion {
        return Some(Conflict);
      }
      ReplaceOutcome(tasks, versions, t, contract);
      var next := tasks[t].version + 1;
      tasks := tasks[t := tasks[t].(contract := contract, version := next)];
      versions := versions[(t, next) := contract];
      failure := None;
    }

    /** Further budget: what leaves the balance enters the task. */
    method FundTask(publisher: nat, t: nat, amount: int64) returns (failure: Option<Error>)
      modifies this
      ensures Did(old(State()), State(), failure, T.FundTask(old(State()), publisher, t, amount))
      ensures TaskInvariant(old(State())) ==> TaskInvariant(State())
    {
      ghost var before := State();
      if amount <= 0 || amount > MAX_AMOUNT {
        return Some(ValidationFailed);
      }
      var task := OwnedTask(State(), publisher, t);
      if task.Err? {
        return Some(task.error);
      }
      if task.value.status == Closed {
        return Some(InvalidState);
      }
      if task.value.locked + amount > MAX_AMOUNT {
        return Some(ValidationFailed);
      }
      failure := Lock(t, publisher, TaskFund, amount);
      FundOutcome(before, publisher, t, amount);
    }

    /** A refund empties the closed task for good, into its publisher's balance and no other. */
    method RefundTask(publisher: nat, t: nat) returns (failure: Option<Error>)
      modifies this
      ensures Did(old(State()), State(), failure, T.RefundTask(old(State()), publisher, t))
      ensures failure.None? ==> && t < |tasks| == |old(tasks)| && old(tasks)[t].publisher == publisher && old(tasks)[t].status == Closed
                                && Booked(old(State()).books, State().books, publisher, TaskRefund, old(tasks)[t].Available(), TaskRef(t))
      ensures t < |old(tasks)| && old(tasks)[t].publisher != publisher ==> failure == Some(PA.Refusal(old(tasks)[t], publisher))
      ensures TaskInvariant(old(State())) ==> TaskInvariant(State())
      ensures TaskInvariant(old(State())) && failure.None? ==> t < |tasks| && Drained(tasks[t])
    {
      RefundOutcome(State(), publisher, t);
      RefundOwner(State(), publisher, t);
      var task := OwnedTask(State(), publisher, t);
      if task.Err? {
        return Some(task.error);
      }
      if task.value.status != Closed {
        return Some(InvalidState);
      }
      if task.value.reserved > 0 {
        return Some(HasReservations);
      }
      if task.value.Available() <= 0 {
        return Some(NothingToRefund);
      }
      failure := RefundTaskAvailable(t, publisher);
    }

    // -- claims and submissions --

    /** One of several movers wins, and a claim that has ended never moves again. */
    method ApplyClaimStatus(c: nat, from: ClaimStatus, event: ClaimEvent) returns (failure: Option<Error>)
      modifies this`claims
      ensures Did(old(State()), State(), failure, T.ApplyClaimStatus(old(State()), c, from, event))
      ensures c < |old(claims)| && old(claims)[c].status != Active ==> failure.Some?
      ensures ClaimsKept(old(claims), claims)
      ensures OneActiveClaim(old(claims)) ==> OneActiveClaim(claims)
    {
      var to := ClaimTransition(from, event);
      if to.Err? {
        return Some(to.error);
      }
      if c >= |claims| || claims[c].status != from {
        return Some(Conflict);
      }
      claims := claims[c := claims[c].(status := to.value)];
      failure := None;
    }

    /** An agent never holds two active claims on one task. */
    method InsertClaim(claim: Claim) returns (failure: Option<Error>)
      modifies this`claims
      ensures Did(old(State()), State(), failure, T.InsertClaim(old(State()), claim))
      ensures OneActiveClaim(old(claims)) ==> OneActiveClaim(claims)
      ensures failure.Some? <==> claim.status == Active && exists i :: 0 <= i < |old(claims)| && old(claims)[i].status == Active
                                                                     && old(claims)[i].task == claim.task && old(claims)[i].agent == claim.agent
    {
      if claim.status == Active && FindActiveClaim(claims, claim.task, claim.agent).Some? {
        return Some(Conflict);
      }
      claims := claims + [claim];
      failure := None;
    }

    method FreezePins(c: nat, pins: seq<Pin>) returns (failure: Option<Error>)
      requires c < |claims|
      modifies this`claims
      ensures Did(old(State()), State(), failure, T.FreezePins(old(State()), c, pins))
    {
      var rows := H.InsertClaimHarnessRevisions(c, pins);
      if rows.Err? {
        return Some(rows.error);
      }
      claims := claims[c := claims[c].(pins := rows.value)];
      failure := None;
    }

    /** One submission per agent, task and request key. */
    method InsertSubmission(t: nat, agent: nat, key: string, payload: string, hash: string,
                            amount: int64, claim: nat, version: nat, at: int) returns (failure: Option<Error>)
      modifies this`submissions
      ensures Did(old(State()), State(), failure,
                  T.InsertSubmission(old(State()), t, agent, key, payload, hash, amount, claim, version, at))
      ensures OneIdentity(old(submissions)) ==> OneIdentity(submissions)
      ensures failure.None? ==> |submissions| == |old(submissions)| + 1 && LogOk(submissions[|old(submissions)|].log, Delivering)
    {
      if FindByIdentity(submissions, t, agent, key).Some? {
        return Some(Conflict);
      }
      var first := LogEntry(1, None, Delivering, Submit, at);
      submissions := submissions + [Submission(t, agent, key, Some(payload), hash, amount, Delivering, claim, version, [first])];
      failure := None;
    }

    /** Guarded update of the row, then the event row with the next number; an ended submission never moves. */
    method SetSubmissionState(s: nat, from: SubmissionState, event: SubmissionEvent, at: int) returns (failure: Option<Error>)
      modifies this`submissions
      ensures Did(old(State()), State(), failure, T.SetSubmissionState(old(State()), s, from, event, at))
      ensures SubmissionsKept(old(submissions), submissions)
      ensures s < |old(submissions)| && Terminal(old(submissions)[s].state) ==> failure.Some?
      ensures failure.None? ==> s < |submissions| && submissions[s].state == XA.OutcomeOf(event)
    {
      XA.OutcomesExactly(from, event);
      var to := SubmissionTransition(from, event);
      if to.Err? {
        return Some(to.error);
      }
      if s >= |submissions| || submissions[s].state != from {
        return Some(Conflict);
      }
      var sub := submissions[s];
      submissions := submissions[s := sub.(state := to.value, payload := if Terminal(to.value) then None else sub.payload)];
      var entry := LogEntry(MaxSeq(submissions[s].log) + 1, Some(from), to.value, event, at);
      submissions := submissions[s := submissions[s].(log := submissions[s].log + [entry])];
      failure := None;
    }

    method EndClaim(c: nat, event: ClaimEvent) returns (failure: Option<Error>)
      requires c < |claims|
      modifies this
      ensures Did(old(State()), State(), failure, T.EndClaim(old(State()), c, event))
    {
      var saved := State();
      var t, amount := claims[c].task, claims[c].amount;
      failure := ApplyClaimStatus(c, Active, event);
      if failure.None? {
        failure := ReleaseTaskReservation(t, amount);
        if failure.Some? {
          Rollback(saved);
        }
      }
    }

    /** Claim row, frozen pins, reservation; any failure takes all of it back. */
    method BindClaim(claim: Claim, pins: seq<Pin>) returns (failure: Option<Error>)
      modifies this
      ensures Did(old(State()), State(), failure, T.BindClaim(old(State()), claim, pins))
    {
      var saved, c := State(), |claims|;
      failure := InsertClaim(claim);
      if failure.None? {
        failure := FreezePins(c, pins);
      }
      if failure.None? {
        failure := ReserveTaskAmount(claim.task, claim.amount);
      }
      if failure.Some? {
        Rollback(saved);
      }
    }

    /** Rejections and slots are counted on the row as it was locked. */
    method ClaimSlot(saved: Economy, agent: nat, t: nat, now: int) returns (failure: Option<Error>)
      requires t < |saved.tasks| && saved.submissions == submissions
      modifies this
      ensures Did(old(State()), State(), failure, T.ClaimSlot(saved, old(State()), agent, t, now))
    {
      var task := saved.tasks[t];
      var rejected := Rows.Sum(submissions, RejectedInWindow(t, agent, now - REJECTION_WINDOW));
      var price := task.contract.price;
      if rejected >= task.contract.maxRejected {
        return Some(SubmissionLimit);
      }
      if price <= 0 || task.Available() / price < 1 {
        return Some(SlotsExhausted);
      }
      failure := BindClaim(Claim(t, agent, task.version, now + task.contract.ttl,
                                 now + task.contract.maxDuration, price, Active, []), PinsOf(saved, t));
    }

    /** Task row locked, guards, an expired claim swept, then the slot. */
    method ClaimTask(agent: nat, t: nat, now: int) returns (failure: Option<Error>)
      modifies this
      ensures Did(old(State()), State(), failure, T.ClaimTask(old(State()), agent, t, now))
      ensures TaskInvariant(old(State())) ==> (failure.None? <==> MayClaim(old(State()), agent, t, now)) && TaskInvariant(State())
    {
      ClaimOutcome(State(), agent, t, now);
      if t >= |tasks| || agent >= |balances| {
        return Some(NotFound);
      }
      var saved := State();
      var task := tasks[t];
      if task.publisher != agent && !AudienceVisible(task, agent) {
        return Some(NotFound);
      }
      if task.status != Open {
        return Some(TaskNotOpen);
      }
      if task.publisher == agent {
        return Some(OwnTask);
      }
      var held := FindActiveClaim(claims, t, agent);
      if held.Some? {
        if claims[held.value].expiresAt > now {
          return None;
        }
        failure := EndClaim(held.value, ClaimExpire);
        if failure.Some? {
          return;
        }
      }
      failure := ClaimSlot(saved, agent, t, now);
      if failure.Some? {
        Rollback(saved);
      }
    }

    method ExpireClaim(c: nat, now: int) returns (failure: Option<Error>)
      modifies this
      ensures Did(old(State()), State(), failure, T.ExpireClaim(old(State()), c, now))
    {
      failure := None;
      if c < |claims| && claims[c].status == Active && claims[c].expiresAt <= now {
        failure := EndClaim(c, ClaimExpire);
      }
    }

    /** The reclaimer's pass: one transaction per listed claim, stopping at the first failure. */
    method ExpireClaims(listed: seq<nat>, now: int) returns (failure: Option<Error>)
      modifies this
      ensures failure.None? ==> State() == ExpireAll(old(State()), listed, now)
      ensures TaskInvariant(old(State())) ==> failure.None?
    {
      ghost var start := State();
      var i := 0;
      while i < |listed|
        invariant 0 <= i <= |listed|
        invariant State() == ExpireAll(start, listed[..i], now)
      {
        assert listed[..i + 1][..i] == listed[..i];
        PassNeverFails(start, listed, i, now);
        failure := ExpireClaim(listed[i], now);
        if failure.Some? {
          return;
        }
        i := i + 1;
      }
      assert listed[..i] == listed;
      failure := None;
    }

    method SubmitWithoutClaim(agent: nat, t: nat, key: string, payload: string, hash: string, now: int) returns (failure: Option<Error>)
      requires t < |tasks|
      modifies this
      ensures Did(old(State()), State(), failure, T.SubmitWithoutClaim(old(State()), agent, t, key, payload, hash, now))
    {
      var task := tasks[t];
      if task.contract.claimRequired {
        return Some(ClaimRequired);
      }
      if task.status != Open {
        return Some(TaskNotOpen);
      }
      var saved, engagement, price := State(), |claims|, task.contract.price;
      failure := ReserveTaskAmount(t, price);
      if failure.None? {
        failure := InsertClaim(Claim(t, agent, task.version, now, now, price, Used, []));
      }
      if failure.None? {
        failure := FreezePins(engagement, PinsOf(saved, t));
      }
      if failure.None? {
        failure := InsertSubmission(t, agent, key, payload, hash, price, engagement, task.version, now);
      }
      if failure.Some? {
        Rollback(saved);
      }
    }

    method SubmitUnderClaim(agent: nat, t: nat, key: string, payload: string, hash: string, c: nat, now: int) returns (failure: Option<Error>)
      requires t < |tasks|
      modifies this
      ensures Did(old(State()), State(), failure, T.SubmitUnderClaim(old(State()), agent, t, key, payload, hash, c, now))
    {
      if c >= |claims| {
        return Some(ClaimInvalid);
      }
      var saved, claim := State(), claims[c];
      if claim.agent != agent || claim.task != t || claim.status != Active || claim.expiresAt <= now {
        return Some(ClaimInvalid);
      }
      failure := ApplyClaimStatus(c, Active, ClaimUse);
      if failure.None? {
        failure := InsertSubmission(t, agent, key, payload, hash, claim.amount, c, claim.version, now);
      }
      if failure.Some? {
        Rollback(saved);
      }
    }

    method SubmitWork(agent: nat, t: nat, key: string, payload: string, hash: string, c: Option<nat>, now: int) returns (failure: Option<Error>)
      modifies this
      ensures Did(old(State()), State(), failure, T.SubmitWork(old(State()), agent, t, key, payload, hash, c, now))
      ensures TaskInvariant(old(State())) ==>
                (failure.None? <==> MaySubmit(old(State()), agent, t, key, hash, c, now)) && TaskInvariant(State())
    {
      SubmitOutcome(State(), agent, t, key, payload, hash, c, now);
      if t >= |tasks| || agent >= |balances| {
        return Some(NotFound);
      }
      var twin := FindByIdentity(submissions, t, agent, key);
      if twin.Some? {
        return if submissions[twin.value].payloadHash == hash then None else Some(IdempotencyConflict);
      }
      var task := tasks[t];
      if task.publisher != agent && !AudienceVisible(task, agent) {
        return Some(NotFound);
      }
      if task.publisher == agent {
        return Some(OwnTask);
      }
      if !BelowRejectionLimit(State(), t, agent, now) {
        return Some(SubmissionLimit);
      }
      match c
      case None => failure := SubmitWithoutClaim(agent, t, key, payload, hash, now);
      case Some(claim) => failure := SubmitUnderClaim(agent, t, key, payload, hash, claim, now);
    }

    /** State and event first, then the settlement or the release, all in one transaction. */
    method WriteDeliveryOutcome(s: nat, pre: SubmissionState, event: SubmissionEvent, at: int) returns (failure: Option<Error>)
      modifies this
      ensures Did(old(State()), State(), failure, T.WriteDeliveryOutcome(old(State()), s, pre, event, at))
      ensures TaskInvariant(old(State())) ==> (failure.None? <==> MayWrite(old(State()), s, pre, event)) && TaskInvariant(State())
      ensures failure.None? ==> && s < |submissions| == |old(submissions)|
                                && (old(submissions)[s].state == pre && !(event == Timeout && pre == Uncertain) ==>
                                      submissions[s].state == XA.OutcomeOf(event))
    {
      DeliveryOutcome(State(), s, pre, event, at);
      DeliveryState(State(), s, pre, event, at);
      if s >= |submissions| {
        return Some(NotFound);
      }
      var saved, sub := State(), submissions[s];
      if sub.state != pre || (event == Timeout && pre == Uncertain) {
        return None;
      }
      failure := SetSubmissionState(s, pre, event, at);
      if failure.None? {
        if event == Deliver2XX {
          failure := SettleTaskSubmission(sub.task, s, sub.agent, sub.amount);
        } else if event in {Deliver4XX, DeliveryFailed, Unresolved} {
          failure := ReleaseTaskReservation(sub.task, sub.amount);
        }
      }
      if failure.Some? {
        Rollback(saved);
      }
    }

    // -- payments --

    /** Grant and status move together: a completed order has exactly one grant of its credits. */
    method CompletePayment(p: nat) returns (failure: Option<Error>)
      modifies this
      ensures Did(old(State()), State(), failure, P.CompletePayment(old(State()), p))
      ensures PaymentsExplained(old(State())) ==> PaymentsExplained(State())
      ensures PaymentsExplained(old(State())) && failure.None? ==>
                && p < |payments| && payments[p].status == Paid
                && Grants(State(), p) == 1 && Granted(State(), p) == payments[p].credits
    {
      CompletionOutcome(State(), p);
      if p >= |payments| {
        return Some(NotFound);
      }
      var pay := payments[p];
      if pay.status == Paid {
        return None;
      }
      if pay.status != Pending {
        return Some(InvalidState);
      }
      failure := Record(pay.bot, GrantPayment, pay.credits, PaymentRef(p));
      if failure.None? {
        payments := payments[p := pay.(status := Paid)];
      }
    }

    /** Ends a pending order without credits; an order that is paid stays paid. */
    method TerminatePayment(p: nat, status: PaymentStatus) returns (failure: Option<Error>)
      requires status in {PaymentFailed, PaymentCancelled}
      modifies this`payments
      ensures Did(old(State()), State(), failure, P.TerminatePayment(old(State()), p, status))
      ensures PaymentsKept(old(payments), payments) && PaidStays(old(payments), payments)
      ensures PaymentsExplained(old(State())) ==> PaymentsExplained(State())
    {
      if PaymentsExplained(State()) {
        TerminateKeepsPayments(State(), p, status);
      }
      failure := None;
      if p < |payments| && payments[p].status == Pending {
        payments := payments[p := payments[p].(status := status)];
      }
    }

    /** A bound order never changes, and success means that this one is bound. */
    method BindProviderOrder(provider: string, p: nat, order: string) returns (failure: Option<Error>)
      modifies this`payments
      ensures Did(old(State()), State(), failure, P.BindProviderOrder(old(State()), provider, p, order))
      ensures PaymentsKept(old(payments), payments)
      ensures failure.None? ==> p < |payments| && payments[p].order == Some(order) && payments[p].provider == provider
    {
      if OrderTaken(payments, provider, order, p) {
        return Some(Conflict);
      }
      if p < |payments| && payments[p].provider == provider && payments[p].order.None? {
        payments := payments[p := payments[p].(order := Some(order))];
        return None;
      }
      if p >= |payments| {
        return Some(NotFound);
      }
      return if payments[p].provider == provider && payments[p].order == Some(order) then None else Some(Conflict);
    }

    /** Files the fact: one row per object, identity columns for good, and a refund that only rises. */
    method InsertPaymentAdjustment(fact: Adjustment) returns (failure: Option<Error>)
      modifies this`adjustments
      ensures var spec := P.InsertPaymentAdjustment(old(adjustments), fact);
              Did(old(State()), State(), failure, if spec.Ok? then Ok(old(State()).(adjustments := spec.value)) else Err(spec.error))
      ensures failure.None? <==> Storable(old(adjustments), fact)
      ensures AdjustmentsKept(old(adjustments), adjustments)
      ensures ObjectsUnique(old(adjustments)) ==> ObjectsUnique(adjustments)
      ensures failure.None? ==> exists i :: 0 <= i < |adjustments| && SameObject(adjustments[i], fact) && Remembers(adjustments[i], fact)
    {
      UpsertOutcome(adjustments, fact);
      StoredExactly(adjustments, fact);
      if fact.amountPaid <= 0 || (fact.refunded.Some? && fact.refunded.value < 0) {
        return Some(ValidationFailed);
      }
      failure := None;
      match FindObject(adjustments, fact)
      case Some(i) =>
        if Raises(adjustments[i], fact) {
          adjustments := adjustments[i := adjustments[i].(refunded := fact.refunded, amountPaid := fact.amountPaid)];
        }
      case None =>
        if EventSeen(adjustments, fact) {
          return Some(TransactionAborted);
        }
        adjustments := adjustments + [fact];
    }

    /**
     One pass over the payment's facts: the first sets the basis, every later one must agree,
     and the incoming fact must agree with the basis found.
     */
    method ResolveAdjustmentFacts(p: nat, transaction: string, amountPaid: int64)
      returns (failure: Option<Error>, maxRefunded: int64, found: bool, hasDispute: bool)
      ensures failure.Some? <==> HasFact(adjustments, p) && !OneBasis(adjustments, p, transaction, amountPaid)
      ensures failure.Some? ==> failure.value == ReconciliationFailed
      ensures failure.None? ==> && (found <==> HasFact(adjustments, p))
                                && (found ==> maxRefunded == MaxRefunded(adjustments, p))
                                && (found ==> (hasDispute <==> HasDispute(adjustments, p)))
    {
      maxRefunded, found, hasDispute := 0, false, false;
      var basis: (string, int64) := ("", 0);
      ghost var first := 0;
      var i := 0;
      while i < |adjustments|
        invariant 0 <= i <= |adjustments|
        invariant found <==> HasFact(adjustments[..i], p)
        invariant found ==> 0 <= first < i && adjustments[first].payment == p
                            && adjustments[first].transaction == basis.0 && adjustments[first].amountPaid == basis.1
        invariant found ==> OneBasis(adjustments[..i], p, basis.0, basis.1)
        invariant maxRefunded == MaxRefunded(adjustments[..i], p)
        invariant hasDispute <==> HasDispute(adjustments[..i], p)
      {
        var a := adjustments[i];
        assert adjustments[..i + 1] == adjustments[..i] + [a];
        OneFactMore(adjustments[..i], a, p);
        if a.payment == p {
          if a.kind == Dispute {
            hasDispute := true;
          }
          if !found {
            basis, found, first := (a.transaction, a.amountPaid), true, i;
          } else if basis.0 != a.transaction || basis.1 != a.amountPaid {
            assert adjustments[first].payment == p && adjustments[i].payment == p;
            return Some(ReconciliationFailed), 0, false, false;
          }
          if a.refunded.GetOr(0) > maxRefunded {
            maxRefunded := a.refunded.GetOr(0);
          }
        }
        i := i + 1;
      }
      assert adjustments[..i] == adjustments;
      failure := None;
      if found && (basis.0 != transaction || basis.1 != amountPaid) {
        assert adjustments[first].payment == p;
        return Some(ReconciliationFailed), 0, false, false;
      }
    }

    /** Whatever object the fact names, every payment stays explained; a fact accepted before changes nothing. */
    method RecordPaymentAdjustment(fact: Adjustment) returns (failure: Option<Error>)
      modifies this
      ensures Did(old(State()), State(), failure, P.RecordPaymentAdjustment(old(State()), fact))
      ensures PaymentsExplained(old(State())) ==> PaymentsExplained(State())
      ensures PaymentsExplained(old(State())) && failure.None? ==> P.RecordPaymentAdjustment(State(), fact) == Ok(State())
    {
      FactOutcome(State(), fact);
      var p := fact.payment;
      if p >= |payments| {
        return Some(NotFound);
      }
      var saved, pay := State(), payments[p];
      if pay.status != Paid {
        return Some(NotPaid);
      }
      failure := InsertPaymentAdjustment(fact);
      if failure.Some? {
        return;
      }
      var maxRefunded, found, hasDispute;
      failure, maxRefunded, found, hasDispute := ResolveAdjustmentFacts(p, fact.transaction, fact.amountPaid);
      if failure.None? && found {
        failure := AdvanceReversal(p, pay, fact.amountPaid, maxRefunded, hasDispute);
      }
      if failure.Some? {
        Rollback(saved);
      }
    }

    method AdvanceReversal(p: nat, pay: Payment, amountPaid: int64, maxRefunded: int64, hasDispute: bool) returns (failure: Option<Error>)
      requires p < |payments| && payments[p] == pay
      requires maxRefunded == MaxRefunded(adjustments, p) && (hasDispute <==> HasDispute(adjustments, p))
      modifies this`balances, this`ledger
      ensures Did(old(State()), State(), failure, P.AdvanceReversal(old(State()), p, amountPaid))
    {
      if amountPaid <= 0 || maxRefunded < 0 || maxRefunded > amountPaid {
        return Some(ReconciliationFailed);
      }
      var target := pay.credits;
      if !hasDispute {
        var share := ReversalTarget(pay.credits, maxRefunded, amountPaid);
        if share.Err? {
          return Some(share.error);
        }
        target := share.value;
      }
      var sum := SumAmountByTypeRef(Books(balances, ledger), pay.bot, ReversePayment, PaymentRef(p));
      if sum.Err? {
        return Some(sum.error);
      }
      if sum.value > 0 {
        return Some(ReconciliationFailed);
      }
      var total: int := sum.value;
      var already := 0 - total;
      if already > pay.credits {
        return Some(ReconciliationFailed);
      }
      var delta: int := target - already;
      failure := None;
      if delta > 0 {
        failure := RecordAuthoritativeReversal(pay.bot, ReversePayment, 0 - delta, PaymentRef(p));
      }
    }

    // -- redemptions --

    /** Insert and debit in sequence; a debit that fails takes the order with it. */
    method Redeem(bot: nat, k: nat, key: string) returns (failure: Option<Error>)
      modifies this
      ensures Did(old(State()), State(), failure, R.Redeem(old(State()), bot, k, key))
      ensures failure.None? && !RA.KeyUsed(old(State()), bot, key) ==>
                && bot < |old(balances)| && k < |products| && products[k].active
                && Booked(old(State()).books, State().books, bot, SpendRedemption, 0 - products[k].price, RedemptionRef(|old(redemptions)|))
                && redemptions == old(redemptions)
                   + [Redemption(bot, k, products[k].title, products[k].price, key, PendingReview, None, None)]
      ensures RewardInvariant(old(State())) ==> RewardInvariant(State())
    {
      if RewardInvariant(State()) && R.Redeem(State(), bot, k, key).Ok? {
        RedeemKeepsOrders(State(), bot, k, key);
      }
      RedeemOwner(State(), bot, k, key);
      if !ValidRequestKey(key) {
        return Some(ValidationFailed);
      }
      var existing := FindRequest(redemptions, bot, key);
      if existing.Some? {
        return if k < |products| && redemptions[existing.value].product == k then None else Some(IdempotencyConflict);
      }
      if bot >= |balances| {
        return Some(BotNotFound);
      }
      if k >= |products| {
        return Some(NotFound);
      }
      var saved, product, r := State(), products[k], |redemptions|;
      if !product.active {
        return Some(ProductInactive);
      }
      if product.price <= 0 {
        return Some(ValidationFailed);
      }
      redemptions := redemptions + [Redemption(bot, k, product.title, product.price, key, PendingReview, None, None)];
      failure := Record(bot, SpendRedemption, -product.price, RedemptionRef(r));
      if failure.Some? {
        Rollback(saved);
      }
    }

    /** Approval and fulfilment: no credits move, and the order keeps its snapshot and its balance. */
    method LockTransition(r: nat, note: string, target: RedemptionStatus) returns (failure: Option<Error>)
      requires target in {Approved, Fulfilled}
      modifies this`redemptions
      ensures Did(old(State()), State(), failure, R.LockTransition(old(State()), r, note, target))
      ensures RewardInvariant(old(State())) ==> RewardInvariant(State())
      ensures OrdersKept(old(redemptions), redemptions)
      ensures failure.None? ==> r < |redemptions| && redemptions[r].status == target
      ensures r < |old(redemptions)| && RefundedStatus(old(redemptions)[r].status) ==> failure.Some?
    {
      TransitionOutcome(State(), r, note, target);
      if |note| > MAX_DESCRIPTION {
        return Some(ValidationFailed);
      }
      if r >= |redemptions| {
        return Some(NotFound);
      }
      var row := redemptions[r];
      if row.status == target {
        return None;
      }
      if row.status != if target == Fulfilled then Approved else PendingReview {
        return Some(InvalidState);
      }
      if target == Approved {
        redemptions := redemptions[r := row.(status := target, reviewNote := NoteOf(note))];
      } else {
        redemptions := redemptions[r := row.(status := target, fulfillmentNote := NoteOf(note))];
      }
      failure := None;
    }

    /** Status and refund row together; an order that is refunded is refunded once. */
    method RefundTransition(r: nat, note: string, target: RedemptionStatus) returns (failure: Option<Error>)
      requires target in {Declined, Cancelled}
      modifies this
      ensures Did(old(State()), State(), failure, R.RefundTransition(old(State()), r, note, target))
      ensures RewardInvariant(old(State())) ==> RewardInvariant(State())
      ensures failure.None? ==> r < |redemptions| && redemptions[r].status == target
    {
      if RewardInvariant(State()) && R.RefundTransition(State(), r, note, target).Ok? {
        RefundKeepsOrders(State(), r, note, target);
      }
      if |note| > MAX_DESCRIPTION {
        return Some(ValidationFailed);
      }
      if r >= |redemptions| {
        return Some(NotFound);
      }
      var saved, row := State(), redemptions[r];
      if row.status == target {
        return None;
      }
      if row.status != PendingReview && !(target == Cancelled && row.status == Approved) {
        return Some(InvalidState);
      }
      var moved := if target == Declined then row.(status := target, reviewNote := NoteOf(note)) else row.(status := target);
      redemptions := redemptions[r := moved];
      failure := Record(row.bot, RefundRedemption, row.cost, RedemptionRef(r));
      if failure.Some? {
        Rollback(saved);
      }
    }
  }

  // -- what the methods' callers gain --

  lemma AmountsAreReserved(e: Economy)
    requires TaskInvariant(e)
    ensures forall c :: 0 <= c < |e.claims| && e.claims[c].status == Active ==>
              0 < e.claims[c].amount && e.claims[c].task < |e.tasks| && e.claims[c].amount <= e.tasks[e.claims[c].task].reserved
    ensures forall s :: 0 <= s < |e.submissions| && !Terminal(e.submissions[s].state) ==>
              0 < e.submissions[s].amount && e.submissions[s].task < |e.tasks|
              && e.submissions[s].amount <= e.tasks[e.submissions[s].task].reserved
  {
    forall c | 0 <= c < |e.claims| && e.claims[c].status == Active
      ensures 0 < e.claims[c].amount && e.claims[c].task < |e.tasks| && e.claims[c].amount <= e.tasks[e.claims[c].task].reserved
    {
      ClaimIsReserved(e, c);
    }
    forall s | 0 <= s < |e.submissions| && !Terminal(e.submissions[s].state)
      ensures 0 < e.submissions[s].amount && e.submissions[s].task < |e.tasks|
              && e.submissions[s].amount <= e.tasks[e.submissions[s].task].reserved
    {
      SubmissionIsReserved(e, s);
    }
  }

  lemma ClaimOutcome(e: Economy, agent: nat, t: nat, now: int)
    ensures TaskInvariant(e) ==> (T.ClaimTask(e, agent, t, now).Ok? <==> MayClaim(e, agent, t, now))
    ensures TaskInvariant(e) && T.ClaimTask(e, agent, t, now).Ok? ==> TaskInvariant(T.ClaimTask(e, agent, t, now).value)
  {
    if TaskInvariant(e) {
      ClaimKeepsInvariant(e, agent, t, now);
    }
  }

  lemma CreateOutcome(e: Economy, publisher: nat, contract: Contract, budget: int64)
    ensures TaskInvariant(e) && T.CreateTask(e, publisher, contract, budget).Ok? ==>
              TaskInvariant(T.CreateTask(e, publisher, contract, budget).value)
  {
    if TaskInvariant(e) && T.CreateTask(e, publisher, contract, budget).Ok? {
      CreateKeepsInvariant(e, publisher, contract, budget);
    }
  }

  lemma SubmitOutcome(e: Economy, agent: nat, t: nat, key: string, payload: string, hash: string, c: Option<nat>, now: int)
    ensures TaskInvariant(e) ==>
              (T.SubmitWork(e, agent, t, key, payload, hash, c, now).Ok? <==> MaySubmit(e, agent, t, key, hash, c, now))
    ensures TaskInvariant(e) && T.SubmitWork(e, agent, t, key, payload, hash, c, now).Ok? ==>
              TaskInvariant(T.SubmitWork(e, agent, t, key, payload, hash, c, now).value)
  {
    if TaskInvariant(e) {
      SubmitKeepsInvariant(e, agent, t, key, payload, hash, c, now);
    }
  }

  lemma DeliveryOutcome(e: Economy, s: nat, pre: SubmissionState, event: SubmissionEvent, at: int)
    ensures TaskInvariant(e) ==> (T.WriteDeliveryOutcome(e, s, pre, event, at).Ok? <==> MayWrite(e, s, pre, event))
    ensures TaskInvariant(e) && T.WriteDeliveryOutcome(e, s, pre, event, at).Ok? ==>
              TaskInvariant(T.WriteDeliveryOutcome(e, s, pre, event, at).value)
  {
    if TaskInvariant(e) {
      OutcomeKeepsInvariant(e, s, pre, event, at);
    }
  }

  lemma DeliveryState(e: Economy, s: nat, pre: SubmissionState, event: SubmissionEvent, at: int)
    ensures T.WriteDeliveryOutcome(e, s, pre, event, at).Ok? ==>
              var e' := T.WriteDeliveryOutcome(e, s, pre, event, at).value;
              && s < |e'.submissions| == |e.submissions|
              && (e.submissions[s].state == pre && !(event == Timeout && pre == Uncertain) ==>
                    e'.submissions[s].state == XA.OutcomeOf(event))
  {
    XA.OutcomesExactly(pre, event);
  }

  lemma FactOutcome(e: Economy, fact: Adjustment)
    ensures PaymentsExplained(e) && P.RecordPaymentAdjustment(e, fact).Ok? ==>
              var e' := P.RecordPaymentAdjustment(e, fact).value;
              PaymentsExplained(e') && P.RecordPaymentAdjustment(e', fact) == Ok(e')
  {
    if PaymentsExplained(e) && P.RecordPaymentAdjustment(e, fact).Ok? {
      AdjustReachesTarget(e, fact);
      RedeliveryChangesNothing(e, fact);
    }
  }

  lemma FundOutcome(e: Economy, publisher: nat, t: nat, amount: int64)
    ensures TaskInvariant(e) && T.FundTask(e, publisher, t, amount).Ok? ==> TaskInvariant(T.FundTask(e, publisher, t, amount).value)
  {
    if TaskInvariant(e) && T.FundTask(e, publisher, t, amount).Ok? {
      FundKeepsInvariant(e, publisher, t, amount);
    }
  }

  lemma RefundOutcome(e: Economy, publisher: nat, t: nat)
    ensures TaskInvariant(e) && T.RefundTask(e, publisher, t).Ok? ==>
              var e' := T.RefundTask(e, publisher, t).value; TaskInvariant(e') && t < |e'.tasks| && Drained(e'.tasks[t])
  {
    if TaskInvariant(e) && T.RefundTask(e, publisher, t).Ok? {
      RefundKeepsInvariant(e, publisher, t);
      DrainsOutcome(e, publisher, t);
    }
  }

  lemma RefundOwner(e: Economy, publisher: nat, t: nat)
    ensures T.RefundTask(e, publisher, t).Ok? ==>
              var e' := T.RefundTask(e, publisher, t).value;
              && t < |e.tasks| == |e'.tasks| && e.tasks[t].publisher == publisher && e.tasks[t].status == Closed
              && Booked(e.books, e'.books, publisher, TaskRefund, e.tasks[t].Available(), TaskRef(t))
    ensures t < |e.tasks| && e.tasks[t].publisher != publisher ==>
              T.RefundTask(e, publisher, t) == Err(PA.Refusal(e.tasks[t], publisher))
  {
    PA.RefundExactly(e, publisher, t);
  }

  lemma RedeemOwner(e: Economy, bot: nat, k: nat, key: string)
    ensures R.Redeem(e, bot, k, key).Ok? && !RA.KeyUsed(e, bot, key) ==>
              var e' := R.Redeem(e, bot, k, key).value;
              && bot < |e.books.balances| && k < |e.products| && e'.products == e.products && e.products[k].active
              && Booked(e.books, e'.books, bot, SpendRedemption, 0 - e.products[k].price, RedemptionRef(|e.redemptions|))
              && e'.redemptions == e.redemptions
                 + [Redemption(bot, k, e.products[k].title, e.products[k].price, key, PendingReview, None, None)]
  {
    if R.Redeem(e, bot, k, key).Ok? && !RA.KeyUsed(e, bot, key) {
      RA.RedeemCharges(e, bot, k, key);
      RA.RedeemExactly(e, bot, k, key);
    }
  }

  lemma ReplaceOutcome(tasks: seq<Task>, versions: map<(nat, nat), Contract>, t: nat, contract: Contract)
    requires t < |tasks|
    ensures var next := tasks[t].version + 1;
            var versions' := versions[(t, next) := contract];
            Versioned(tasks, versions) && tasks[t].version >= 1 ==>
              && Versioned(tasks[t := tasks[t].(contract := contract, version := next)], versions')
              && VersionsKept(versions, versions') && versions'.Keys == versions.Keys + {(t, next)}
  {
    if Versioned(tasks, versions) && tasks[t].version >= 1 {
      NextVersion(tasks, versions, t, contract);
    }
  }

  lemma DrainsOutcome(e: Economy, publisher: nat, t: nat)
    requires TaskInvariant(e) && T.RefundTask(e, publisher, t).Ok?
    ensures var e' := T.RefundTask(e, publisher, t).value; t < |e'.tasks| && Drained(e'.tasks[t])
  {
    RefundDrains(e, publisher, t);
  }

  lemma CompletionOutcome(e: Economy, p: nat)
    ensures PaymentsExplained(e) && P.CompletePayment(e, p).Ok? ==>
              var e' := P.CompletePayment(e, p).value;
              && PaymentsExplained(e') && p < |e'.payments| && e'.payments[p].status == Paid
              && Grants(e', p) == 1 && Granted(e', p) == e'.payments[p].credits
  {
    if PaymentsExplained(e) && P.CompletePayment(e, p).Ok? {
      CompleteKeepsPayments(e, p);
      assert PaymentExplained(P.CompletePayment(e, p).value, p);
    }
  }

  /** The row reports at least the refund the fact did. */
  predicate Remembers(row: Adjustment, fact: Adjustment) {
    fact.refunded.Some? ==> row.refunded.Some? && row.refunded.value >= fact.refunded.value
  }

  lemma UpsertOutcome(adjs: seq<Adjustment>, fact: Adjustment)
    ensures P.InsertPaymentAdjustment(adjs, fact).Ok? ==>
              var after := P.InsertPaymentAdjustment(adjs, fact).value;
              && AdjustmentsKept(adjs, after) && (ObjectsUnique(adjs) ==> ObjectsUnique(after))
              && exists i :: 0 <= i < |after| && SameObject(after[i], fact) && Remembers(after[i], fact)
  {
    if P.InsertPaymentAdjustment(adjs, fact).Ok? {
      UpsertKeeps(adjs, fact);
      if ObjectsUnique(adjs) {
        UpsertKeepsUnique(adjs, fact);
      }
      var after := P.InsertPaymentAdjustment(adjs, fact).value;
      var at := match FindObject(adjs, fact) case Some(i) => i case None => |adjs|;
      assert SameObject(after[at], fact) && Remembers(after[at], fact);
    }
  }

  lemma TransitionOutcome(e: Economy, r: nat, note: string, target: RedemptionStatus)
    requires target in {Approved, Fulfilled}
    ensures RewardInvariant(e) && R.LockTransition(e, r, note, target).Ok? ==> RewardInvariant(R.LockTransition(e, r, note, target).value)
  {
    if RewardInvariant(e) && R.LockTransition(e, r, note, target).Ok? {
      TransitionKeepsOrders(e, r, note, target);
    }
  }

  // -- the reclaimer's pass --

  function ExpireAll(e: Economy, listed: seq<nat>, now: int): Economy {
    if listed == [] then e
    else
      var before := ExpireAll(e, listed[..|listed| - 1], now);
      match T.ExpireClaim(before, listed[|listed| - 1], now) case Ok(next) => next case Err(_) => before
  }

  lemma ExpireNeverFails(e: Economy, c: nat, now: int)
    requires TaskInvariant(e)
    ensures T.ExpireClaim(e, c, now).Ok? && TaskInvariant(T.ExpireClaim(e, c, now).value)
  {
    if c < |e.claims| && e.claims[c].status == Active && e.claims[c].expiresAt <= now {
      EndClaimKeepsInvariant(e, c, ClaimExpire);
    }
  }

  predicate Live(claims: seq<Claim>, c: nat, now: int) {
    c < |claims| && claims[c].status == Active && claims[c].expiresAt <= now
  }

  lemma ExpireClears(e: Economy, c: nat, now: int, d: nat)
    requires T.ExpireClaim(e, c, now).Ok?
    ensures var claims := T.ExpireClaim(e, c, now).value.claims;
            !Live(claims, c, now) && (!Live(e.claims, d, now) ==> !Live(claims, d, now))
  {
  }

  lemma {:induction false} ExpireAllKeepsInvariant(e: Economy, listed: seq<nat>, now: int)
    requires TaskInvariant(e)
    ensures TaskInvariant(ExpireAll(e, listed, now))
  {
    if listed != [] {
      var init := listed[..|listed| - 1];
      ExpireAllKeepsInvariant(e, init, now);
      ExpireNeverFails(ExpireAll(e, init, now), listed[|listed| - 1], now);
    }
  }

  lemma PassNeverFails(e: Economy, listed: seq<nat>, i: nat, now: int)
    requires i < |listed|
    ensures TaskInvariant(e) ==> T.ExpireClaim(ExpireAll(e, listed[..i], now), listed[i], now).Ok?
  {
    if TaskInvariant(e) {
      ExpireAllKeepsInvariant(e, listed[..i], now);
      ExpireNeverFails(ExpireAll(e, listed[..i], now), listed[i], now);
    }
  }

  lemma ExpireAllStep(e: Economy, listed: seq<nat>, now: int, d: nat)
    requires TaskInvariant(e) && listed != []
    ensures var init := ExpireAll(e, listed[..|listed| - 1], now).claims;
            var all := ExpireAll(e, listed, now).claims;
            !Live(all, listed[|listed| - 1], now) && (!Live(init, d, now) ==> !Live(all, d, now))
  {
    var before, c := ExpireAll(e, listed[..|listed| - 1], now), listed[|listed| - 1];
    ExpireAllKeepsInvariant(e, listed[..|listed| - 1], now);
    ExpireNeverFails(before, c, now);
    ExpireClears(before, c, now, d);
  }

  /** After the pass no listed claim is still both active and past its expiry. */
  lemma {:induction false} ExpireAllClears(e: Economy, listed: seq<nat>, now: int, i: nat)
    requires TaskInvariant(e) && i < |listed|
    ensures !Live(ExpireAll(e, listed, now).claims, listed[i], now)
  {
    ExpireAllStep(e, listed, now, listed[i]);
    if i < |listed| - 1 {
      ExpireAllClears(e, listed[..|listed| - 1], now, i);
    }
  }
}
