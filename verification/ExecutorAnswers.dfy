/**
 What an executor's request, and the worker that delivers its work, is answered, read off the
 tables alone: when it succeeds, and the whole new state when it does.
 */
module ExecutorAnswers {
  import opened Int64
  import opened Results
  import opened Credits
  import opened Schema
  import opened TaskKernel
  import opened TaskStore
  import opened TaskLaws
  import opened TaskQueries
  import opened Rows

  /** One day of rejections, as the listings count them. */
  function RejectedToday(e: Economy, t: nat, agent: nat, now: int): int {
    Sum(e.submissions, RejectedEventsInWindow(t, agent, now - 86400))
  }

  predicate MaySee(task: Task, agent: nat) {
    task.audience == {} || agent in task.audience
  }

  /** The state with only the claims and this task's reservation replaced. */
  predicate Reserves(e: Economy, e': Economy, t: nat, reserved: int) {
    t < |e.tasks| && e' == e.(claims := e'.claims, tasks := e.tasks[t := e.tasks[t].(reserved := reserved)])
  }

  // -- claims --

  /** An agent of the audience, not the publisher, may claim an open task it has not failed too often today. */
  lemma ClaimExactly(e: Economy, agent: nat, t: nat, now: int)
    requires TaskInvariant(e)
    ensures ClaimTask(e, agent, t, now).Ok? <==>
              && t < |e.tasks| && agent < |e.books.balances| && MaySee(e.tasks[t], agent)
              && e.tasks[t].status == Open && e.tasks[t].publisher != agent
              && (HoldsLiveClaim(e, t, agent, now)
                  || (&& RejectedToday(e, t, agent, now) < e.tasks[t].contract.maxRejected
                      && e.tasks[t].contract.price <= e.tasks[t].Available() && |PinsOf(e, t)| <= 1))
  {
    ClaimKeepsInvariant(e, agent, t, now);
    if t < |e.tasks| {
      RejectionCountsAgree(e, t, agent, now - 86400);
    }
    LiveClaimIsFound(e, t, agent, now);
  }

  /** The claim an agent holds from now on: the price, the version and the inputs as they are now. */
  function Granted(e: Economy, agent: nat, t: nat, now: int): Claim
    requires t < |e.tasks|
  {
    var c := e.tasks[t].contract;
    Claim(t, agent, e.tasks[t].version, now + c.ttl, now + c.maxDuration, c.price, Active, PinsOf(e, t))
  }

  /** One claim is added and its price reserved; an expired one of the same agent is ended. */
  predicate Grants(e: Economy, e': Economy, agent: nat, t: nat, now: int, held: Option<nat>)
    requires t < |e.tasks|
  {
    match held
    case None =>
      && e'.claims == e.claims + [Granted(e, agent, t, now)]
      && Reserves(e, e', t, e.tasks[t].reserved + e.tasks[t].contract.price)
    case Some(c) =>
      && c < |e.claims| && e'.claims == e.claims[c := e.claims[c].(status := Expired)] + [Granted(e, agent, t, now)]
      && Reserves(e, e', t, e.tasks[t].reserved - e.claims[c].amount + e.tasks[t].contract.price)
  }

  /** A live claim is kept as it is; otherwise a new one is granted. */
  lemma ClaimGrants(e: Economy, agent: nat, t: nat, now: int)
    requires TaskInvariant(e) && ClaimTask(e, agent, t, now).Ok?
    ensures t < |e.tasks|
    ensures if HoldsLiveClaim(e, t, agent, now) then ClaimTask(e, agent, t, now).value == e
            else Grants(e, ClaimTask(e, agent, t, now).value, agent, t, now, FindActiveClaim(e.claims, t, agent))
  {
    LiveClaimIsFound(e, t, agent, now);
    if !HoldsLiveClaim(e, t, agent, now) {
      AmountsArePositive(e);
      FreshClaimGrants(e, agent, t, now);
    }
  }

  lemma AmountsArePositive(e: Economy)
    requires Shape(e)
    ensures forall c :: 0 <= c < |e.claims| ==> e.claims[c].amount > 0
  {
    forall c | 0 <= c < |e.claims| ensures e.claims[c].amount > 0 {
      assert ClaimRowOk(e.claims[c], |e.tasks|, |e.books.balances|, e.versions);
    }
  }

  lemma FreshClaimGrants(e: Economy, agent: nat, t: nat, now: int)
    requires OneActiveClaim(e.claims) && forall c :: 0 <= c < |e.claims| ==> e.claims[c].amount > 0
    requires ClaimTask(e, agent, t, now).Ok? && t < |e.tasks|
    requires var held := FindActiveClaim(e.claims, t, agent);
             held.Some? ==> e.claims[held.value].expiresAt <= now
    ensures Grants(e, ClaimTask(e, agent, t, now).value, agent, t, now, FindActiveClaim(e.claims, t, agent))
  {
    ClaimedIsFresh(e, agent, t, now);
    ClaimPath(e, agent, t, now);
    match FindActiveClaim(e.claims, t, agent)
    case None =>
      FreshBinds(e, e.tasks[t], agent, t, now, PinsOf(e, t));
      IssueAdds(e, Granted(e, agent, t, now));
    case Some(c) => SweptGrants(e, EndClaim(e, c, ClaimExpire).value, ClaimTask(e, agent, t, now).value, agent, t, now, c);
  }

  lemma IssueAdds(e: Economy, claim: Claim)
    requires IssueClaim(e, claim).Ok?
    ensures var e' := IssueClaim(e, claim).value;
            && e'.claims == e.claims + [claim] && claim.task < |e.tasks|
            && Reserves(e, e', claim.task, e.tasks[claim.task].reserved + claim.amount)
  {
  }

  /** The claim ends in this status, and its amount is available again. */
  predicate Ends(e: Economy, e': Economy, c: nat, status: ClaimStatus) {
    && c < |e.claims| && e.claims[c].task < |e.tasks|
    && e'.claims == e.claims[c := e.claims[c].(status := status)]
    && Reserves(e, e', e.claims[c].task, e.tasks[e.claims[c].task].reserved - e.claims[c].amount)
  }

  lemma EndClaimEnds(e: Economy, c: nat, event: ClaimEvent)
    requires c < |e.claims| && event in {ClaimRelease, ClaimExpire} && EndClaim(e, c, event).Ok?
    ensures Ends(e, EndClaim(e, c, event).value, c, if event == ClaimRelease then Released else Expired)
  {
  }

  lemma SweptGrants(e: Economy, swept: Economy, last: Economy, agent: nat, t: nat, now: int, c: nat)
    requires OneActiveClaim(e.claims) && t < |e.tasks| && FindActiveClaim(e.claims, t, agent) == Some(c)
    requires c < |e.claims| && e.claims[c].amount > 0
    requires EndClaim(e, c, ClaimExpire) == Ok(swept)
    requires BindClaim(swept, ClaimFor(e.tasks[t], agent, t, now, []), PinsOf(e, t)) == Ok(last)
    ensures Grants(e, last, agent, t, now, Some(c))
  {
    SweptClaimIsGone(e, c, ClaimExpire);
    EndClaimEnds(e, c, ClaimExpire);
    FreshBinds(swept, e.tasks[t], agent, t, now, PinsOf(e, t));
    IssueAdds(swept, Granted(e, agent, t, now));
    ReservedTwice(e, swept, last, t, e.tasks[t].reserved - e.claims[c].amount,
                  e.tasks[t].reserved - e.claims[c].amount + e.tasks[t].contract.price);
  }

  lemma ReservedTwice(e: Economy, mid: Economy, last: Economy, t: nat, first: int, second: int)
    requires Reserves(e, mid, t, first) && Reserves(mid, last, t, second)
    ensures Reserves(e, last, t, second)
  {
    assert e.tasks[t := e.tasks[t].(reserved := first)][t := e.tasks[t].(reserved := second)] == e.tasks[t := e.tasks[t].(reserved := second)];
  }

  /** Only an active claim moves: renewed it stays active, and otherwise it ends as the event says. */
  lemma ClaimEventsExactly(from: ClaimStatus, event: ClaimEvent)
    ensures ClaimTransition(from, event)
            == if from != Active then Err(IllegalTransition)
               else Ok(if event == ClaimUse then Used else if event == ClaimExpire then Expired
                       else if event == ClaimRelease then Released else Active)
  {
  }

  /** Renewal is for the holder of a live claim on an open task, and never reaches past the deadline. */
  lemma RenewExactly(e: Economy, agent: nat, c: nat, now: int)
    ensures RenewClaim(e, agent, c, now).Ok? <==>
              && c < |e.claims| && e.claims[c].task < |e.tasks| && e.claims[c].agent == agent && e.claims[c].status == Active
              && now < e.claims[c].expiresAt && now < e.claims[c].deadline && e.tasks[e.claims[c].task].status == Open
    ensures RenewClaim(e, agent, c, now).Ok? ==>
              var e' := RenewClaim(e, agent, c, now).value;
              var full := now + e.tasks[e.claims[c].task].contract.ttl;
              && e' == e.(claims := e.claims[c := e.claims[c].(expiresAt := e'.claims[c].expiresAt)])
              && e'.claims[c].expiresAt <= full && e'.claims[c].expiresAt <= e.claims[c].deadline
              && (e'.claims[c].expiresAt == full || e'.claims[c].expiresAt == e.claims[c].deadline)
  {
  }

  /** Only its holder gives a claim back, and only while it is active. */
  lemma ReleaseExactly(e: Economy, agent: nat, c: nat)
    requires TaskInvariant(e)
    ensures ReleaseClaim(e, agent, c).Ok? <==> c < |e.claims| && e.claims[c].agent == agent && e.claims[c].status == Active
    ensures ReleaseClaim(e, agent, c).Ok? ==> Ends(e, ReleaseClaim(e, agent, c).value, c, Released)
  {
    if c < |e.claims| && e.claims[c].status == Active {
      EndClaimKeepsInvariant(e, c, ClaimRelease);
      EndClaimEnds(e, c, ClaimRelease);
    }
  }

  /** The reclaimer ends exactly the active claims whose time is over. */
  lemma ExpireExactly(e: Economy, c: nat, now: int)
    requires TaskInvariant(e)
    ensures ExpireClaim(e, c, now).Ok?
    ensures if c < |e.claims| && e.claims[c].status == Active && e.claims[c].expiresAt <= now
            then Ends(e, ExpireClaim(e, c, now).value, c, Expired) else ExpireClaim(e, c, now).value == e
  {
    if c < |e.claims| && e.claims[c].status == Active {
      EndClaimKeepsInvariant(e, c, ClaimExpire);
      EndClaimEnds(e, c, ClaimExpire);
    }
  }

  // -- submissions --

  /** A submission just taken in: being delivered, its payload kept, its first event logged. */
  function TakenIn(t: nat, agent: nat, key: string, payload: string, hash: string, amount: int64, claim: nat, version: nat, now: int): Submission {
    Submission(t, agent, key, Some(payload), hash, amount, Delivering, claim, version,
               [LogEntry(1, None, Delivering, Submit, now)])
  }

  /** Who may hand in work the first time: an agent of the audience, not the publisher, below its daily rejections. */
  lemma SubmitExactly(e: Economy, agent: nat, t: nat, key: string, payload: string, hash: string, c: Option<nat>, now: int)
    requires Shape(e) && FindByIdentity(e.submissions, t, agent, key).None?
    ensures SubmitWork(e, agent, t, key, payload, hash, c, now).Ok? <==>
              && t < |e.tasks| && agent < |e.books.balances| && MaySee(e.tasks[t], agent) && e.tasks[t].publisher != agent
              && RejectedToday(e, t, agent, now) < e.tasks[t].contract.maxRejected
              && (if c.None? then
                    && !e.tasks[t].contract.claimRequired && e.tasks[t].status == Open
                    && e.tasks[t].contract.price <= e.tasks[t].Available() && |PinsOf(e, t)| <= 1
                  else
                    && c.value < |e.claims| && e.claims[c.value].agent == agent && e.claims[c.value].task == t
                    && e.claims[c.value].status == Active && now < e.claims[c.value].expiresAt)
  {
    if t < |e.tasks| {
      CurrentVersionExists(e, t);
      RejectionCountsAgree(e, t, agent, now - 86400);
    }
    SubmitSucceedsExactly(e, agent, t, key, payload, hash, c, now);
  }

  /** The same request again is answered without effect; the same key for other work conflicts. */
  lemma ReplayAnswers(e: Economy, agent: nat, t: nat, key: string, payload: string, hash: string, c: Option<nat>, now: int, s: nat)
    requires t < |e.tasks| && agent < |e.books.balances| && OneIdentity(e.submissions) && s < |e.submissions|
    requires e.submissions[s].task == t && e.submissions[s].agent == agent && e.submissions[s].requestKey == key
    ensures SubmitWork(e, agent, t, key, payload, hash, c, now)
            == if e.submissions[s].payloadHash == hash then Ok(e) else Err(IdempotencyConflict)
  {
    var found := FindByIdentity(e.submissions, t, agent, key).value;
    assert found == s;
  }

  /** Under a claim, the claim is used up and its amount, version and reservation pass to the submission. */
  lemma SubmitUnderClaimTakes(e: Economy, agent: nat, t: nat, key: string, payload: string, hash: string, c: nat, now: int)
    requires FindByIdentity(e.submissions, t, agent, key).None? && SubmitWork(e, agent, t, key, payload, hash, Some(c), now).Ok?
    ensures c < |e.claims|
    ensures SubmitWork(e, agent, t, key, payload, hash, Some(c), now).value
            == e.(claims := e.claims[c := e.claims[c].(status := Used)],
                  submissions := e.submissions + [TakenIn(t, agent, key, payload, hash, e.claims[c].amount, c, e.claims[c].version, now)])
  {
  }

  /** Without one, the price is reserved and a claim recorded that is already used. */
  lemma SubmitWithoutClaimTakes(e: Economy, agent: nat, t: nat, key: string, payload: string, hash: string, now: int)
    requires FindByIdentity(e.submissions, t, agent, key).None? && SubmitWork(e, agent, t, key, payload, hash, None, now).Ok?
    ensures t < |e.tasks|
    ensures var e' := SubmitWork(e, agent, t, key, payload, hash, None, now).value;
            var task := e.tasks[t];
            var price := task.contract.price;
            e' == e.(claims := e.claims + [Claim(t, agent, task.version, now, now, price, Used, PinsOf(e, t))],
                     tasks := e.tasks[t := task.(reserved := task.reserved + price)],
                     submissions := e.submissions + [TakenIn(t, agent, key, payload, hash, price, |e.claims|, task.version, now)])
  {
    SubmitPath(e, agent, t, key, payload, hash, None, now);
    IntakeTakes(e, agent, t, key, payload, hash, now);
  }

  lemma IntakeTakes(e: Economy, agent: nat, t: nat, key: string, payload: string, hash: string, now: int)
    requires t < |e.tasks| && SubmitWithoutClaim(e, agent, t, key, payload, hash, now).Ok?
    ensures var e' := SubmitWithoutClaim(e, agent, t, key, payload, hash, now).value;
            var task := e.tasks[t];
            var price := task.contract.price;
            e' == e.(claims := e.claims + [Claim(t, agent, task.version, now, now, price, Used, PinsOf(e, t))],
                     tasks := e.tasks[t := task.(reserved := task.reserved + price)],
                     submissions := e.submissions + [TakenIn(t, agent, key, payload, hash, price, |e.claims|, task.version, now)])
  {
    IntakePath(e, agent, t, key, payload, hash, now);
    var engaged := InsertClaim(ReserveTaskAmount(e, t, e.tasks[t].contract.price).value, EngagementFor(e, agent, t, now)).value;
    SubmissionAdds(engaged, t, agent, key, payload, hash, e.tasks[t].contract.price, |e.claims|, e.tasks[t].version, now);
  }

  lemma SubmissionAdds(e: Economy, t: nat, agent: nat, key: string, payload: string, hash: string,
                       amount: int64, claim: nat, version: nat, now: int)
    requires InsertSubmission(e, t, agent, key, payload, hash, amount, claim, version, now).Ok?
    ensures InsertSubmission(e, t, agent, key, payload, hash, amount, claim, version, now).value
            == e.(submissions := e.submissions + [TakenIn(t, agent, key, payload, hash, amount, claim, version, now)])
  {
  }

  // -- outcomes --

  /** Where a delivery outcome leads from a submission that is still in flight. */
  function OutcomeOf(event: SubmissionEvent): SubmissionState {
    match event
    case Deliver2XX => Settled
    case Deliver4XX => Rejected
    case DeliveryFailed => Failed
    case Unresolved => Failed
    case Timeout => Uncertain
    case Submit => Delivering
  }

  /** Which outcomes a submission in flight can have: only an uncertain one runs out unresolved. */
  lemma OutcomesExactly(pre: SubmissionState, event: SubmissionEvent)
    ensures SubmissionTransition(pre, event).Ok? <==>
              || ((pre == Delivering || pre == Uncertain) && (event == Deliver2XX || event == Deliver4XX || event == DeliveryFailed))
              || (pre == Delivering && event == Timeout)
              || (pre == Uncertain && event == Unresolved)
    ensures SubmissionTransition(pre, event).Ok? ==> SubmissionTransition(pre, event).value == OutcomeOf(event)
  {
  }

  /** The submission's row after the outcome: payload gone once it has ended, one event more. */
  function After(sub: Submission, event: SubmissionEvent, at: int): Submission {
    var to := OutcomeOf(event);
    sub.(state := to, payload := if to == Uncertain then sub.payload else None,
         log := sub.log + [LogEntry(|sub.log| + 1, Some(sub.state), to, event, at)])
  }

  /**
   The outcome itself and its money: a 2xx pays the agent from the reservation, any other end
   returns it, and a timeout moves nothing.
   */
  lemma OutcomeWrites(e: Economy, s: nat, pre: SubmissionState, event: SubmissionEvent, at: int)
    requires TaskInvariant(e) && WriteDeliveryOutcome(e, s, pre, event, at).Ok?
    requires s < |e.submissions| && e.submissions[s].state == pre && !(event == Timeout && pre == Uncertain)
    ensures var e' := WriteDeliveryOutcome(e, s, pre, event, at).value;
            var sub := e.submissions[s];
            var t := sub.task;
            && t < |e.tasks| && SubmissionTransition(pre, event).Ok?
            && e' == e.(submissions := e.submissions[s := After(sub, event, at)], tasks := e'.tasks, books := e'.books)
            && (match event
                case Deliver2XX =>
                  && Booked(e.books, e'.books, sub.agent, TaskEarn, sub.amount, SubmissionRef(s))
                  && e'.tasks == e.tasks[t := e.tasks[t].(reserved := e.tasks[t].reserved - sub.amount,
                                                          settled := e.tasks[t].settled + sub.amount)]
                case Timeout => e'.books == e.books && e'.tasks == e.tasks
                case _ =>
                  e'.books == e.books && e'.tasks == e.tasks[t := e.tasks[t].(reserved := e.tasks[t].reserved - sub.amount)])
  {
    var sub := e.submissions[s];
    assert SubmissionRowOk(sub, |e.tasks|, |e.books.balances|, e.versions);
    OutcomesExactly(pre, event);
    MaxSeqOfLog(sub.log);
    if event == Deliver2XX {
      RecordExactly(e.books, sub.agent, TaskEarn, sub.amount, SubmissionRef(s));
    }
  }

  /** A late observer changes nothing: the state moved on, or the timeout is already on record. */
  lemma LateOutcomeIsIgnored(e: Economy, s: nat, pre: SubmissionState, event: SubmissionEvent, at: int)
    requires s < |e.submissions| && (e.submissions[s].state != pre || (event == Timeout && pre == Uncertain))
    ensures WriteDeliveryOutcome(e, s, pre, event, at) == Ok(e)
  {
  }

  // -- causes --

  /** What each event of a log was caused by. */
  predicate CauseFits(x: LogEntry) {
    match x.to
    case Delivering => true
    case Uncertain => x.cause == Timeout
    case Settled => x.cause == Deliver2XX
    case Rejected => x.cause == Deliver4XX
    case Failed => x.cause == DeliveryFailed || x.cause == Unresolved
  }

  lemma CausesOfLog(log: seq<LogEntry>, state: SubmissionState)
    requires LogOk(log, state)
    ensures forall i :: 0 <= i < |log| ==> CauseFits(log[i])
  {
    forall i | 0 <= i < |log| ensures CauseFits(log[i]) {
      if i > 0 {
        OutcomesExactly(log[i - 1].to, log[i].cause);
      }
    }
  }

  // -- the daily count --

  /** The newest entry of the log decides when the submission was rejected. */
  lemma RejectionIsCounted(e: Economy, s: nat, pre: SubmissionState, event: SubmissionEvent, at: int, t: nat, agent: nat, since: int)
    requires TaskInvariant(e) && WriteDeliveryOutcome(e, s, pre, event, at).Ok?
    requires s < |e.submissions| && e.submissions[s].state == pre && !(event == Timeout && pre == Uncertain)
    ensures var e' := WriteDeliveryOutcome(e, s, pre, event, at).value;
            var hit := event == Deliver4XX && e.submissions[s].task == t && e.submissions[s].agent == agent && since < at;
            Sum(e'.submissions, RejectedInWindow(t, agent, since))
            == Sum(e.submissions, RejectedInWindow(t, agent, since)) + if hit then 1 else 0
  {
    OutcomeWrites(e, s, pre, event, at);
    OutcomesExactly(pre, event);
    var sub := e.submissions[s];
    var now := After(sub, event, at);
    SumUpdate(e.submissions, s, now, RejectedInWindow(t, agent, since));
    assert now.log[..|now.log| - 1] == sub.log;
  }
}
