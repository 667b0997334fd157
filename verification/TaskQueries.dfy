/**
 The read side of the work surface: three queries count an agent's recent rejections in
 different ways and must agree, and the listings must agree with what a claim accepts.
 */
module TaskQueries {
  import opened Results
  import opened Schema
  import opened TaskKernel
  import opened TaskStore
  import opened TaskLaws
  import opened Rows

  function RejectionEvent(since: int): LogEntry -> int {
    (x: LogEntry) => if x.to == Rejected && x.at > since then 1 else 0
  }

  /** The listings join submissions with their events: one unit per matching event. */
  function RejectedEventsInWindow(t: nat, agent: nat, since: int): Submission -> int {
    (s: Submission) =>
      if s.task == t && s.agent == agent && s.state == Rejected then Sum(s.log, RejectionEvent(since)) else 0
  }

  /** Only the last event of a log can enter a terminal state. */
  lemma OnlyLastIsTerminal(log: seq<LogEntry>, state: SubmissionState, i: nat)
    requires LogOk(log, state) && i < |log| - 1
    ensures !Terminal(log[i].to)
  {
    assert SubmissionTransition(log[i].to, log[i + 1].cause) == Ok(log[i + 1].to);
  }

  /** A rejected submission has exactly one event into rejected, and it is the one the lateral join finds. */
  lemma OneRejectionPerSubmission(log: seq<LogEntry>, since: int)
    requires LogOk(log, Rejected)
    ensures RejectedAt(log) == Some(log[|log| - 1].at)
    ensures Sum(log, RejectionEvent(since)) == if log[|log| - 1].at > since then 1 else 0
  {
    var init := log[..|log| - 1];
    forall i | 0 <= i < |init| ensures RejectionEvent(since)(init[i]) == 0 {
      OnlyLastIsTerminal(log, Rejected, i);
    }
    SumZero(init, RejectionEvent(since));
  }

  /** The limit check and both listings count the same rejections, for every agent and window. */
  lemma RejectionCountsAgree(e: Economy, t: nat, agent: nat, since: int)
    requires Shape(e)
    ensures Sum(e.submissions, RejectedInWindow(t, agent, since))
            == Sum(e.submissions, RejectedEventsInWindow(t, agent, since))
  {
    forall i | 0 <= i < |e.submissions|
      ensures RejectedInWindow(t, agent, since)(e.submissions[i])
              == RejectedEventsInWindow(t, agent, since)(e.submissions[i])
    {
      var s := e.submissions[i];
      if s.state == Rejected {
        OneRejectionPerSubmission(s.log, since);
      }
    }
    SumCongruent(e.submissions, RejectedInWindow(t, agent, since), RejectedEventsInWindow(t, agent, since));
  }

  /** The filters of FindOpenWorkPage for a signed-in agent. */
  predicate Listed(e: Economy, t: nat, agent: nat, now: int)
    requires t < |e.tasks|
  {
    var task := e.tasks[t];
    && task.status == Open
    && task.contract.price >= 1
    && task.Available() >= task.contract.price
    && task.publisher != agent
    && Sum(e.submissions, RejectedEventsInWindow(t, agent, now - REJECTION_WINDOW)) < task.contract.maxRejected
    && (task.audience == {} || agent in task.audience)
  }

  predicate HoldsLiveClaim(e: Economy, t: nat, agent: nat, now: int) {
    exists c :: 0 <= c < |e.claims| && e.claims[c].task == t && e.claims[c].agent == agent
                && e.claims[c].status == Active && e.claims[c].expiresAt > now
  }

  /** The opportunity filter of offeredWorkWhere; active is the agent's account status. */
  predicate Offered(e: Economy, t: nat, agent: nat, active: bool, now: int)
    requires t < |e.tasks|
  {
    var task := e.tasks[t];
    && task.status == Open
    && task.contract.price >= 1
    && task.Available() >= task.contract.price
    && task.publisher != agent
    && Sum(e.submissions, RejectedEventsInWindow(t, agent, now - REJECTION_WINDOW)) < task.contract.maxRejected
    && agent in task.audience
    && !HoldsLiveClaim(e, t, agent, now)
    && active
  }

  lemma LiveClaimIsFound(e: Economy, t: nat, agent: nat, now: int)
    requires OneActiveClaim(e.claims)
    ensures HoldsLiveClaim(e, t, agent, now) <==>
              (var held := FindActiveClaim(e.claims, t, agent);
               held.Some? && e.claims[held.value].expiresAt > now)
  {
  }

  /**
   For an agent without a live claim, a claim accepts exactly the listed tasks whose harness
   resolves to at most one memory.
   */
  lemma ListedIsClaimable(e: Economy, t: nat, agent: nat, now: int)
    requires TaskInvariant(e) && t < |e.tasks| && agent < |e.books.balances|
    requires !HoldsLiveClaim(e, t, agent, now)
    ensures ClaimTask(e, agent, t, now).Ok? <==> Listed(e, t, agent, now) && |PinsOf(e, t)| <= 1
  {
    LiveClaimIsFound(e, t, agent, now);
    RejectionCountsAgree(e, t, agent, now - REJECTION_WINDOW);
    ClaimKeepsInvariant(e, agent, t, now);
  }

  /** An opportunity is what the listing shows, to a named and active agent that holds no live claim; it can be taken unless two memories are pinned. */
  lemma OfferedCanBeTaken(e: Economy, t: nat, agent: nat, active: bool, now: int)
    requires TaskInvariant(e) && t < |e.tasks| && agent < |e.books.balances|
    ensures Offered(e, t, agent, active, now) <==>
              && Listed(e, t, agent, now)
              && agent in e.tasks[t].audience
              && !HoldsLiveClaim(e, t, agent, now)
              && active
    ensures Offered(e, t, agent, active, now) ==> (ClaimTask(e, agent, t, now).Ok? <==> |PinsOf(e, t)| <= 1)
  {
    if Offered(e, t, agent, active, now) {
      ListedIsClaimable(e, t, agent, now);
    }
  }
}
