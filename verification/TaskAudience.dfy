/** The audience of a task: written once as rows at creation, and named alike by every contract version. */
module TaskAudience {
  import opened Int64
  import opened Results
  import opened Schema
  import opened TaskKernel
  import opened TaskStore

  predicate AudienceOk(task: Task) {
    task.audience == Named(task.contract.audience) && task.publisher !in task.audience && ValidAudience(task.contract.audience)
  }

  predicate SameAudience(tasks: seq<Task>, k: (nat, nat), c: Contract) {
    k.0 < |tasks| && c.audience == tasks[k.0].contract.audience
  }

  ghost predicate AudiencesFixed(e: Economy) {
    && (forall t :: 0 <= t < |e.tasks| ==> AudienceOk(e.tasks[t]))
    && (forall k :: k in e.versions ==> SameAudience(e.tasks, k, e.versions[k]))
  }

  lemma CreateFixesAudience(e: Economy, publisher: nat, contract: Contract, budget: int64)
    requires AudiencesFixed(e) && CreateTask(e, publisher, contract, budget).Ok?
    ensures AudiencesFixed(CreateTask(e, publisher, contract, budget).value)
  {
  }

  /** An update whose contract names another audience is refused, so versions never drift. */
  lemma UpdateKeepsAudience(e: Economy, publisher: nat, t: nat, contract: Contract)
    requires AudiencesFixed(e) && UpdateTask(e, publisher, t, contract).Ok?
    ensures AudiencesFixed(UpdateTask(e, publisher, t, contract).value)
    ensures contract.audience == e.tasks[t].contract.audience
  {
  }

  predicate Alike(a: Task, b: Task) {
    b.publisher == a.publisher && b.audience == a.audience && b.contract == a.contract
  }

  /** Nothing an audience depends on moved. */
  ghost predicate Unmoved(e: Economy, e': Economy) {
    e'.versions == e.versions && |e'.tasks| == |e.tasks| && forall t :: 0 <= t < |e.tasks| ==> Alike(e.tasks[t], e'.tasks[t])
  }

  lemma UnmovedKeepsAudience(e: Economy, e': Economy)
    requires AudiencesFixed(e) && Unmoved(e, e')
    ensures AudiencesFixed(e')
  {
    forall k | k in e'.versions ensures SameAudience(e'.tasks, k, e'.versions[k]) {
      assert SameAudience(e.tasks, k, e.versions[k]);
    }
  }

  lemma EndClaimLeavesAudience(e: Economy, c: nat, event: ClaimEvent)
    requires c < |e.claims| && EndClaim(e, c, event).Ok?
    ensures Unmoved(e, EndClaim(e, c, event).value)
  {
  }

  lemma BindLeavesAudience(e: Economy, claim: Claim, pins: seq<Pin>)
    requires BindClaim(e, claim, pins).Ok?
    ensures Unmoved(e, BindClaim(e, claim, pins).value)
  {
  }

  lemma UnmovedIsTransitive(a: Economy, b: Economy, c: Economy)
    requires Unmoved(a, b) && Unmoved(b, c)
    ensures Unmoved(a, c)
  {
    forall t | 0 <= t < |a.tasks| ensures Alike(a.tasks[t], c.tasks[t]) {
      assert Alike(a.tasks[t], b.tasks[t]) && Alike(b.tasks[t], c.tasks[t]);
    }
  }

  lemma ClaimLeavesAudience(e: Economy, agent: nat, t: nat, now: int)
    requires ClaimTask(e, agent, t, now).Ok?
    ensures Unmoved(e, ClaimTask(e, agent, t, now).value)
  {
    var held := FindActiveClaim(e.claims, t, agent);
    if held.None? || e.claims[held.value].expiresAt <= now {
      var task := e.tasks[t];
      var claim := Claim(t, agent, task.version, now + task.contract.ttl, now + task.contract.maxDuration,
                         task.contract.price, Active, []);
      if held.Some? {
        var swept := EndClaim(e, held.value, ClaimExpire).value;
        EndClaimLeavesAudience(e, held.value, ClaimExpire);
        BindLeavesAudience(swept, claim, PinsOf(e, t));
        UnmovedIsTransitive(e, swept, BindClaim(swept, claim, PinsOf(e, t)).value);
      } else {
        BindLeavesAudience(e, claim, PinsOf(e, t));
      }
    }
  }

  lemma SubmitLeavesAudience(e: Economy, agent: nat, t: nat, key: string, payload: string, hash: string, c: Option<nat>, now: int)
    requires SubmitWork(e, agent, t, key, payload, hash, c, now).Ok?
    ensures Unmoved(e, SubmitWork(e, agent, t, key, payload, hash, c, now).value)
  {
  }

  lemma OutcomeLeavesAudience(e: Economy, s: nat, pre: SubmissionState, event: SubmissionEvent, at: int)
    requires WriteDeliveryOutcome(e, s, pre, event, at).Ok?
    ensures Unmoved(e, WriteDeliveryOutcome(e, s, pre, event, at).value)
  {
  }
}
