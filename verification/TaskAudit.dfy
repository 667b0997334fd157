/** The repository's own read-only audit of one task, and why it never finds anything. */
module TaskAudit {
  import opened Schema
  import opened TaskStore
  import opened TaskLaws
  import opened TaskAudience
  import opened Rows

  datatype Finding =
    | NegativeReserved | NegativeAvailable | MissingVersion
    | OpenWithRows | AudienceSize | PublisherNamed | NamesMismatch | AudienceDrift
    | ReservedMismatch | SettlementMismatch(submission: nat) | LogMismatch(submission: nat)
    | DuplicateIdentity(submission: nat)

  /** One settlement record, of the submission's amount, exactly when it is settled. */
  predicate SettlementOk(e: Economy, s: nat)
    requires s < |e.submissions|
  {
    var count, total := Sum(e.books.ledger, Payouts(s)), Sum(e.books.ledger, EarnedBy(s));
    && count <= 1
    && (count == 1 ==> total == e.submissions[s].amount)
    && (count == 1 <==> e.submissions[s].state == Settled)
  }

  predicate LogShowsState(sub: Submission) {
    sub.log != [] && sub.log[|sub.log| - 1].to == sub.state
  }

  ghost predicate NoTwinBefore(e: Economy, s: nat)
    requires s < |e.submissions|
  {
    forall r :: 0 <= r < s ==>
                  || e.submissions[r].task != e.submissions[s].task
                  || e.submissions[r].agent != e.submissions[s].agent
                  || e.submissions[r].requestKey != e.submissions[s].requestKey
  }

  ghost predicate SubmissionClean(e: Economy, s: nat)
    requires s < |e.submissions|
  {
    SettlementOk(e, s) && LogShowsState(e.submissions[s]) && NoTwinBefore(e, s)
  }

  predicate VersionsExist(e: Economy, t: nat)
    requires t < |e.tasks|
  {
    && (t, e.tasks[t].version) in e.versions
    && (forall c :: 0 <= c < |e.claims| && e.claims[c].task == t ==> (t, e.claims[c].version) in e.versions)
    && (forall s :: 0 <= s < |e.submissions| && e.submissions[s].task == t ==> (t, e.submissions[s].version) in e.versions)
  }

  /** An open contract has no audience rows; a restricted one a row for each of the 1 to 50 agents it names. */
  predicate AudienceConsistent(task: Task) {
    match task.contract.audience
    case Everyone => task.audience == {}
    case Only(agents) => 1 <= |task.audience| <= MAX_AUDIENCE && task.publisher !in task.audience && |agents| == |task.audience|
  }

  /** Every published version carries the current audience. */
  predicate NoDrift(e: Economy, t: nat)
    requires t < |e.tasks|
  {
    forall k :: k in e.versions && k.0 == t ==> e.versions[k].audience == e.tasks[t].contract.audience
  }

  ghost predicate Clean(e: Economy, t: nat)
    requires t < |e.tasks|
  {
    && e.tasks[t].reserved >= 0
    && e.tasks[t].Available() >= 0
    && VersionsExist(e, t)
    && AudienceConsistent(e.tasks[t]) && NoDrift(e, t)
    && e.tasks[t].reserved == Held(e.claims, e.submissions, t)
    && (forall s :: 0 <= s < |e.submissions| && e.submissions[s].task == t ==> SubmissionClean(e, s))
  }

  /** Lists every breach of one task; an empty list means the task is clean, and only then. */
  method CheckInvariants(e: Economy, t: nat) returns (items: seq<Finding>)
    requires t < |e.tasks|
    ensures items == [] <==> Clean(e, t)
  {
    items := [];
    var task := e.tasks[t];
    if task.reserved < 0 {
      items := items + [NegativeReserved];
    }
    if task.Available() < 0 {
      items := items + [NegativeAvailable];
    }
    if !VersionsExist(e, t) {
      items := items + [MissingVersion];
    }
    match task.contract.audience {
      case Everyone =>
        if |task.audience| != 0 {
          items := items + [OpenWithRows];
        }
      case Only(agents) =>
        if |task.audience| < 1 || |task.audience| > MAX_AUDIENCE {
          items := items + [AudienceSize];
        }
        if task.publisher in task.audience {
          items := items + [PublisherNamed];
        }
        if |agents| != |task.audience| {
          items := items + [NamesMismatch];
        }
    }
    if !NoDrift(e, t) {
      items := items + [AudienceDrift];
    }
    if task.reserved != Held(e.claims, e.submissions, t) {
      items := items + [ReservedMismatch];
    }
    ghost var header := items;
    var seen: set<(nat, string)> := {};
    var s := 0;
    while s < |e.submissions|
      invariant 0 <= s <= |e.submissions|
      invariant forall a, k :: (a, k) in seen <==>
                                 exists r :: 0 <= r < s && e.submissions[r].task == t
                                             && e.submissions[r].agent == a && e.submissions[r].requestKey == k
      invariant items == [] <==>
                (header == [] && forall r :: 0 <= r < s && e.submissions[r].task == t ==> SubmissionClean(e, r))
    {
      var sub := e.submissions[s];
      if sub.task == t {
        if !SettlementOk(e, s) {
          items := items + [SettlementMismatch(s)];
        }
        if !LogShowsState(sub) {
          items := items + [LogMismatch(s)];
        }
        if (sub.agent, sub.requestKey) in seen {
          items := items + [DuplicateIdentity(s)];
        }
        seen := seen + {(sub.agent, sub.requestKey)};
      }
      s := s + 1;
    }
  }

  /** Every state the transactions can reach is clean, for every task. */
  lemma InvariantIsClean(e: Economy, t: nat)
    requires TaskInvariant(e) && AudiencesFixed(e) && t < |e.tasks|
    ensures Clean(e, t)
  {
    assert AudienceOk(e.tasks[t]);
    forall k | k in e.versions && k.0 == t ensures e.versions[k].audience == e.tasks[t].contract.audience {
      assert SameAudience(e.tasks, k, e.versions[k]);
    }
    assert CountersExplained(e, t);
    forall s | 0 <= s < |e.submissions| && e.submissions[s].task == t ensures SubmissionClean(e, s) {
      assert PaidExactly(e, s);
    }
  }
}
