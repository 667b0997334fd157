/** What the invariants and the history say about any run of the credit economy. */
module EconomyTheorems {
  import opened Results
  import opened Credits
  import opened Schema
  import opened TaskKernel
  import opened TaskLaws
  import opened TaskAudit
  import opened RewardLaws
  import opened EconomyRuns
  import opened EconomyHistory
  import Rows
  import X = ExecutorAnswers

  // -- task money --

  /** Credits in all balances and inside all tasks. */
  function Wealth(e: Economy): int {
    Rows.Sum(e.books.balances, Itself()) + Rows.Sum(e.tasks, EscrowOf())
  }

  lemma {:induction false} SumSplits(rows: seq<Row>, n: nat, weight: Row -> int)
    requires n <= |rows|
    ensures Rows.Sum(rows, weight) == Rows.Sum(rows[..n], weight) + Rows.Sum(rows[n..], weight)
  {
    if n == |rows| {
      assert rows[..n] == rows;
    } else {
      var init := rows[..|rows| - 1];
      SumSplits(init, n, weight);
      assert init[..n] == rows[..n];
      assert rows[n..][..|rows[n..]| - 1] == init[n..];
    }
  }

  /** Between any two moments, credits appear and vanish only by the ledger rows that are not task rows. */
  lemma CreditsAreConserved(ops: seq<Op>, later: seq<Op>)
    ensures var e, e' := Run(EMPTY, ops), Run(EMPTY, ops + later);
            && e.books.ledger <= e'.books.ledger
            && Wealth(e') - Wealth(e) == Rows.Sum(e'.books.ledger[|e.books.ledger|..], OutsideTasks())
  {
    EveryRunIsSound(ops);
    EveryRunIsSound(ops + later);
    RunsExtend(ops, later);
    var e, e' := Run(EMPTY, ops), Run(EMPTY, ops + later);
    SumSplits(e'.books.ledger, |e.books.ledger|, OutsideTasks());
    assert e'.books.ledger[..|e.books.ledger|] == e.books.ledger;
  }

  /** Every balance is its account's ledger sum and the newest row's balance_after; no task counter is negative. */
  lemma BooksAndCountersAgree(ops: seq<Op>, k: nat, t: nat)
    ensures var e := Run(EMPTY, ops);
            && (k < |e.books.balances| ==>
                  && e.books.balances[k] == Rows.Sum(e.books.ledger, OfBot(k))
                  && LatestBalanceAfter(e.books.ledger, k) == Some(e.books.balances[k]))
            && (t < |e.tasks| ==>
                  && e.tasks[t].reserved == Held(e.claims, e.submissions, t)
                  && e.tasks[t].locked == Rows.Sum(e.books.ledger, LockedBy(t))
                  && e.tasks[t].settled == Rows.Sum(e.submissions, SettledAmount(t))
                  && e.tasks[t].refunded == Rows.Sum(e.books.ledger, RefundedBy(t))
                  && e.tasks[t].reserved >= 0 && e.tasks[t].Available() >= 0)
  {
    EveryRunIsSound(ops);
    var e := Run(EMPTY, ops);
    if k < |e.books.balances| {
      assert BalanceIsTotal(e.books, k);
      LatestRowShowsBalance(e.books, k);
    }
    if t < |e.tasks| {
      assert CountersExplained(e, t);
    }
  }

  /** The repository's own audit finds nothing in any task of any reachable state. */
  lemma EveryTaskIsClean(ops: seq<Op>, t: nat)
    requires t < |Run(EMPTY, ops).tasks|
    ensures Clean(Run(EMPTY, ops), t)
  {
    EveryRunIsSound(ops);
    InvariantIsClean(Run(EMPTY, ops), t);
  }

  /** A refunded, drained task never moves again. */
  lemma DrainedForGood(ops: seq<Op>, later: seq<Op>, t: nat)
    requires t < |Run(EMPTY, ops).tasks| && Drained(Run(EMPTY, ops).tasks[t])
    ensures t < |Run(EMPTY, ops + later).tasks| && Run(EMPTY, ops + later).tasks[t] == Run(EMPTY, ops).tasks[t]
  {
    RunsExtend(ops, later);
    assert TaskKept(Run(EMPTY, ops).tasks[t], Run(EMPTY, ops + later).tasks[t]);
  }

  // -- submissions and contract versions --

  /** The events a submission has logged stay as they are, numbered without gaps, each leaving the state the last one entered. */
  lemma LogsOnlyGrow(ops: seq<Op>, later: seq<Op>, s: nat)
    requires s < |Run(EMPTY, ops).submissions|
    ensures s < |Run(EMPTY, ops + later).submissions|
    ensures var a, b := Run(EMPTY, ops).submissions[s], Run(EMPTY, ops + later).submissions[s];
            && a.log <= b.log && LogOk(b.log, b.state)
            && (b.payload.Some? <==> !Terminal(b.state))
            && (Terminal(a.state) ==> b == a)
  {
    RunsExtend(ops, later);
    EveryRunIsSound(ops + later);
    assert SubmissionKept(Run(EMPTY, ops).submissions[s], Run(EMPTY, ops + later).submissions[s]);
  }

  /** Over any run, only a 2xx settles a submission, only a 4xx rejects it, and only a failure or an expiry fails it. */
  lemma CausesFit(ops: seq<Op>, s: nat)
    requires s < |Run(EMPTY, ops).submissions|
    ensures var log := Run(EMPTY, ops).submissions[s].log;
            forall i :: 0 <= i < |log| ==>
              && (log[i].to == Settled ==> log[i].cause == Deliver2XX)
              && (log[i].to == Rejected ==> log[i].cause == Deliver4XX)
              && (log[i].to == Failed ==> log[i].cause == DeliveryFailed || log[i].cause == Unresolved)
              && (log[i].to == Uncertain ==> log[i].cause == Timeout)
  {
    EveryRunIsSound(ops);
    var e := Run(EMPTY, ops);
    assert SubmissionRowOk(e.submissions[s], |e.tasks|, |e.books.balances|, e.versions);
    X.CausesOfLog(e.submissions[s].log, e.submissions[s].state);
    assert forall i :: 0 <= i < |e.submissions[s].log| ==> X.CauseFits(e.submissions[s].log[i]);
  }

  /** A contract version that a claim or submission is bound to always resolves to the same contract. */
  lemma BoundVersionsResolve(ops: seq<Op>, later: seq<Op>, c: nat)
    requires c < |Run(EMPTY, ops).claims|
    ensures var e, e' := Run(EMPTY, ops), Run(EMPTY, ops + later);
            var k := (e.claims[c].task, e.claims[c].version);
            c < |e'.claims| && (e'.claims[c].task, e'.claims[c].version) == k
            && k in e.versions && k in e'.versions && e'.versions[k] == e.versions[k]
  {
    EveryRunIsSound(ops);
    RunsExtend(ops, later);
    var e, e' := Run(EMPTY, ops), Run(EMPTY, ops + later);
    assert ClaimKept(e.claims[c], e'.claims[c]);
    assert ClaimRowOk(e.claims[c], |e.tasks|, |e.books.balances|, e.versions);
  }

  // -- redemptions --

  /**
   Over any run an order's rows sum to minus its cost until it is rejected or cancelled and to
   zero from then on; it has one debit, at most one refund, one order per request key, and its
   snapshot survives every product edit.
   */
  lemma OrdersBalance(ops: seq<Op>, later: seq<Op>, r: nat)
    requires r < |Run(EMPTY, ops).redemptions|
    ensures var e, e' := Run(EMPTY, ops), Run(EMPTY, ops + later);
            && r < |e'.redemptions|
            && Snapshot(e'.redemptions[r]) == Snapshot(e.redemptions[r])
            && (var row := e'.redemptions[r];
                && Rows.Sum(e'.books.ledger, OrderRows(r)) == (if RefundedStatus(row.status) then 0 else 0 - row.cost)
                && Rows.Sum(e'.books.ledger, DebitRows(r)) == 1
                && Rows.Sum(e'.books.ledger, RefundRows(r)) == (if RefundedStatus(row.status) then 1 else 0))
            && (e.redemptions[r].status in {Declined, Fulfilled, Cancelled} ==> e'.redemptions[r] == e.redemptions[r])
            && RequestsUnique(e'.redemptions)
  {
    EveryRunIsSound(ops + later);
    RunsExtend(ops, later);
    var e, e' := Run(EMPTY, ops), Run(EMPTY, ops + later);
    assert OrderExplained(e', r);
    assert OrderKept(e.redemptions[r], e'.redemptions[r]);
  }
}
