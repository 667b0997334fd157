/**
 The finance auditor: a read-only projection of one payment's facts and ledger rows against
 five integrity conditions. Every reachable state satisfies all five for every payment.
 */
module FinanceAudit {
  import opened Int64
  import opened Results
  import opened Credits
  import opened Schema
  import opened Payments
  import opened PaymentLaws
  import opened EconomyRuns
  import opened EconomyHistory
  import opened Reversal
  import Rows
  import Sets

  datatype Report = Report(
    grantCount: int, grantSum: int64, reverseCount: int, reverseSum: int64,
    adjustments: nat, refundFacts: int, disputeFacts: int,
    transactions: nat, amountsPaid: nat, maxRefunded: int64,
    balance: int64, latestBalanceAfter: Option<int64>,
    paidGrantExact: bool,
    basisConsistent: bool,
    reverseNonPositive: bool,
    reverseWithinEntitlement: bool,
    balanceMatchesLedger: bool)
  {
    predicate Clean() {
      paidGrantExact && basisConsistent && reverseNonPositive && reverseWithinEntitlement && balanceMatchesLedger
    }
  }

  function Of(adjs: seq<Adjustment>, p: nat): seq<Adjustment> {
    if adjs == [] then []
    else
      var rest := Of(adjs[..|adjs| - 1], p);
      if adjs[|adjs| - 1].payment == p then rest + [adjs[|adjs| - 1]] else rest
  }

  function IsKind(kind: AdjustmentKind): Adjustment -> int {
    (a: Adjustment) => if a.kind == kind then 1 else 0
  }

  // -- the five conditions, in their own terms --

  predicate GrantExact(e: Economy, p: nat)
    requires p < |e.payments|
  {
    Granted(e, p) == if e.payments[p].status == Paid then e.payments[p].credits else 0
  }

  /** No two facts of the payment disagree on transaction or amount paid. */
  predicate OneBasisFor(adjs: seq<Adjustment>, p: nat) {
    forall i, j :: 0 <= i < |adjs| && 0 <= j < |adjs| && adjs[i].payment == p && adjs[j].payment == p ==>
                     adjs[i].transaction == adjs[j].transaction && adjs[i].amountPaid == adjs[j].amountPaid
  }

  predicate BalanceShown(e: Economy, p: nat)
    requires p < |e.payments| && e.payments[p].bot < |e.books.balances|
  {
    LatestBalanceAfter(e.books.ledger, e.payments[p].bot) == Some(e.books.balances[e.payments[p].bot])
  }

  // -- the auditor's loop --

  lemma OfIsSelection(adjs: seq<Adjustment>, p: nat, a: Adjustment)
    ensures a in Of(adjs, p) <==> a in adjs && a.payment == p
  {
    if adjs != [] {
      var last := |adjs| - 1;
      assert adjs == adjs[..last] + [adjs[last]];
      OfIsSelection(adjs[..last], p, a);
    }
  }

  lemma {:induction false} MaxOfSelection(adjs: seq<Adjustment>, p: nat)
    ensures MaxRefunded(Of(adjs, p), p) == MaxRefunded(adjs, p)
  {
    if adjs != [] {
      var rest := Of(adjs[..|adjs| - 1], p);
      MaxOfSelection(adjs[..|adjs| - 1], p);
      assert (rest + [adjs[|adjs| - 1]])[..|rest|] == rest;
    }
  }

  /** At most one distinct value is the same as all values equal. */
  lemma AtMostOne<T(!new)>(values: set<T>)
    ensures |values| <= 1 <==> forall x, y :: x in values && y in values ==> x == y
  {
    if |values| > 1 {
      var x :| x in values;
      assert |values - {x}| >= 1;
      var y :| y in values - {x};
    } else {
      forall x, y | x in values && y in values ensures x == y {
        if x != y {
          assert {x, y} <= values;
          Sets.SubsetSize({x, y}, values);
        }
      }
    }
  }

  lemma BasisCounts(adjs: seq<Adjustment>, p: nat, transactions: set<string>, amounts: set<int64>)
    requires transactions == set a | a in Of(adjs, p) :: a.transaction
    requires amounts == set a | a in Of(adjs, p) :: a.amountPaid
    ensures |transactions| <= 1 && |amounts| <= 1 <==> OneBasisFor(adjs, p)
  {
    AtMostOne(transactions);
    AtMostOne(amounts);
    forall a ensures a in Of(adjs, p) <==> a in adjs && a.payment == p {
      OfIsSelection(adjs, p, a);
    }
    if OneBasisFor(adjs, p) {
      forall x, y | x in Of(adjs, p) && y in Of(adjs, p)
        ensures x.transaction == y.transaction && x.amountPaid == y.amountPaid
      {
        var i :| 0 <= i < |adjs| && adjs[i] == x;
        var j :| 0 <= j < |adjs| && adjs[j] == y;
      }
    } else {
      var i, j :| 0 <= i < |adjs| && 0 <= j < |adjs| && adjs[i].payment == p && adjs[j].payment == p
                  && !(adjs[i].transaction == adjs[j].transaction && adjs[i].amountPaid == adjs[j].amountPaid);
      assert adjs[i] in Of(adjs, p) && adjs[j] in Of(adjs, p);
      assert adjs[i].transaction in transactions && adjs[j].transaction in transactions;
      assert adjs[i].amountPaid in amounts && adjs[j].amountPaid in amounts;
    }
  }

  datatype Facts = Facts(refunds: int, disputes: int, transactions: set<string>, amounts: set<int64>, maxRefunded: int64)

  /** What the pass over the payment's facts is for: two counts, two sets of distinct values, a maximum. */
  function Summary(facts: seq<Adjustment>, p: nat): Facts {
    Facts(Rows.Sum(facts, IsKind(AdjustmentKind.Refund)), Rows.Sum(facts, IsKind(Dispute)),
          set a | a in facts :: a.transaction, set a | a in facts :: a.amountPaid, MaxRefunded(facts, p))
  }

  lemma SummaryExtends(facts: seq<Adjustment>, a: Adjustment, p: nat)
    requires a.payment == p
    ensures var was, now := Summary(facts, p), Summary(facts + [a], p);
            && now.refunds == was.refunds + (if a.kind == AdjustmentKind.Refund then 1 else 0)
            && now.disputes == was.disputes + (if a.kind == Dispute then 1 else 0)
            && now.transactions == was.transactions + {a.transaction}
            && now.amounts == was.amounts + {a.amountPaid}
            && now.maxRefunded == if a.refunded.GetOr(0) > was.maxRefunded then a.refunded.value else was.maxRefunded
  {
    assert (facts + [a])[..|facts|] == facts;
    assert forall x :: x in facts + [a] <==> x in facts || x == a;
    assert a in facts + [a];
    Rows.SumAppend(facts, a, IsKind(AdjustmentKind.Refund));
    Rows.SumAppend(facts, a, IsKind(Dispute));
  }

  /** One pass over the payment's facts, filling counters, basis sets and the running maximum. */
  method ScanFacts(facts: seq<Adjustment>, p: nat) returns (f: Facts)
    requires forall i :: 0 <= i < |facts| ==> facts[i].payment == p
    ensures f == Summary(facts, p)
  {
    var refunds, disputes := 0, 0;
    var transactions: set<string>, amounts: set<int64> := {}, {};
    var maxRefunded: int64 := 0;
    var i := 0;
    while i < |facts|
      invariant 0 <= i <= |facts|
      invariant Facts(refunds, disputes, transactions, amounts, maxRefunded) == Summary(facts[..i], p)
    {
      var a := facts[i];
      assert facts[..i + 1] == facts[..i] + [a];
      SummaryExtends(facts[..i], a, p);
      if a.kind == AdjustmentKind.Refund {
        refunds := refunds + 1;
      } else {
        disputes := disputes + 1;
      }
      transactions := transactions + {a.transaction};
      amounts := amounts + {a.amountPaid};
      if a.refunded.Some? && a.refunded.value > maxRefunded {
        maxRefunded := a.refunded.value;
      }
      i := i + 1;
    }
    assert facts[..i] == facts;
    f := Facts(refunds, disputes, transactions, amounts, maxRefunded);
  }

  lemma SelectionIsHome(adjs: seq<Adjustment>, p: nat)
    ensures forall i :: 0 <= i < |Of(adjs, p)| ==> Of(adjs, p)[i].payment == p
  {
  }

  /**
   The report's five verdicts hold exactly when the five conditions do. The projection fails
   only where a sum does not fit the column it is read into, or the account is missing.
   */
  method Reconcile(e: Economy, p: nat) returns (r: Result<Report>)
    requires p < |e.payments|
    ensures r.Ok? <==> Fits(Granted(e, p)) && Fits(0 - Reversed(e, p)) && e.payments[p].bot < |e.books.balances|
    ensures r.Ok? ==>
              && (r.value.paidGrantExact <==> GrantExact(e, p))
              && (r.value.basisConsistent <==> OneBasisFor(e.adjustments, p))
              && (r.value.reverseNonPositive <==> Reversed(e, p) >= 0)
              && (r.value.reverseWithinEntitlement <==> 0 <= Reversed(e, p) <= e.payments[p].credits)
              && (r.value.balanceMatchesLedger <==> BalanceShown(e, p))
              && r.value.grantCount == Grants(e, p)
              && r.value.maxRefunded == MaxRefunded(e.adjustments, p)
              && r.value.refundFacts + r.value.disputeFacts == r.value.adjustments
              && (r.value.disputeFacts > 0 <==> HasDispute(e.adjustments, p))
  {
    var pay := e.payments[p];
    var ref := PaymentRef(p);
    var grantCount := Rows.Sum(e.books.ledger, SelectedCount(pay.bot, GrantPayment, ref));
    var grantSum := Rows.Sum(e.books.ledger, Selected(pay.bot, GrantPayment, ref));
    var reverseCount := Rows.Sum(e.books.ledger, SelectedCount(pay.bot, ReversePayment, ref));
    var reverseSum := Rows.Sum(e.books.ledger, Selected(pay.bot, ReversePayment, ref));
    if !Fits(grantSum) || !Fits(reverseSum) {
      return Err(CreditOverflow);
    }
    var facts := Of(e.adjustments, p);
    SelectionIsHome(e.adjustments, p);
    var f := ScanFacts(facts, p);
    MaxOfSelection(e.adjustments, p);
    BasisCounts(e.adjustments, p, f.transactions, f.amounts);
    KindCounts(facts);
    DisputeCounted(e.adjustments, p);
    var paidGrantExact := if pay.status == Paid then grantSum == pay.credits else grantSum == 0;
    var basisConsistent := |f.transactions| <= 1 && |f.amounts| <= 1;
    var reversed := Wrap(0 - reverseSum);
    if pay.bot >= |e.books.balances| {
      return Err(NotFound);
    }
    var balance, latest := e.books.balances[pay.bot], LatestBalanceAfter(e.books.ledger, pay.bot);
    var balanceMatches := latest.Some? && balance == latest.value;
    r := Ok(Report(grantCount, grantSum, reverseCount, reverseSum,
                   |facts|, f.refunds, f.disputes, |f.transactions|, |f.amounts|, f.maxRefunded, balance, latest,
                   paidGrantExact, basisConsistent, reverseSum <= 0, 0 <= reversed <= pay.credits, balanceMatches));
  }

  lemma {:induction false} KindCounts(facts: seq<Adjustment>)
    ensures Rows.Sum(facts, IsKind(AdjustmentKind.Refund)) + Rows.Sum(facts, IsKind(Dispute)) == |facts|
    ensures Rows.Sum(facts, IsKind(Dispute)) > 0 <==> exists a :: a in facts && a.kind == Dispute
    ensures Rows.Sum(facts, IsKind(Dispute)) >= 0
  {
    if facts != [] {
      var last := |facts| - 1;
      assert facts == facts[..last] + [facts[last]];
      KindCounts(facts[..last]);
      assert facts[last] in facts;
    }
  }

  lemma DisputeCounted(adjs: seq<Adjustment>, p: nat)
    ensures HasDispute(adjs, p) <==> exists a :: a in Of(adjs, p) && a.kind == Dispute
  {
    forall a ensures a in Of(adjs, p) <==> a in adjs && a.payment == p {
      OfIsSelection(adjs, p, a);
    }
    if HasDispute(adjs, p) {
      var i :| 0 <= i < |adjs| && adjs[i].payment == p && adjs[i].kind == Dispute;
      assert adjs[i] in Of(adjs, p);
    }
  }

  // -- the writers satisfy the auditor --

  /** The four conditions on ledger and balance, with exactly one grant if and only if paid. */
  ghost predicate LedgerIntegrity(e: Economy, p: nat)
    requires p < |e.payments|
  {
    && GrantExact(e, p)
    && 0 <= Reversed(e, p) <= e.payments[p].credits
    && e.payments[p].bot < |e.books.balances| && BalanceShown(e, p)
    && Grants(e, p) == (if e.payments[p].status == Paid then 1 else 0)
  }

  /** In every reachable state, whatever the provider reported, the auditor answers and four of its conditions hold. */
  lemma EveryLedgerReconciles(ops: seq<Op>, p: nat)
    requires p < |Run(EMPTY, ops).payments|
    ensures var e := Run(EMPTY, ops); LedgerIntegrity(e, p) && Fits(Granted(e, p)) && Fits(0 - Reversed(e, p))
  {
    EveryRunIsSound(ops);
    var e := Run(EMPTY, ops);
    assert PaymentExplained(e, p);
    LatestRowShowsBalance(e.books, e.payments[p].bot);
  }

  // -- the basis, exactly --

  /**
   The upsert does not compare payment ids: a fact whose object is on file for another payment
   overwrites that row's amount paid. It breaks that payment's basis exactly when the row is
   raised to a different amount and the payment has a second row to disagree with.
   */
  predicate Collides(adjs: seq<Adjustment>, fact: Adjustment) {
    var at := FindObject(adjs, fact);
    && at.Some? && adjs[at.value].payment != fact.payment
    && Raises(adjs[at.value], fact) && adjs[at.value].amountPaid != fact.amountPaid
    && exists j :: 0 <= j < |adjs| && j != at.value && adjs[j].payment == adjs[at.value].payment
  }

  lemma ForeignUpdate(adjs: seq<Adjustment>, i: nat, row: Adjustment)
    requires i < |adjs| && BasisConsistent(adjs)
    requires row.payment == adjs[i].payment && row.transaction == adjs[i].transaction && row.amountPaid != adjs[i].amountPaid
    ensures BasisConsistent(adjs[i := row]) <==> !exists j :: 0 <= j < |adjs| && j != i && adjs[j].payment == adjs[i].payment
  {
    var after := adjs[i := row];
    if j :| 0 <= j < |adjs| && j != i && adjs[j].payment == adjs[i].payment {
      assert after[j] == adjs[j] && after[i] == row;
    }
  }

  /** Exactly when an accepted fact leaves every payment with one basis, for any fact whatsoever. */
  lemma BasisKeptExactly(e: Economy, fact: Adjustment)
    requires BasisConsistent(e.adjustments) && RecordPaymentAdjustment(e, fact).Ok?
    ensures BasisConsistent(RecordPaymentAdjustment(e, fact).value.adjustments) <==> !Collides(e.adjustments, fact)
  {
    var adjs := InsertPaymentAdjustment(e.adjustments, fact).value;
    assert RecordPaymentAdjustment(e, fact).value.adjustments == adjs;
    var at := FindObject(e.adjustments, fact);
    if at.Some? && e.adjustments[at.value].payment != fact.payment && Raises(e.adjustments[at.value], fact)
       && e.adjustments[at.value].amountPaid != fact.amountPaid {
      ForeignUpdate(e.adjustments, at.value, adjs[at.value]);
    } else if at.None? || e.adjustments[at.value].payment == fact.payment {
      assert HasFact(adjs, fact.payment) by {
        var i := if at.Some? then at.value else |e.adjustments|;
        assert adjs[i].payment == fact.payment;
      }
      BasisStaysConsistent(e.adjustments, adjs, fact.payment, fact.transaction, fact.amountPaid);
    } else {
      SameBasis(e.adjustments, adjs);
    }
  }

  lemma SameBasis(adjs: seq<Adjustment>, adjs': seq<Adjustment>)
    requires BasisConsistent(adjs) && |adjs'| == |adjs|
    requires forall i :: 0 <= i < |adjs| ==>
               && adjs'[i].payment == adjs[i].payment && adjs'[i].transaction == adjs[i].transaction
               && adjs'[i].amountPaid == adjs[i].amountPaid
    ensures BasisConsistent(adjs')
  {
  }

  /** An accepted fact of the run collides with what was on file when it arrived. */
  ghost predicate CollidesAt(e: Economy, op: Op) {
    op.PaymentStep? && op.payment.Adjust? && Step(e, op).Ok? && Collides(e.adjustments, op.payment.fact)
  }

  lemma BasisStep(e: Economy, op: Op)
    requires BasisConsistent(e.adjustments)
    ensures BasisConsistent(Commit(e, op).adjustments) <==> !CollidesAt(e, op)
  {
    if Step(e, op).Ok? {
      if op.PaymentStep? && op.payment.Adjust? {
        BasisKeptExactly(e, op.payment.fact);
      } else {
        StepKeepsPaid(e, op);
      }
    }
  }

  /** No accepted fact of the run collided when it arrived. */
  ghost predicate CollisionFree(ops: seq<Op>) {
    ops == [] || (CollisionFree(ops[..|ops| - 1]) && !CollidesAt(Run(EMPTY, ops[..|ops| - 1]), ops[|ops| - 1]))
  }

  /** After every transaction of the run each payment has one basis. */
  ghost predicate AlwaysConsistent(ops: seq<Op>) {
    BasisConsistent(Run(EMPTY, ops).adjustments) && (ops == [] || AlwaysConsistent(ops[..|ops| - 1]))
  }

  /** Over any run, the basis condition holds throughout if and only if no accepted fact collides. */
  lemma {:induction false} BasisHoldsExactly(ops: seq<Op>)
    ensures AlwaysConsistent(ops) <==> CollisionFree(ops)
  {
    if ops != [] {
      var init := ops[..|ops| - 1];
      BasisHoldsExactly(init);
      if AlwaysConsistent(init) {
        BasisStep(Run(EMPTY, init), ops[|ops| - 1]);
      }
    }
  }

  /** Without collisions all five conditions hold in every reachable state, for every payment. */
  lemma EveryRunReconciles(ops: seq<Op>, p: nat)
    requires CollisionFree(ops) && p < |Run(EMPTY, ops).payments|
    ensures var e := Run(EMPTY, ops);
            LedgerIntegrity(e, p) && OneBasisFor(e.adjustments, p) && Fits(Granted(e, p)) && Fits(0 - Reversed(e, p))
  {
    EveryLedgerReconciles(ops, p);
    BasisHoldsExactly(ops);
  }

  /** When every object names one payment, nothing collides. */
  lemma {:induction false} HonestNeverCollides(ops: seq<Op>, owner: Ownership)
    requires forall i :: 0 <= i < |ops| ==> Honest(ops[i], owner)
    ensures CollisionFree(ops)
  {
    if ops != [] {
      var init, last := ops[..|ops| - 1], ops[|ops| - 1];
      HonestNeverCollides(init, owner);
      HonestRunsKeepFacts(init, owner);
      if last.PaymentStep? && last.payment.Adjust? {
        HonestMeetsItsOwn(Run(EMPTY, init), owner, last.payment.fact);
      }
    }
  }

  lemma HonestMeetsItsOwn(e: Economy, owner: Ownership, fact: Adjustment)
    requires FactsOk(e, owner) && Honours(fact, owner)
    ensures !Collides(e.adjustments, fact)
  {
  }

  // -- a collision, from an empty database --

  const ORDER: Op := PaymentStep(CreatePending(0, "creem", None, 100, "USD", 1))
  const FIRST := Adjustment(0, "creem", "e1", "o1", AdjustmentKind.Refund, "t1", 100, Some(10))
  const SECOND := Adjustment(0, "creem", "e2", "o2", AdjustmentKind.Refund, "t1", 100, Some(10))
  const STRAY := Adjustment(1, "creem", "e3", "o1", AdjustmentKind.Refund, "t2", 200, Some(20))

  const TWO_ORDERS: seq<Op> := [Register] + [ORDER] + [ORDER]
  const TWO_PAID: seq<Op> := TWO_ORDERS + [PaymentStep(Complete(0))] + [PaymentStep(Complete(1))]
  const TWO_REFUNDS: seq<Op> := TWO_PAID + [PaymentStep(Adjust(FIRST))] + [PaymentStep(Adjust(SECOND))]

  const PENDING_ORDER := Payment(0, "creem", None, 100, "USD", 1, Pending)
  const PAID_ORDER := Payment(0, "creem", None, 100, "USD", 1, Paid)

  lemma SomeoneRegisters()
    ensures var e := Run(EMPTY, [Register]);
            e.books.balances == [66] && e.payments == [] && e.adjustments == []
  {
    var none: seq<Op> := [];
    assert none + [Register] == [Register];
    RunSplits(EMPTY, none, Register);
    assert EMPTY.books.(balances := EMPTY.books.balances + [0]) == Books([0], []);
    PostAppends(Books([0], []), 0, OtherKind("grant_signup"), SIGNUP_GRANT, NoRef, true);
  }

  lemma OrderIsPlaced(e: Economy)
    requires |e.books.balances| == 1
    ensures Commit(e, ORDER) == e.(payments := e.payments + [PENDING_ORDER])
  {
    assert ValidProvider("creem") && ValidCurrency("USD");
  }

  lemma OrdersArePlaced()
    ensures var e := Run(EMPTY, TWO_ORDERS);
            e.books.balances == [66] && e.payments == [PENDING_ORDER, PENDING_ORDER] && e.adjustments == []
  {
    SomeoneRegisters();
    OrderIsPlaced(Run(EMPTY, [Register]));
    RunSplits(EMPTY, [Register], ORDER);
    OrderIsPlaced(Run(EMPTY, [Register] + [ORDER]));
    RunSplits(EMPTY, [Register] + [ORDER], ORDER);
  }

  lemma OrdersArePaid()
    ensures var e := Run(EMPTY, TWO_PAID);
            |e.books.balances| == 1 && e.payments == [PAID_ORDER, PAID_ORDER] && e.adjustments == []
  {
    OrdersArePlaced();
    var placed := Run(EMPTY, TWO_ORDERS);
    RunSplits(EMPTY, TWO_ORDERS, PaymentStep(Complete(0)));
    PostAppends(placed.books, 0, GrantPayment, 1, PaymentRef(0), true);
    var half := Run(EMPTY, TWO_ORDERS + [PaymentStep(Complete(0))]);
    assert half.payments == [PAID_ORDER, PENDING_ORDER];
    RunSplits(EMPTY, TWO_ORDERS + [PaymentStep(Complete(0))], PaymentStep(Complete(1)));
    PostAppends(half.books, 0, GrantPayment, 1, PaymentRef(1), true);
  }

  /** What a fact needs so that the refund it reports is too small to reverse a whole credit. */
  predicate SmallRefund(adjs: seq<Adjustment>, fact: Adjustment) {
    InsertPaymentAdjustment(adjs, fact).Ok? &&
    var after := InsertPaymentAdjustment(adjs, fact).value;
    HasFact(after, fact.payment) ==>
      && OneBasis(after, fact.payment, fact.transaction, fact.amountPaid)
      && fact.amountPaid > 0 && MaxRefunded(after, fact.payment) < fact.amountPaid && !HasDispute(after, fact.payment)
  }

  lemma NothingToReverse(e: Economy, p: nat, amountPaid: int64)
    requires p < |e.payments| && e.payments[p] == PAID_ORDER && PaymentExplained(e, p) && amountPaid > 0
    requires MaxRefunded(e.adjustments, p) < amountPaid && !HasDispute(e.adjustments, p)
    ensures AdvanceReversal(e, p, amountPaid).Ok?
  {
    AdvanceFailsExactly(e, p, amountPaid);
    FloorUnique(1 * MaxRefunded(e.adjustments, p), amountPaid, 0);
  }

  lemma SmallRefundIsStored(e: Economy, fact: Adjustment)
    requires fact.payment < |e.payments| && e.payments[fact.payment] == PAID_ORDER && PaymentExplained(e, fact.payment)
    requires SmallRefund(e.adjustments, fact)
    ensures RecordPaymentAdjustment(e, fact).Ok?
  {
    var stored := e.(adjustments := InsertPaymentAdjustment(e.adjustments, fact).value);
    assert PaymentExplained(stored, fact.payment);
    if HasFact(stored.adjustments, fact.payment) {
      NothingToReverse(stored, fact.payment, fact.amountPaid);
    }
  }

  lemma SmallRefundCommits(e: Economy, fact: Adjustment)
    requires fact.payment < |e.payments| && e.payments[fact.payment] == PAID_ORDER && PaymentExplained(e, fact.payment)
    requires SmallRefund(e.adjustments, fact)
    ensures Step(e, PaymentStep(Adjust(fact))).Ok?
    ensures Commit(e, PaymentStep(Adjust(fact))).payments == e.payments
    ensures Commit(e, PaymentStep(Adjust(fact))).adjustments == InsertPaymentAdjustment(e.adjustments, fact).value
  {
    SmallRefundIsStored(e, fact);
    AdjustStepKeeps(e, fact);
  }

  lemma RunsExplain(ops: seq<Op>, p: nat)
    requires p < |Run(EMPTY, ops).payments|
    ensures PaymentExplained(Run(EMPTY, ops), p)
  {
    EveryRunIsSound(ops);
  }

  lemma BothReportTen()
    ensures MaxRefunded([FIRST], 0) == 10 && MaxRefunded([FIRST] + [SECOND], 0) == 10
  {
    var none: seq<Adjustment> := [];
    assert [FIRST][..0] == none;
    assert MaxRefunded(none, 0) == 0;
    var both := [FIRST] + [SECOND];
    assert both[..|both| - 1] == [FIRST] && both[|both| - 1] == SECOND;
  }

  lemma FirstIsFiled()
    ensures var e := Run(EMPTY, TWO_PAID + [PaymentStep(Adjust(FIRST))]);
            e.adjustments == [FIRST] && e.payments == [PAID_ORDER, PAID_ORDER]
  {
    OrdersArePaid();
    RunsExplain(TWO_PAID, 0);
    var none: seq<Adjustment> := [];
    assert none + [FIRST] == [FIRST];
    assert [FIRST][..0] == none;
    assert InsertPaymentAdjustment(none, FIRST) == Ok([FIRST]);
    BothReportTen();
    SmallRefundCommits(Run(EMPTY, TWO_PAID), FIRST);
    RunSplits(EMPTY, TWO_PAID, PaymentStep(Adjust(FIRST)));
  }

  lemma RefundsAreFiled()
    ensures Run(EMPTY, TWO_REFUNDS).adjustments == [FIRST, SECOND]
    ensures Run(EMPTY, TWO_REFUNDS).payments == [PAID_ORDER, PAID_ORDER]
  {
    FirstIsFiled();
    var ops := TWO_PAID + [PaymentStep(Adjust(FIRST))];
    RunsExplain(ops, 0);
    var both := [FIRST] + [SECOND];
    assert both[..1] == [FIRST] && both[1] == SECOND && [FIRST][..0] == [];
    assert FindObject([FIRST], SECOND) == None;
    assert InsertPaymentAdjustment([FIRST], SECOND) == Ok(both);
    BothReportTen();
    SmallRefundCommits(Run(EMPTY, ops), SECOND);
    RunSplits(EMPTY, ops, PaymentStep(Adjust(SECOND)));
  }

  /** A fact for the second order that names the first order's object leaves the first with two bases. */
  lemma CollisionBreaksTheBasis()
    ensures var e := Run(EMPTY, TWO_REFUNDS + [PaymentStep(Adjust(STRAY))]);
            CollidesAt(Run(EMPTY, TWO_REFUNDS), PaymentStep(Adjust(STRAY))) && !OneBasisFor(e.adjustments, 0)
  {
    RefundsAreFiled();
    RunsExplain(TWO_REFUNDS, 1);
    var adjs := [FIRST, SECOND];
    assert adjs[..1] == [FIRST] && adjs[..1][0] == FIRST;
    assert FindObject([FIRST], STRAY) == Some(0);
    assert FindObject(adjs, STRAY) == Some(0);
    var after := InsertPaymentAdjustment(adjs, STRAY).value;
    assert after[0].amountPaid == 200 && after[1] == SECOND && |after| == 2;
    assert !HasFact(after, 1);
    SmallRefundCommits(Run(EMPTY, TWO_REFUNDS), STRAY);
    RunSplits(EMPTY, TWO_REFUNDS, PaymentStep(Adjust(STRAY)));
    assert adjs[1].payment == adjs[0].payment;
  }

  // -- a replayed event --

  const REPLAY := FIRST.(objectId := "other")

  /**
   An event already recorded, delivered again under another object: the whole step fails,
   where the statement's error path reports it as processed.
   */
  lemma ReplayUnderAnotherObjectFails()
    ensures EventSeen(Run(EMPTY, TWO_REFUNDS).adjustments, REPLAY)
    ensures RecordPaymentAdjustment(Run(EMPTY, TWO_REFUNDS), REPLAY) == Err(TransactionAborted)
  {
    RefundsAreFiled();
    var adjs := Run(EMPTY, TWO_REFUNDS).adjustments;
    assert adjs[0] == FIRST;
    assert FindObject(adjs, REPLAY).None?;
  }
}
