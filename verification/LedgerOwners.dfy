/** Whose rows the ledger holds: every row names the one account its business concerns, for its amount. */
module LedgerOwners {
  import opened Int64
  import opened Results
  import opened Credits
  import opened Schema
  import opened TaskKernel
  import opened TaskStore
  import opened TaskLaws
  import opened Payments
  import opened PaymentLaws
  import opened Rewards
  import opened RewardLaws
  import opened EconomyRuns
  import opened EconomyHistory
  import P = PublisherAnswers
  import X = ExecutorAnswers
  import M = PaymentAnswers
  import R = RewardAnswers

  /**
   Escrow moves between a task and its publisher, a payout goes to the agent that submitted, a
   grant and its reversals concern the payer, a redemption its buyer; amounts are those agreed.
   */
  predicate Owned(e: Economy, row: Row) {
    match row.kind
    case TaskLock => row.ref.TaskRef? && row.ref.task < |e.tasks| && row.bot == e.tasks[row.ref.task].publisher && row.amount < 0
    case TaskFund => row.ref.TaskRef? && row.ref.task < |e.tasks| && row.bot == e.tasks[row.ref.task].publisher && row.amount < 0
    case TaskRefund => row.ref.TaskRef? && row.ref.task < |e.tasks| && row.bot == e.tasks[row.ref.task].publisher && row.amount > 0
    case TaskEarn =>
      && row.ref.SubmissionRef? && row.ref.submission < |e.submissions|
      && var sub := e.submissions[row.ref.submission];
         row.bot == sub.agent && row.amount == sub.amount && sub.state == Settled
    case GrantPayment =>
      && row.ref.PaymentRef? && row.ref.payment < |e.payments|
      && var pay := e.payments[row.ref.payment];
         row.bot == pay.bot && row.amount == pay.credits && pay.status == Paid
    case ReversePayment =>
      && row.ref.PaymentRef? && row.ref.payment < |e.payments|
      && var pay := e.payments[row.ref.payment];
         row.bot == pay.bot && row.amount < 0 && pay.status == Paid
    case SpendRedemption =>
      && row.ref.RedemptionRef? && row.ref.redemption < |e.redemptions|
      && var order := e.redemptions[row.ref.redemption];
         row.bot == order.bot && row.amount == 0 - order.cost
    case RefundRedemption =>
      && row.ref.RedemptionRef? && row.ref.redemption < |e.redemptions|
      && var order := e.redemptions[row.ref.redemption];
         row.bot == order.bot && row.amount == order.cost && (order.status == Declined || order.status == Cancelled)
    case OtherKind(_) => row.ref == NoRef
  }

  ghost predicate AllOwned(e: Economy) {
    forall i :: 0 <= i < |e.books.ledger| ==> Owned(e, e.books.ledger[i])
  }

  /** The columns an owner is read from never change. */
  lemma OwnedStays(e: Economy, e': Economy, row: Row)
    requires Owned(e, row) && Extends(e, e')
    ensures Owned(e', row)
  {
    match row.ref
    case NoRef =>
    case TaskRef(t) => assert t < |e.tasks| ==> TaskKept(e.tasks[t], e'.tasks[t]);
    case SubmissionRef(s) => assert s < |e.submissions| ==> SubmissionKept(e.submissions[s], e'.submissions[s]);
    case PaymentRef(p) => assert p < |e.payments| ==> PaymentKept(e.payments[p], e'.payments[p]);
    case RedemptionRef(r) => assert r < |e.redemptions| ==> OrderKept(e.redemptions[r], e'.redemptions[r]);
  }

  /** At most one row is new, and it has its owner. */
  ghost predicate NewRowOwned(e: Economy, e': Economy) {
    || e'.books.ledger == e.books.ledger
    || (&& |e'.books.ledger| == |e.books.ledger| + 1 && e'.books.ledger[..|e.books.ledger|] == e.books.ledger
        && Owned(e', e'.books.ledger[|e.books.ledger|]))
  }

  // -- the new row of each transaction --

  lemma PublisherRow(e: Economy, op: TaskOp)
    requires (op.Create? || op.Fund? || op.Refund?) && StepTask(e, op).Ok?
    ensures NewRowOwned(e, StepTask(e, op).value)
  {
    match op
    case Create(publisher, contract, budget) => P.CreateExactly(e, publisher, contract, budget);
    case Fund(publisher, t, amount) => P.FundExactly(e, publisher, t, amount);
    case Refund(publisher, t) => P.RefundExactly(e, publisher, t);
  }

  lemma OutcomeRow(e: Economy, s: nat, pre: SubmissionState, event: SubmissionEvent, at: int)
    requires TaskInvariant(e) && WriteDeliveryOutcome(e, s, pre, event, at).Ok?
    ensures NewRowOwned(e, WriteDeliveryOutcome(e, s, pre, event, at).value)
  {
    if e.submissions[s].state == pre && !(event == Timeout && pre == Uncertain) {
      X.OutcomeWrites(e, s, pre, event, at);
    }
  }

  lemma TaskRow(e: Economy, op: TaskOp)
    requires TaskInvariant(e) && StepTask(e, op).Ok?
    ensures NewRowOwned(e, StepTask(e, op).value)
  {
    match op
    case Claiming(agent, t, now) => ClaimMovesNoBooks(e, agent, t, now);
    case Submitting(agent, t, key, payload, hash, c, now) => SubmitMovesNoBooks(e, agent, t, key, payload, hash, c, now);
    case Outcome(s, pre, event, at) => OutcomeRow(e, s, pre, event, at);
    case _ =>
      if op.Create? || op.Fund? || op.Refund? {
        PublisherRow(e, op);
      } else {
        QuietRow(e, op);
      }
  }

  lemma QuietRow(e: Economy, op: TaskOp)
    requires (op.Update? || op.Status? || op.Renewing? || op.Releasing? || op.Expiring?) && StepTask(e, op).Ok?
    ensures NewRowOwned(e, StepTask(e, op).value)
  {
  }

  lemma AdjustRow(e: Economy, fact: Adjustment)
    requires RecordPaymentAdjustment(e, fact).Ok?
    ensures NewRowOwned(e, RecordPaymentAdjustment(e, fact).value)
  {
    var e' := RecordPaymentAdjustment(e, fact).value;
    if HasFact(InsertPaymentAdjustment(e.adjustments, fact).value, fact.payment) {
      AdjustEffect(e, fact);
      var p := fact.payment;
      var delta := ReversalTargetOf(e'.adjustments, p, e.payments[p].credits, fact.amountPaid).value - Reversed(e, p);
      if delta > 0 {
        PostAppends(e.books, e.payments[p].bot, ReversePayment, 0 - delta, PaymentRef(p), true);
      }
    }
  }

  lemma PaymentRow(e: Economy, op: PaymentOp)
    requires PaymentsExplained(e) && StepPayment(e, op).Ok?
    ensures NewRowOwned(e, StepPayment(e, op).value)
  {
    match op
    case Complete(p) =>
      assert PaymentExplained(e, p);
      M.CompleteExactly(e, p);
    case Adjust(fact) => AdjustRow(e, fact);
    case _ =>
  }

  lemma RedeemRow(e: Economy, bot: nat, k: nat, key: string)
    requires Redeem(e, bot, k, key).Ok?
    ensures NewRowOwned(e, Redeem(e, bot, k, key).value)
  {
    if !R.KeyUsed(e, bot, key) {
      R.RedeemCharges(e, bot, k, key);
    }
  }

  lemma RewardRow(e: Economy, op: RewardOp)
    requires RewardInvariant(e) && StepReward(e, op).Ok?
    ensures NewRowOwned(e, StepReward(e, op).value)
  {
    match op
    case Ordering(bot, k, key) => RedeemRow(e, bot, k, key);
    case Reject(r, note) =>
      assert OrderExplained(e, r);
      R.RefundExactly(e, r, note, Declined);
    case CancelOrder(r) =>
      assert OrderExplained(e, r);
      R.RefundExactly(e, r, "", Cancelled);
    case _ =>
  }

  lemma StepRow(e: Economy, op: Op)
    requires Accounted(e) && Step(e, op).Ok?
    ensures NewRowOwned(e, Step(e, op).value)
  {
    match op
    case TaskStep(t) => TaskRow(e, t);
    case PaymentStep(p) => PaymentRow(e, p);
    case RewardStep(r) => RewardRow(e, r);
    case Register => M.RegisterGrants(e);
    case Charge(bot, name, amount) => M.ChargeExactly(e, bot, name, amount);
    case MemoryStep(m) =>
  }

  lemma StepKeepsOwners(e: Economy, e': Economy)
    requires AllOwned(e) && Extends(e, e') && NewRowOwned(e, e')
    ensures AllOwned(e')
  {
    forall i | 0 <= i < |e'.books.ledger| ensures Owned(e', e'.books.ledger[i]) {
      if i < |e.books.ledger| {
        assert e'.books.ledger[i] == e.books.ledger[i];
        OwnedStays(e, e', e.books.ledger[i]);
      }
    }
  }

  /** Over every run, each row of the ledger belongs to whom its business concerns, for the amount agreed. */
  lemma {:induction false} EveryRowIsOwned(ops: seq<Op>)
    ensures AllOwned(Run(EMPTY, ops))
  {
    if ops != [] {
      var init, op := ops[..|ops| - 1], ops[|ops| - 1];
      var e := Run(EMPTY, init);
      EveryRowIsOwned(init);
      EveryRunIsSound(init);
      if Step(e, op).Ok? {
        StepRow(e, op);
        StepExtends(e, op);
        StepKeepsOwners(e, Commit(e, op));
      }
    }
  }
}
