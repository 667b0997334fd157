/**
 Top-up payments: a pending order becomes paid once and grants its credits once; refund and
 dispute facts reported by the provider take granted credits back, cumulatively.
 */
module Payments {
  import opened Int64
  import opened Results
  import opened Credits
  import opened Schema
  import opened Reversal

  // -- orders --

  predicate ValidProvider(s: string) {
    1 <= |s| <= 32 && forall c :: c in s ==> ('a' <= c <= 'z') || ('0' <= c <= '9') || c == '_'
  }

  predicate ValidCurrency(s: string) {
    |s| == 3 && forall c :: c in s ==> 'A' <= c <= 'Z'
  }

  predicate OrderTaken(payments: seq<Payment>, provider: string, order: string, except: nat) {
    exists i :: 0 <= i < |payments| && i != except && payments[i].provider == provider && payments[i].order == Some(order)
  }

  function CreatePendingPayment(e: Economy, bot: nat, provider: string, order: Option<string>,
                                amountMinor: int64, currency: string, credits: int64): Result<Economy>
  {
    var _ :- Need(ValidProvider(provider) && ValidCurrency(currency), ValidationFailed);
    var _ :- Need(amountMinor > 0 && credits > 0, ValidationFailed);
    var _ :- Need(order.Some? ==> 1 <= |order.value| <= 64, ValidationFailed);
    var _ :- Need(bot < |e.books.balances|, BotNotFound);
    var _ :- Need(order.Some? ==> !OrderTaken(e.payments, provider, order.value, |e.payments|), Conflict);
    Ok(e.(payments := e.payments + [Payment(bot, provider, order, amountMinor, currency, credits, Pending)]))
  }

  /** The first binding sticks; binding the same order again is a success without effect. */
  function BindProviderOrder(e: Economy, provider: string, p: nat, order: string): Result<Economy> {
    var _ :- Need(!OrderTaken(e.payments, provider, order, p), Conflict);
    var _ :- Need(p < |e.payments|, NotFound);
    var pay := e.payments[p];
    var _ :- Need(pay.provider == provider, Conflict);
    match pay.order
    case Some(bound) => if bound == order then Ok(e) else Err(Conflict)
    case None => Ok(e.(payments := e.payments[p := pay.(order := Some(order))]))
  }

  /** Grants the credits and marks the order paid, or does nothing when it already is. */
  function CompletePayment(e: Economy, p: nat): Result<Economy> {
    var _ :- Need(p < |e.payments|, NotFound);
    var pay := e.payments[p];
    if pay.status == Paid then Ok(e)
    else
      var _ :- Need(pay.status == Pending, InvalidState);
      var books :- Record(e.books, pay.bot, GrantPayment, pay.credits, PaymentRef(p));
      Ok(e.(books := books, payments := e.payments[p := pay.(status := Paid)]))
  }

  /** Failing or cancelling applies to pending orders only; others are left alone. */
  function TerminatePayment(e: Economy, p: nat, status: PaymentStatus): Result<Economy>
    requires status in {PaymentFailed, PaymentCancelled}
  {
    if p < |e.payments| && e.payments[p].status == Pending
    then Ok(e.(payments := e.payments[p := e.payments[p].(status := status)]))
    else Ok(e)
  }

  // -- adjustment facts --

  predicate SameObject(a: Adjustment, b: Adjustment) {
    a.provider == b.provider && a.kind == b.kind && a.objectId == b.objectId
  }

  function FindObject(adjs: seq<Adjustment>, fact: Adjustment): (found: Option<nat>)
    ensures found.Some? ==> found.value < |adjs| && SameObject(adjs[found.value], fact)
    ensures found.None? ==> forall i :: 0 <= i < |adjs| ==> !SameObject(adjs[i], fact)
  {
    if adjs == [] then None
    else if SameObject(adjs[|adjs| - 1], fact) then Some(|adjs| - 1)
    else FindObject(adjs[..|adjs| - 1], fact)
  }

  predicate EventSeen(adjs: seq<Adjustment>, fact: Adjustment) {
    exists i :: 0 <= i < |adjs| && adjs[i].provider == fact.provider && adjs[i].event == fact.event
  }

  /**
   What the table takes in: sane amounts, and an event id that is new, or that the row of its
   own object makes irrelevant.
   */
  predicate Storable(adjs: seq<Adjustment>, fact: Adjustment) {
    && fact.amountPaid > 0 && fact.refunded.GetOr(0) >= 0
    && (EventSeen(adjs, fact) ==> exists i :: 0 <= i < |adjs| && SameObject(adjs[i], fact))
  }

  /** The conflict clause only ever raises a row's cumulative refund. */
  predicate Raises(row: Adjustment, fact: Adjustment) {
    && fact.refunded.Some?
    && (row.refunded.None? || fact.refunded.value >= row.refunded.value)
  }

  /** Insert-or-update on (provider, kind, object). */
  function Upsert(adjs: seq<Adjustment>, fact: Adjustment): seq<Adjustment> {
    match FindObject(adjs, fact)
    case Some(i) =>
      if Raises(adjs[i], fact) then adjs[i := adjs[i].(refunded := fact.refunded, amountPaid := fact.amountPaid)] else adjs
    case None => adjs + [fact]
  }

  /**
   The upsert as a statement. An event id already stored under another object violates its
   unique index and aborts the whole transaction.
   */
  function InsertPaymentAdjustment(adjs: seq<Adjustment>, fact: Adjustment): Result<seq<Adjustment>> {
    var _ :- Need(fact.amountPaid > 0 && (fact.refunded.Some? ==> fact.refunded.value >= 0), ValidationFailed);
    var _ :- Need(FindObject(adjs, fact).Some? || !EventSeen(adjs, fact), TransactionAborted);
    Ok(Upsert(adjs, fact))
  }

  predicate HasFact(adjs: seq<Adjustment>, p: nat) {
    exists i :: 0 <= i < |adjs| && adjs[i].payment == p
  }

  predicate HasDispute(adjs: seq<Adjustment>, p: nat) {
    exists i :: 0 <= i < |adjs| && adjs[i].payment == p && adjs[i].kind == Dispute
  }

  /** Every persisted fact of the payment speaks of this provider transaction and amount paid. */
  predicate OneBasis(adjs: seq<Adjustment>, p: nat, transaction: string, amountPaid: int) {
    forall i :: 0 <= i < |adjs| && adjs[i].payment == p ==>
                  adjs[i].transaction == transaction && adjs[i].amountPaid == amountPaid
  }

  /** The largest cumulative refund among the payment's facts, 0 when none reports one. */
  function MaxRefunded(adjs: seq<Adjustment>, p: nat): (m: int64)
    ensures m >= 0
  {
    if adjs == [] then 0
    else
      var rest := MaxRefunded(adjs[..|adjs| - 1], p);
      var last := adjs[|adjs| - 1];
      if last.payment == p && last.refunded.GetOr(0) > rest then last.refunded.value else rest
  }

  function ReversalTargetOf(adjs: seq<Adjustment>, p: nat, credits: int64, amountPaid: int64): Result<int64> {
    if HasDispute(adjs, p) then Ok(credits) else ReversalTarget(credits, MaxRefunded(adjs, p), amountPaid)
  }

  /** Writes the reversal that is still missing; a target already reached writes nothing. */
  function AdvanceReversal(e: Economy, p: nat, amountPaid: int64): Result<Economy>
    requires p < |e.payments|
  {
    var pay := e.payments[p];
    var _ :- Need(0 < amountPaid && MaxRefunded(e.adjustments, p) <= amountPaid, ReconciliationFailed);
    var target :- ReversalTargetOf(e.adjustments, p, pay.credits, amountPaid);
    var sum :- SumAmountByTypeRef(e.books, pay.bot, ReversePayment, PaymentRef(p));
    var already: int := 0 - sum;
    var _ :- Need(0 <= already <= pay.credits, ReconciliationFailed);
    var delta: int := target - already;
    if delta <= 0 then Ok(e)
    else
      var books :- RecordAuthoritativeReversal(e.books, pay.bot, ReversePayment, -delta, PaymentRef(p));
      Ok(e.(books := books))
  }

  /** Persists one fact and advances the payment's reversal to its target, in one transaction. */
  function RecordPaymentAdjustment(e: Economy, fact: Adjustment): Result<Economy> {
    var p := fact.payment;
    var _ :- Need(p < |e.payments|, NotFound);
    var _ :- Need(e.payments[p].status == Paid, NotPaid);
    var adjs :- InsertPaymentAdjustment(e.adjustments, fact);
    if !HasFact(adjs, p) then Ok(e.(adjustments := adjs))
    else
      var _ :- Need(OneBasis(adjs, p, fact.transaction, fact.amountPaid), ReconciliationFailed);
      AdvanceReversal(e.(adjustments := adjs), p, fact.amountPaid)
  }

  // -- webhook facts --

  /** The provider's authoritative transaction record. */
  datatype ProviderTransaction = ProviderTransaction(
    id: string, order: string, amount: int64, currency: string,
    amountPaid: Option<int64>, refunded: Option<int64>, status: string)

  predicate Reconciles(txn: ProviderTransaction, pay: Payment) {
    && txn.id != "" && txn.order != ""
    && pay.order == Some(txn.order)
    && txn.amount == pay.amountMinor
    && txn.currency == pay.currency
    && txn.amountPaid.Some? && txn.amountPaid.value > 0
  }

  /** A succeeded refund whose nominal amount the cumulative refund covers, within what was paid. */
  function BuildRefundFact(p: nat, pay: Payment, event: string, createdAt: int, objectId: string, status: string,
                           amount: int64, txn: ProviderTransaction): Result<Adjustment>
  {
    var _ :- Need(Reconciles(txn, pay) && txn.refunded.Some?, ReconciliationFailed);
    var _ :- Need(objectId != "" && status == "succeeded" && amount > 0 && createdAt > 0, ReconciliationFailed);
    var _ :- Need(amount <= txn.refunded.value <= txn.amountPaid.value, ReconciliationFailed);
    Ok(Adjustment(p, "creem", event, objectId, Refund, txn.id, txn.amountPaid.value, txn.refunded))
  }

  /** A dispute keeps the reported refund as it is, absent or not. */
  function BuildDisputeFact(p: nat, pay: Payment, event: string, createdAt: int, objectId: string,
                            amount: int64, txn: ProviderTransaction): Result<Adjustment>
  {
    var _ :- Need(Reconciles(txn, pay), ReconciliationFailed);
    var _ :- Need(objectId != "" && amount > 0 && txn.status != "" && createdAt > 0, ReconciliationFailed);
    var _ :- Need(txn.refunded.Some? ==> 0 <= txn.refunded.value <= txn.amountPaid.value, ReconciliationFailed);
    Ok(Adjustment(p, "creem", event, objectId, Dispute, txn.id, txn.amountPaid.value, txn.refunded))
  }
}
