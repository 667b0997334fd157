/** What every payment transaction keeps, and what a history of refund facts adds up to. */
module PaymentLaws {
  import opened Int64
  import opened Results
  import opened Credits
  import opened Schema
  import opened Reversal
  import opened Payments
  import opened Rows

  function Granted(e: Economy, p: nat): int
    requires p < |e.payments|
  {
    Sum(e.books.ledger, Selected(e.payments[p].bot, GrantPayment, PaymentRef(p)))
  }

  function Grants(e: Economy, p: nat): int
    requires p < |e.payments|
  {
    Sum(e.books.ledger, SelectedCount(e.payments[p].bot, GrantPayment, PaymentRef(p)))
  }

  /** Credits taken back so far. */
  function Reversed(e: Economy, p: nat): int
    requires p < |e.payments|
  {
    0 - Sum(e.books.ledger, Selected(e.payments[p].bot, ReversePayment, PaymentRef(p)))
  }

  /** One grant of exactly the credits if and only if paid; never more reversed than granted. */
  predicate PaymentExplained(e: Economy, p: nat)
    requires p < |e.payments|
  {
    var pay := e.payments[p];
    && pay.bot < |e.books.balances| && pay.credits > 0
    && Granted(e, p) == (if pay.status == Paid then pay.credits else 0)
    && Grants(e, p) == (if pay.status == Paid then 1 else 0)
    && 0 <= Reversed(e, p) <= (if pay.status == Paid then pay.credits else 0)
  }

  predicate PaymentRefExists(r: Row, payments: nat) {
    r.ref.PaymentRef? ==> r.ref.payment < payments
  }

  predicate AdjustmentOk(a: Adjustment, payments: seq<Payment>) {
    && a.payment < |payments| && payments[a.payment].status == Paid
    && a.amountPaid > 0 && a.refunded.GetOr(0) >= 0
  }

  /** The facts of one payment never span two provider transactions or two amounts paid. */
  ghost predicate BasisConsistent(adjs: seq<Adjustment>) {
    forall i, j :: 0 <= i < |adjs| && 0 <= j < |adjs| && adjs[i].payment == adjs[j].payment ==>
                     adjs[i].transaction == adjs[j].transaction && adjs[i].amountPaid == adjs[j].amountPaid
  }

  ghost predicate ObjectsUnique(adjs: seq<Adjustment>) {
    forall i, j :: 0 <= i < j < |adjs| ==> !SameObject(adjs[i], adjs[j])
  }

  /** Which payment a provider object speaks of. */
  type Ownership = (string, AdjustmentKind, string) -> nat

  predicate Honours(a: Adjustment, owner: Ownership) {
    a.payment == owner(a.provider, a.kind, a.objectId)
  }

  ghost predicate FactsOk(e: Economy, owner: Ownership) {
    && (forall i :: 0 <= i < |e.adjustments| ==> AdjustmentOk(e.adjustments[i], e.payments) && Honours(e.adjustments[i], owner))
    && BasisConsistent(e.adjustments)
    && ObjectsUnique(e.adjustments)
  }

  /** Grants and reversals of every payment, whatever objects its facts name. */
  ghost predicate PaymentsExplained(e: Economy) {
    && (forall i :: 0 <= i < |e.books.ledger| ==> PaymentRefExists(e.books.ledger[i], |e.payments|))
    && (forall p: nat :: p < |e.payments| ==> PaymentExplained(e, p))
  }

  // -- orders --

  /** A row for another kind of business leaves every payment explained. */
  lemma OtherRowsAreForeign(e: Economy, row: Row, e': Economy)
    requires forall p: nat :: p < |e.payments| ==> PaymentExplained(e, p)
    requires forall i :: 0 <= i < |e.books.ledger| ==> PaymentRefExists(e.books.ledger[i], |e.payments|)
    requires row.kind != GrantPayment && row.kind != ReversePayment && !row.ref.PaymentRef?
    requires e'.books.ledger == e.books.ledger + [row] && |e'.books.balances| >= |e.books.balances|
    requires e'.payments == e.payments
    ensures forall p: nat :: p < |e'.payments| ==> PaymentExplained(e', p)
    ensures forall i :: 0 <= i < |e'.books.ledger| ==> PaymentRefExists(e'.books.ledger[i], |e'.payments|)
  {
    forall p: nat | p < |e'.payments| ensures PaymentExplained(e', p) {
      assert PaymentExplained(e, p);
      var bot := e.payments[p].bot;
      SumAppend(e.books.ledger, row, Selected(bot, GrantPayment, PaymentRef(p)));
      SumAppend(e.books.ledger, row, SelectedCount(bot, GrantPayment, PaymentRef(p)));
      SumAppend(e.books.ledger, row, Selected(bot, ReversePayment, PaymentRef(p)));
    }
  }

  lemma CreateKeepsPayments(e: Economy, bot: nat, provider: string, order: Option<string>,
                            amountMinor: int64, currency: string, credits: int64)
    requires PaymentsExplained(e)
    requires CreatePendingPayment(e, bot, provider, order, amountMinor, currency, credits).Ok?
    ensures PaymentsExplained(CreatePendingPayment(e, bot, provider, order, amountMinor, currency, credits).value)
  {
    var e' := CreatePendingPayment(e, bot, provider, order, amountMinor, currency, credits).value;
    var n := |e.payments|;
    SumZero(e.books.ledger, Selected(bot, GrantPayment, PaymentRef(n)));
    SumZero(e.books.ledger, SelectedCount(bot, GrantPayment, PaymentRef(n)));
    SumZero(e.books.ledger, Selected(bot, ReversePayment, PaymentRef(n)));
    forall p: nat | p < |e'.payments| ensures PaymentExplained(e', p) {
      assert p < n ==> PaymentExplained(e, p);
    }
  }

  lemma BindKeepsPayments(e: Economy, provider: string, p: nat, order: string)
    requires PaymentsExplained(e) && BindProviderOrder(e, provider, p, order).Ok?
    ensures PaymentsExplained(BindProviderOrder(e, provider, p, order).value)
  {
    var e' := BindProviderOrder(e, provider, p, order).value;
    forall q: nat | q < |e'.payments| ensures PaymentExplained(e', q) {
      assert PaymentExplained(e, q);
    }
  }

  lemma TerminateKeepsPayments(e: Economy, p: nat, status: PaymentStatus)
    requires PaymentsExplained(e) && status in {PaymentFailed, PaymentCancelled}
    ensures PaymentsExplained(TerminatePayment(e, p, status).value)
  {
    var e' := TerminatePayment(e, p, status).value;
    forall q: nat | q < |e'.payments| ensures PaymentExplained(e', q) {
      assert PaymentExplained(e, q);
    }
  }

  lemma CompleteKeepsPayments(e: Economy, p: nat)
    requires PaymentsExplained(e) && CompletePayment(e, p).Ok?
    ensures PaymentsExplained(CompletePayment(e, p).value)
    ensures CompletePayment(e, p).value.payments[p].status == Paid && Grants(CompletePayment(e, p).value, p) == 1
  {
    var pay := e.payments[p];
    assert PaymentExplained(e, p);
    if pay.status != Paid {
      PostAppends(e.books, pay.bot, GrantPayment, pay.credits, PaymentRef(p), pay.credits >= 0);
      var e' := CompletePayment(e, p).value;
      forall q: nat | q < |e'.payments| ensures PaymentExplained(e', q) {
        GrantRow(e, p, e', q);
      }
      assert PaymentExplained(e', p);
    }
  }

  /** The grant row of one payment, seen from any payment. */
  lemma GrantRow(e: Economy, p: nat, e': Economy, q: nat)
    requires p < |e.payments| && q < |e.payments| && PaymentExplained(e, q) && e.payments[p].status == Pending
    requires e'.payments == e.payments[p := e.payments[p].(status := Paid)]
    requires |e'.books.ledger| == |e.books.ledger| + 1 && |e'.books.balances| == |e.books.balances|
    requires e'.books.ledger == e.books.ledger + [e'.books.ledger[|e.books.ledger|]]
    requires var row := e'.books.ledger[|e.books.ledger|];
             && row.bot == e.payments[p].bot && row.kind == GrantPayment
             && row.amount == e.payments[p].credits && row.ref == PaymentRef(p)
    ensures PaymentExplained(e', q)
  {
    var row := e'.books.ledger[|e.books.ledger|];
    var bot := e.payments[q].bot;
    SumAppend(e.books.ledger, row, Selected(bot, GrantPayment, PaymentRef(q)));
    SumAppend(e.books.ledger, row, SelectedCount(bot, GrantPayment, PaymentRef(q)));
    SumAppend(e.books.ledger, row, Selected(bot, ReversePayment, PaymentRef(q)));
  }

  /** A payment that was paid stays paid. */
  ghost predicate PaidStays(payments: seq<Payment>, payments': seq<Payment>) {
    |payments| <= |payments'| && forall p :: 0 <= p < |payments| && payments[p].status == Paid ==> payments'[p].status == Paid
  }

  lemma OrdersKeepFacts(e: Economy, e': Economy, owner: Ownership)
    requires FactsOk(e, owner) && e'.adjustments == e.adjustments && PaidStays(e.payments, e'.payments)
    ensures FactsOk(e', owner)
  {
  }

  // -- adjustments --

  /** The upsert touches the payment's own facts only, and leaves it with at least one. */
  lemma UpsertStaysHome(e: Economy, owner: Ownership, fact: Adjustment)
    requires FactsOk(e, owner) && Honours(fact, owner)
    requires InsertPaymentAdjustment(e.adjustments, fact).Ok?
    ensures var adjs := InsertPaymentAdjustment(e.adjustments, fact).value;
            && |adjs| >= |e.adjustments| && HasFact(adjs, fact.payment) && ObjectsUnique(adjs)
            && (forall i :: 0 <= i < |e.adjustments| ==>
                  && adjs[i].payment == e.adjustments[i].payment
                  && adjs[i].kind == e.adjustments[i].kind
                  && (adjs[i] == e.adjustments[i] || adjs[i].payment == fact.payment))
            && (forall i :: 0 <= i < |adjs| ==>
                  && Honours(adjs[i], owner)
                  && (i < |e.adjustments| || adjs[i].payment == fact.payment)
                  && (adjs[i].amountPaid > 0 && adjs[i].refunded.GetOr(0) >= 0))
  {
    var adjs := InsertPaymentAdjustment(e.adjustments, fact).value;
    match FindObject(e.adjustments, fact)
    case Some(i) => assert adjs[i].payment == fact.payment;
    case None => assert adjs[|e.adjustments|].payment == fact.payment;
  }

  /** One row per provider, kind and object. */
  lemma UpsertKeepsUnique(adjs: seq<Adjustment>, fact: Adjustment)
    requires ObjectsUnique(adjs) && InsertPaymentAdjustment(adjs, fact).Ok?
    ensures ObjectsUnique(InsertPaymentAdjustment(adjs, fact).value)
  {
  }

  function Max(a: int, b: int): int {
    if a >= b then a else b
  }

  /** What one more row adds to the facts read so far. */
  lemma OneFactMore(adjs: seq<Adjustment>, a: Adjustment, p: nat)
    ensures HasFact(adjs + [a], p) <==> HasFact(adjs, p) || a.payment == p
    ensures HasDispute(adjs + [a], p) <==> HasDispute(adjs, p) || (a.payment == p && a.kind == Dispute)
    ensures MaxRefunded(adjs + [a], p) == if a.payment == p then Max(MaxRefunded(adjs, p), a.refunded.GetOr(0)) else MaxRefunded(adjs, p)
    ensures forall transaction, paid: int :: OneBasis(adjs + [a], p, transaction, paid) <==>
              OneBasis(adjs, p, transaction, paid) && (a.payment == p ==> a.transaction == transaction && a.amountPaid == paid)
  {
    var more := adjs + [a];
    assert more[..|adjs|] == adjs && more[|adjs|] == a;
    assert forall i :: 0 <= i < |adjs| ==> more[i] == adjs[i];
  }

  /** The target of the persisted facts is defined, and inside the grant. */
  lemma TargetWithinGrant(adjs: seq<Adjustment>, p: nat, credits: int64, amountPaid: int64)
    requires credits > 0 && amountPaid > 0 && MaxRefunded(adjs, p) <= amountPaid
    ensures ReversalTargetOf(adjs, p, credits, amountPaid).Ok?
    ensures var target := ReversalTargetOf(adjs, p, credits, amountPaid).value;
            && 0 <= target <= credits
            && (HasDispute(adjs, p) ==> target == credits)
            && (!HasDispute(adjs, p) ==> target == Share(credits, MaxRefunded(adjs, p), amountPaid))
  {
    TargetIsExactFloor(credits, MaxRefunded(adjs, p), amountPaid);
  }

  /** What a successful advance did, read off its guards. */
  lemma AdvanceEffect(e: Economy, p: nat, amountPaid: int64)
    requires p < |e.payments| && AdvanceReversal(e, p, amountPaid).Ok?
    ensures var e' := AdvanceReversal(e, p, amountPaid).value;
            && amountPaid > 0 && MaxRefunded(e.adjustments, p) <= amountPaid
            && ReversalTargetOf(e.adjustments, p, e.payments[p].credits, amountPaid).Ok?
            && (var delta := ReversalTargetOf(e.adjustments, p, e.payments[p].credits, amountPaid).value - Reversed(e, p);
                if delta <= 0 then e' == e
                else
                  && Fits(-delta)
                  && RecordAuthoritativeReversal(e.books, e.payments[p].bot, ReversePayment, -delta, PaymentRef(p)) == Ok(e'.books)
                  && e' == e.(books := e'.books))
  {
  }

  /** What a successful adjustment did, read off its guards. */
  lemma AdjustEffect(e: Economy, fact: Adjustment)
    requires RecordPaymentAdjustment(e, fact).Ok?
    requires HasFact(InsertPaymentAdjustment(e.adjustments, fact).value, fact.payment)
    ensures var p := fact.payment;
            var e' := RecordPaymentAdjustment(e, fact).value;
            && p < |e.payments| && e.payments[p].status == Paid
            && fact.amountPaid > 0 && MaxRefunded(e'.adjustments, p) <= fact.amountPaid
            && InsertPaymentAdjustment(e.adjustments, fact) == Ok(e'.adjustments)
            && OneBasis(e'.adjustments, p, fact.transaction, fact.amountPaid)
            && ReversalTargetOf(e'.adjustments, p, e.payments[p].credits, fact.amountPaid).Ok?
            && (var delta := ReversalTargetOf(e'.adjustments, p, e.payments[p].credits, fact.amountPaid).value - Reversed(e, p);
                if delta <= 0 then e' == e.(adjustments := e'.adjustments)
                else
                  && Fits(-delta)
                  && RecordAuthoritativeReversal(e.books, e.payments[p].bot, ReversePayment, -delta, PaymentRef(p)) == Ok(e'.books)
                  && e' == e.(adjustments := e'.adjustments, books := e'.books))
  {
    AdvanceEffect(e.(adjustments := InsertPaymentAdjustment(e.adjustments, fact).value), fact.payment, fact.amountPaid);
  }

  /** Facts of one payment checked against one basis, the other payments' facts as they were. */
  lemma BasisStaysConsistent(adjs: seq<Adjustment>, adjs': seq<Adjustment>, p: nat, transaction: string, amountPaid: int)
    requires BasisConsistent(adjs) && OneBasis(adjs', p, transaction, amountPaid) && |adjs| <= |adjs'|
    requires forall i :: 0 <= i < |adjs'| && adjs'[i].payment != p ==> i < |adjs| && adjs'[i] == adjs[i]
    ensures BasisConsistent(adjs')
  {
  }

  lemma AdjustKeepsFacts(e: Economy, owner: Ownership, fact: Adjustment)
    requires FactsOk(e, owner) && Honours(fact, owner) && RecordPaymentAdjustment(e, fact).Ok?
    ensures FactsOk(RecordPaymentAdjustment(e, fact).value, owner)
  {
    UpsertStaysHome(e, owner, fact);
    AdjustEffect(e, fact);
    var e' := RecordPaymentAdjustment(e, fact).value;
    BasisStaysConsistent(e.adjustments, e'.adjustments, fact.payment, fact.transaction, fact.amountPaid);
    forall i | 0 <= i < |e'.adjustments|
      ensures AdjustmentOk(e'.adjustments[i], e'.payments) && Honours(e'.adjustments[i], owner)
    {
    }
  }

  /**
   A fact that leaves its payment with facts raises the reversed total to the larger of what it
   was and the target of the facts now persisted; nothing else moves any payment's total.
   */
  lemma AdjustReachesTarget(e: Economy, fact: Adjustment)
    requires PaymentsExplained(e) && RecordPaymentAdjustment(e, fact).Ok?
    ensures var e' := RecordPaymentAdjustment(e, fact).value;
            var p := fact.payment;
            && e'.payments == e.payments && p < |e.payments| && PaymentsExplained(e')
            && (HasFact(e'.adjustments, p) ==>
                  && ReversalTargetOf(e'.adjustments, p, e.payments[p].credits, fact.amountPaid).Ok?
                  && Reversed(e', p)
                     == Max(Reversed(e, p), ReversalTargetOf(e'.adjustments, p, e.payments[p].credits, fact.amountPaid).value))
            && (!HasFact(e'.adjustments, p) ==> Reversed(e', p) == Reversed(e, p))
            && (forall q: nat :: q < |e.payments| && q != p ==> Reversed(e', q) == Reversed(e, q))
  {
    var e' := RecordPaymentAdjustment(e, fact).value;
    if HasFact(InsertPaymentAdjustment(e.adjustments, fact).value, fact.payment) {
      AdjustReaches(e, fact);
      AdjustEffect(e, fact);
    } else {
      assert e' == e.(adjustments := InsertPaymentAdjustment(e.adjustments, fact).value);
      forall q: nat | q < |e'.payments| ensures PaymentExplained(e', q) {
        assert PaymentExplained(e, q);
      }
    }
  }

  lemma AdjustReaches(e: Economy, fact: Adjustment)
    requires PaymentsExplained(e) && RecordPaymentAdjustment(e, fact).Ok?
    requires HasFact(InsertPaymentAdjustment(e.adjustments, fact).value, fact.payment)
    ensures var e' := RecordPaymentAdjustment(e, fact).value;
            var p := fact.payment;
            && e'.payments == e.payments && p < |e.payments|
            && ReversalTargetOf(e'.adjustments, p, e.payments[p].credits, fact.amountPaid).Ok?
            && Reversed(e', p) == Max(Reversed(e, p), ReversalTargetOf(e'.adjustments, p, e.payments[p].credits, fact.amountPaid).value)
            && PaymentsExplained(e')
            && (forall q: nat :: q < |e.payments| && q != p ==> Reversed(e', q) == Reversed(e, q))
  {
    AdjustEffect(e, fact);
    var e' := RecordPaymentAdjustment(e, fact).value;
    var p := fact.payment;
    var pay := e.payments[p];
    assert PaymentExplained(e, p);
    TargetWithinGrant(e'.adjustments, p, pay.credits, fact.amountPaid);
    var delta := ReversalTargetOf(e'.adjustments, p, pay.credits, fact.amountPaid).value - Reversed(e, p);
    if delta > 0 {
      PostAppends(e.books, pay.bot, ReversePayment, -delta, PaymentRef(p), true);
      ReversalRow(e, p, -delta, e');
    } else {
      forall q: nat | q < |e'.payments| ensures PaymentExplained(e', q) {
        assert PaymentExplained(e, q);
      }
    }
  }

  /** What the payment's facts call for. */
  function Due(adjs: seq<Adjustment>, p: nat, credits: nat, amountPaid: int): int
    requires amountPaid > 0
  {
    if HasDispute(adjs, p) then credits else Share(credits, MaxRefunded(adjs, p), amountPaid)
  }

  /**
   Exactly when a stored fact also advances the reversal: the facts share its basis, no more
   was refunded than paid, and the account can take the missing amount. The checks of the
   ledger sum never fire.
   */
  lemma AdvanceFailsExactly(e: Economy, p: nat, amountPaid: int64)
    requires p < |e.payments| && PaymentExplained(e, p) && e.payments[p].status == Paid && amountPaid > 0
    ensures AdvanceReversal(e, p, amountPaid).Ok? <==>
              && MaxRefunded(e.adjustments, p) <= amountPaid
              && (var delta := Due(e.adjustments, p, e.payments[p].credits, amountPaid) - Reversed(e, p);
                  delta > 0 ==> Fits(e.books.balances[e.payments[p].bot] - delta))
  {
    var pay := e.payments[p];
    if MaxRefunded(e.adjustments, p) <= amountPaid {
      TargetWithinGrant(e.adjustments, p, pay.credits, amountPaid);
      var delta := Due(e.adjustments, p, pay.credits, amountPaid) - Reversed(e, p);
      if delta > 0 {
        PostAppends(e.books, pay.bot, ReversePayment, 0 - delta, PaymentRef(p), true);
      }
    }
  }

  /** Exactly which facts the table takes in. */
  lemma StoredExactly(adjs: seq<Adjustment>, fact: Adjustment)
    ensures InsertPaymentAdjustment(adjs, fact).Ok? <==> Storable(adjs, fact)
  {
  }

  /** What the payment still owes once these facts are on file can be taken back. */
  predicate Payable(e: Economy, adjs: seq<Adjustment>, p: nat, amountPaid: int) {
    && p < |e.payments| && amountPaid > 0
    && var pay := e.payments[p];
       && pay.credits > 0 && pay.bot < |e.books.balances|
       && var delta := Due(adjs, p, pay.credits, amountPaid) - Reversed(e, p);
          delta > 0 ==> Fits(e.books.balances[pay.bot] - delta)
  }

  /** Exactly when a fact is accepted, whatever object it names. */
  lemma AdjustAcceptsExactly(e: Economy, fact: Adjustment)
    requires PaymentsExplained(e)
    ensures RecordPaymentAdjustment(e, fact).Ok? <==>
              var p := fact.payment;
              && p < |e.payments| && e.payments[p].status == Paid
              && Storable(e.adjustments, fact)
              && (var adjs := InsertPaymentAdjustment(e.adjustments, fact).value;
                  HasFact(adjs, p) ==>
                    && OneBasis(adjs, p, fact.transaction, fact.amountPaid)
                    && MaxRefunded(adjs, p) <= fact.amountPaid
                    && Payable(e, adjs, p, fact.amountPaid))
  {
    var p := fact.payment;
    StoredExactly(e.adjustments, fact);
    if p < |e.payments| && e.payments[p].status == Paid && Storable(e.adjustments, fact) {
      assert PaymentExplained(e, p);
      var stored := e.(adjustments := InsertPaymentAdjustment(e.adjustments, fact).value);
      assert PaymentExplained(stored, p);
      AdvanceFailsExactly(stored, p, fact.amountPaid);
    }
  }

  // -- redelivery --

  lemma {:induction false} StillFound(adjs: seq<Adjustment>, fact: Adjustment, row: Adjustment)
    requires FindObject(adjs, fact).Some? && SameObject(row, fact)
    ensures FindObject(adjs[FindObject(adjs, fact).value := row], fact) == FindObject(adjs, fact)
  {
    var last := |adjs| - 1;
    if !SameObject(adjs[last], fact) {
      var i := FindObject(adjs, fact).value;
      assert adjs[i := row][..last] == adjs[..last][i := row];
      StillFound(adjs[..last], fact, row);
    }
  }

  lemma StoredTwice(adjs: seq<Adjustment>, fact: Adjustment)
    requires InsertPaymentAdjustment(adjs, fact).Ok?
    ensures var after := InsertPaymentAdjustment(adjs, fact).value;
            InsertPaymentAdjustment(after, fact) == Ok(after)
  {
    match FindObject(adjs, fact)
    case None =>
      assert FindObject(adjs + [fact], fact) == Some(|adjs|);
      assert (adjs + [fact])[|adjs| := fact] == adjs + [fact];
    case Some(i) =>
      var row := adjs[i].(refunded := fact.refunded, amountPaid := fact.amountPaid);
      StillFound(adjs, fact, row);
      assert adjs[i := row][i := row] == adjs[i := row];
  }

  lemma NothingMissing(e: Economy, p: nat, amountPaid: int64)
    requires p < |e.payments| && PaymentExplained(e, p) && amountPaid > 0 && MaxRefunded(e.adjustments, p) <= amountPaid
    requires ReversalTargetOf(e.adjustments, p, e.payments[p].credits, amountPaid).Ok?
    requires Reversed(e, p) >= ReversalTargetOf(e.adjustments, p, e.payments[p].credits, amountPaid).value
    ensures AdvanceReversal(e, p, amountPaid) == Ok(e)
  {
  }

  /** A fact that was accepted is accepted again, as often as it is delivered, and changes nothing. */
  lemma RedeliveryChangesNothing(e: Economy, fact: Adjustment)
    requires PaymentsExplained(e) && RecordPaymentAdjustment(e, fact).Ok?
    ensures var e' := RecordPaymentAdjustment(e, fact).value;
            RecordPaymentAdjustment(e', fact) == Ok(e')
  {
    var e' := RecordPaymentAdjustment(e, fact).value;
    var p := fact.payment;
    AdjustReachesTarget(e, fact);
    StoredTwice(e.adjustments, fact);
    assert PaymentExplained(e', p);
    if HasFact(InsertPaymentAdjustment(e.adjustments, fact).value, p) {
      AdjustEffect(e, fact);
      NothingMissing(e', p, fact.amountPaid);
    }
  }

  /** One reversal row moves exactly one payment's reversed total. */
  lemma ReversalRow(e: Economy, p: nat, amount: int64, e': Economy)
    requires forall q: nat :: q < |e.payments| ==> PaymentExplained(e, q)
    requires p < |e.payments| && e.payments[p].status == Paid
    requires amount < 0 && Reversed(e, p) - amount <= e.payments[p].credits
    requires |e'.books.ledger| == |e.books.ledger| + 1
    requires e'.books.ledger == e.books.ledger + [e'.books.ledger[|e.books.ledger|]]
    requires var row := e'.books.ledger[|e.books.ledger|];
             row.bot == e.payments[p].bot && row.kind == ReversePayment && row.amount == amount && row.ref == PaymentRef(p)
    requires e'.payments == e.payments && |e'.books.balances| == |e.books.balances|
    ensures forall q: nat :: q < |e'.payments| ==> PaymentExplained(e', q)
    ensures forall q: nat :: q < |e.payments| ==> Reversed(e', q) == Reversed(e, q) - (if q == p then amount else 0)
  {
    var row := e'.books.ledger[|e.books.ledger|];
    forall q: nat | q < |e'.payments|
      ensures PaymentExplained(e', q) && Reversed(e', q) == Reversed(e, q) - (if q == p then amount else 0)
    {
      assert PaymentExplained(e, q);
      var bot := e.payments[q].bot;
      SumAppend(e.books.ledger, row, Selected(bot, GrantPayment, PaymentRef(q)));
      SumAppend(e.books.ledger, row, SelectedCount(bot, GrantPayment, PaymentRef(q)));
      SumAppend(e.books.ledger, row, Selected(bot, ReversePayment, PaymentRef(q)));
    }
  }
}
