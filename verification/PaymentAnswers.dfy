/** What an order, its provider and the account operations are answered, with the whole new state. */
module PaymentAnswers {
  import opened Int64
  import opened Results
  import opened Credits
  import opened Schema
  import opened Payments
  import opened EconomyRuns

  // -- orders --

  /** The provider's order is on file for another payment. */
  predicate TakenElsewhere(e: Economy, provider: string, order: string, p: nat) {
    exists i :: 0 <= i < |e.payments| && i != p && e.payments[i].provider == provider && e.payments[i].order == Some(order)
  }

  predicate ProviderFits(s: string) {
    1 <= |s| <= 32 && forall i :: 0 <= i < |s| ==> 'a' <= s[i] <= 'z' || '0' <= s[i] <= '9' || s[i] == '_'
  }

  predicate CurrencyFits(s: string) {
    |s| == 3 && 'A' <= s[0] <= 'Z' && 'A' <= s[1] <= 'Z' && 'A' <= s[2] <= 'Z'
  }

  lemma NamesExactly(provider: string, currency: string)
    ensures ValidProvider(provider) <==> ProviderFits(provider)
    ensures ValidCurrency(currency) <==> CurrencyFits(currency)
  {
    assert forall i :: 0 <= i < |provider| ==> provider[i] in provider;
    assert forall i :: 0 <= i < |currency| ==> currency[i] in currency;
  }

  /** A new order is pending and grants nothing yet. */
  lemma CreateExactly(e: Economy, bot: nat, provider: string, order: Option<string>, amountMinor: int64, currency: string, credits: int64)
    ensures CreatePendingPayment(e, bot, provider, order, amountMinor, currency, credits).Ok? <==>
              && ProviderFits(provider) && CurrencyFits(currency) && amountMinor > 0 && credits > 0 && bot < |e.books.balances|
              && (order.Some? ==> 1 <= |order.value| <= 64 && !TakenElsewhere(e, provider, order.value, |e.payments|))
    ensures CreatePendingPayment(e, bot, provider, order, amountMinor, currency, credits).Ok? ==>
              CreatePendingPayment(e, bot, provider, order, amountMinor, currency, credits).value
              == e.(payments := e.payments + [Payment(bot, provider, order, amountMinor, currency, credits, Pending)])
  {
    NamesExactly(provider, currency);
  }

  /** An order is bound to the first name its own provider gives it, and to no name another payment has. */
  lemma BindExactly(e: Economy, provider: string, p: nat, order: string)
    ensures BindProviderOrder(e, provider, p, order).Ok? <==>
              && p < |e.payments| && e.payments[p].provider == provider && !TakenElsewhere(e, provider, order, p)
              && (e.payments[p].order == None || e.payments[p].order == Some(order))
    ensures BindProviderOrder(e, provider, p, order).Ok? ==>
              BindProviderOrder(e, provider, p, order).value
              == e.(payments := e.payments[p := e.payments[p].(order := Some(order))])
  {
    if p < |e.payments| && e.payments[p].order == Some(order) {
      assert e.payments[p := e.payments[p].(order := Some(order))] == e.payments;
    }
  }

  /** A pending order is paid with its grant; a paid one stays as it is; a terminated one cannot be paid. */
  lemma CompleteExactly(e: Economy, p: nat)
    requires p < |e.payments| ==> e.payments[p].credits > 0
    ensures CompletePayment(e, p).Ok? <==>
              && p < |e.payments|
              && (|| e.payments[p].status == Paid
                  || (&& e.payments[p].status == Pending && e.payments[p].bot < |e.books.balances|
                      && Fits(e.books.balances[e.payments[p].bot] + e.payments[p].credits)))
    ensures CompletePayment(e, p).Ok? ==>
              var e' := CompletePayment(e, p).value;
              var pay := e.payments[p];
              if pay.status == Paid then e' == e
              else
                && e' == e.(books := e'.books, payments := e.payments[p := pay.(status := Paid)])
                && Booked(e.books, e'.books, pay.bot, GrantPayment, pay.credits, PaymentRef(p))
  {
    if p < |e.payments| {
      RecordExactly(e.books, e.payments[p].bot, GrantPayment, e.payments[p].credits, PaymentRef(p));
    }
  }

  /** Only a pending order is failed or cancelled. */
  lemma TerminateExactly(e: Economy, p: nat, status: PaymentStatus)
    requires status in {PaymentFailed, PaymentCancelled}
    ensures TerminatePayment(e, p, status)
            == if p < |e.payments| && e.payments[p].status == Pending
               then Ok(e.(payments := e.payments[p := e.payments[p].(status := status)])) else Ok(e)
  {
  }

  // -- accounts --

  /** A new account starts with 66 credits; no other account notices. */
  lemma RegisterGrants(e: Economy)
    ensures var n := |e.books.balances|;
            && RegisterBot(e).Ok?
            && var e' := RegisterBot(e).value;
               && e' == e.(books := e'.books) && e'.books.balances == e.books.balances + [66]
               && e'.books.ledger == e.books.ledger + [Row(n, OtherKind("grant_signup"), 66, 66, NoRef)]
  {
    var joined := e.books.(balances := e.books.balances + [0]);
    RecordExactly(joined, |e.books.balances|, OtherKind("grant_signup"), 66, NoRef);
    assert (e.books.balances + [0])[|e.books.balances| := 66] == e.books.balances + [66];
  }

  /** A charge never overdraws. */
  lemma ChargeExactly(e: Economy, bot: nat, name: string, amount: int64)
    ensures ChargeBot(e, bot, name, amount).Ok? <==>
              && bot < |e.books.balances| && Fits(e.books.balances[bot] + amount)
              && (amount >= 0 || e.books.balances[bot] + amount >= 0)
    ensures ChargeBot(e, bot, name, amount).Ok? ==>
              var e' := ChargeBot(e, bot, name, amount).value;
              e' == e.(books := e'.books) && Booked(e.books, e'.books, bot, OtherKind(name), amount, NoRef)
  {
    RecordExactly(e.books, bot, OtherKind(name), amount, NoRef);
  }

  /** A memory starts active at revision 1; only its owner revises it, one revision at a time, until it is withdrawn for good. */
  lemma MemoryExactly(e: Economy, holder: nat, m: nat)
    ensures StepMemory(e, Add(holder))
            == if holder < |e.books.balances| then Ok(e.(memories := e.memories + [Memory(holder, true, 1)])) else Err(BotNotFound)
    ensures var own := m < |e.memories| && e.memories[m].owner == holder && e.memories[m].active;
            && StepMemory(e, Revise(holder, m))
               == (if own then Ok(e.(memories := e.memories[m := Memory(holder, true, e.memories[m].revision + 1)])) else Err(NotFound))
            && StepMemory(e, Withdraw(holder, m))
               == (if own then Ok(e.(memories := e.memories[m := Memory(holder, false, e.memories[m].revision)])) else Err(NotFound))
  {
  }

  // -- webhook facts --

  /** The provider's record is of this order, for this amount in this currency, and something was paid. */
  predicate SpeaksOf(txn: ProviderTransaction, pay: Payment) {
    && txn.id != "" && txn.order != "" && pay.order == Some(txn.order)
    && txn.amount == pay.amountMinor && txn.currency == pay.currency && txn.amountPaid.GetOr(0) > 0
  }

  /** A refund becomes a fact when it succeeded and the cumulative refund covers it, within what was paid. */
  lemma RefundFactExactly(p: nat, pay: Payment, event: string, createdAt: int, objectId: string, status: string,
                          amount: int64, txn: ProviderTransaction)
    ensures var fact := BuildRefundFact(p, pay, event, createdAt, objectId, status, amount, txn);
            && (fact.Ok? <==>
                  && SpeaksOf(txn, pay) && objectId != "" && status == "succeeded" && 0 < amount && 0 < createdAt
                  && txn.refunded.Some? && amount <= txn.refunded.value <= txn.amountPaid.value)
            && (fact.Ok? ==> fact.value == Adjustment(p, "creem", event, objectId, AdjustmentKind.Refund, txn.id, txn.amountPaid.value, txn.refunded))
  {
  }

  /** A dispute becomes a fact whether or not a refund was reported; a reported one must be within what was paid. */
  lemma DisputeFactExactly(p: nat, pay: Payment, event: string, createdAt: int, objectId: string, amount: int64, txn: ProviderTransaction)
    ensures var fact := BuildDisputeFact(p, pay, event, createdAt, objectId, amount, txn);
            && (fact.Ok? <==>
                  && SpeaksOf(txn, pay) && objectId != "" && txn.status != "" && 0 < amount && 0 < createdAt
                  && (txn.refunded == None || 0 <= txn.refunded.value <= txn.amountPaid.value))
            && (fact.Ok? ==> fact.value == Adjustment(p, "creem", event, objectId, Dispute, txn.id, txn.amountPaid.value, txn.refunded))
  {
  }
}
