/** What every redemption transaction keeps. */
module RewardLaws {
  import opened Int64
  import opened Credits
  import opened Schema
  import opened Rewards
  import opened Rows

  predicate RefundedStatus(s: RedemptionStatus) {
    s in {Declined, Cancelled}
  }

  /** All ledger movement of one order. */
  function OrderRows(r: nat): Row -> int {
    (x: Row) => if x.ref == RedemptionRef(r) then x.amount else 0
  }

  function DebitRows(r: nat): Row -> int {
    (x: Row) => if x.ref == RedemptionRef(r) && x.kind == SpendRedemption then 1 else 0
  }

  function RefundRows(r: nat): Row -> int {
    (x: Row) => if x.ref == RedemptionRef(r) && x.kind == RefundRedemption then 1 else 0
  }

  /** Debited once for its cost; refunded once if and only if rejected or cancelled. */
  predicate OrderExplained(e: Economy, r: nat)
    requires r < |e.redemptions|
  {
    var row := e.redemptions[r];
    && row.bot < |e.books.balances| && row.cost > 0
    && Sum(e.books.ledger, OrderRows(r)) == (if RefundedStatus(row.status) then 0 else 0 - row.cost)
    && Sum(e.books.ledger, DebitRows(r)) == 1
    && Sum(e.books.ledger, RefundRows(r)) == (if RefundedStatus(row.status) then 1 else 0)
  }

  predicate RedemptionRefExists(x: Row, redemptions: nat) {
    x.ref.RedemptionRef? ==> x.ref.redemption < redemptions
  }

  ghost predicate RequestsUnique(redemptions: seq<Redemption>) {
    forall i, j :: 0 <= i < j < |redemptions| ==>
                     redemptions[i].bot != redemptions[j].bot || redemptions[i].requestKey != redemptions[j].requestKey
  }

  ghost predicate RewardInvariant(e: Economy) {
    && RequestsUnique(e.redemptions)
    && (forall i :: 0 <= i < |e.books.ledger| ==> RedemptionRefExists(e.books.ledger[i], |e.redemptions|))
    && (forall r: nat :: r < |e.redemptions| ==> OrderExplained(e, r))
  }

  lemma OtherRowsLeaveOrders(e: Economy, row: Row, e': Economy)
    requires RewardInvariant(e) && !row.ref.RedemptionRef?
    requires e'.books.ledger == e.books.ledger + [row] && |e'.books.balances| >= |e.books.balances|
    requires e'.redemptions == e.redemptions
    ensures RewardInvariant(e')
  {
    forall r: nat | r < |e'.redemptions| ensures OrderExplained(e', r) {
      assert OrderExplained(e, r);
      OrderSums(e.books.ledger, row, r);
    }
  }

  lemma OrderSums(ledger: seq<Row>, row: Row, r: nat)
    ensures Sum(ledger + [row], OrderRows(r)) == Sum(ledger, OrderRows(r)) + OrderRows(r)(row)
    ensures Sum(ledger + [row], DebitRows(r)) == Sum(ledger, DebitRows(r)) + DebitRows(r)(row)
    ensures Sum(ledger + [row], RefundRows(r)) == Sum(ledger, RefundRows(r)) + RefundRows(r)(row)
  {
    SumAppend(ledger, row, OrderRows(r));
    SumAppend(ledger, row, DebitRows(r));
    SumAppend(ledger, row, RefundRows(r));
  }

  lemma RedeemKeepsOrders(e: Economy, bot: nat, k: nat, key: string)
    requires RewardInvariant(e) && Redeem(e, bot, k, key).Ok?
    ensures RewardInvariant(Redeem(e, bot, k, key).value)
  {
    if FindRequest(e.redemptions, bot, key).None? {
      var n := |e.redemptions|;
      PostAppends(e.books, bot, SpendRedemption, -e.products[k].price, RedemptionRef(n), false);
      var e' := Redeem(e, bot, k, key).value;
      var row := e'.books.ledger[|e.books.ledger|];
      SumZero(e.books.ledger, OrderRows(n));
      SumZero(e.books.ledger, DebitRows(n));
      SumZero(e.books.ledger, RefundRows(n));
      forall r: nat | r < |e'.redemptions| ensures OrderExplained(e', r) {
        assert r < n ==> OrderExplained(e, r);
        OrderSums(e.books.ledger, row, r);
      }
    }
  }

  lemma TransitionKeepsOrders(e: Economy, r: nat, note: string, target: RedemptionStatus)
    requires RewardInvariant(e) && target in {Approved, Fulfilled} && LockTransition(e, r, note, target).Ok?
    ensures RewardInvariant(LockTransition(e, r, note, target).value)
  {
    var e' := LockTransition(e, r, note, target).value;
    forall q: nat | q < |e'.redemptions| ensures OrderExplained(e', q) {
      assert OrderExplained(e, q);
    }
  }

  lemma RefundKeepsOrders(e: Economy, r: nat, note: string, target: RedemptionStatus)
    requires RewardInvariant(e) && target in {Declined, Cancelled} && RefundTransition(e, r, note, target).Ok?
    ensures RewardInvariant(RefundTransition(e, r, note, target).value)
  {
    var was := e.redemptions[r];
    if was.status != target {
      PostAppends(e.books, was.bot, RefundRedemption, was.cost, RedemptionRef(r), was.cost >= 0);
      var e' := RefundTransition(e, r, note, target).value;
      var row := e'.books.ledger[|e.books.ledger|];
      forall q: nat | q < |e'.redemptions| ensures OrderExplained(e', q) {
        assert OrderExplained(e, q);
        OrderSums(e.books.ledger, row, q);
      }
    }
  }

  /** The facts an order froze when it was created. */
  function Snapshot(r: Redemption): (nat, nat, string, int64, string) {
    (r.bot, r.product, r.title, r.cost, r.requestKey)
  }
}
