/**
 The credit ledger: the only writer of account balances. Every operation appends one
 ledger row and moves one balance, or changes nothing.
 */
module Credits {
  import opened Int64
  import opened Results
  import Rows

  datatype Kind =
    | TaskLock | TaskFund | TaskEarn | TaskRefund
    | GrantPayment | ReversePayment
    | SpendRedemption | RefundRedemption
    | OtherKind(name: string)

  /** ref_type and ref_id of a ledger row. */
  datatype Ref =
    | NoRef
    | TaskRef(task: nat)
    | SubmissionRef(submission: nat)
    | PaymentRef(payment: nat)
    | RedemptionRef(redemption: nat)

  datatype Row = Row(bot: nat, kind: Kind, amount: int64, balanceAfter: int64, ref: Ref)

  datatype Books = Books(balances: seq<int64>, ledger: seq<Row>)

  // -- overflow guard --

  /** The machine addition wraps; overflow is read off the sign relation afterwards. */
  function CheckAdd(a: int64, b: int64): Result<int64> {
    var s := Wrap(a + b);
    if (b > 0 && s < a) || (b < 0 && s > a) then Err(CreditOverflow) else Ok(s)
  }

  /** The sign test on the wrapped sum refuses exactly the sums outside int64. */
  lemma CheckAddIsExact(a: int64, b: int64)
    ensures CheckAdd(a, b) == if Fits(a + b) then Ok(a + b) else Err(CreditOverflow)
  {
    if a + b > MAX {
      assert (a + b - MIN) % MODULUS == a + b - MIN - MODULUS;
    } else if a + b < MIN {
      assert (a + b - MIN) % MODULUS == a + b - MIN + MODULUS;
    }
  }

  // -- recording --

  function Post(b: Books, bot: nat, kind: Kind, amount: int64, ref: Ref, allowNegative: bool): Result<Books> {
    if bot >= |b.balances| then Err(BotNotFound)
    else
      match CheckAdd(b.balances[bot], amount)
      case Err(e) => Err(e)
      case Ok(balance) =>
        if balance < 0 && !allowNegative then Err(InsufficientCredits)
        else Ok(Books(b.balances[bot := balance], b.ledger + [Row(bot, kind, amount, balance, ref)]))
  }

  function Record(b: Books, bot: nat, kind: Kind, amount: int64, ref: Ref): Result<Books> {
    Post(b, bot, kind, amount, ref, amount >= 0)
  }

  function RecordAuthoritativeReversal(b: Books, bot: nat, kind: Kind, amount: int64, ref: Ref): Result<Books> {
    if amount >= 0 then Err(NotAReversal) else Post(b, bot, kind, amount, ref, true)
  }

  // -- ledger reads --

  /** Weight of the rows SumAmountByTypeRef selects. */
  function Selected(bot: nat, kind: Kind, ref: Ref): Row -> int {
    (r: Row) => if r.bot == bot && r.kind == kind && r.ref == ref then r.amount else 0
  }

  function SelectedCount(bot: nat, kind: Kind, ref: Ref): Row -> int {
    (r: Row) => if r.bot == bot && r.kind == kind && r.ref == ref then 1 else 0
  }

  function OfBot(bot: nat): Row -> int {
    (r: Row) => if r.bot == bot then r.amount else 0
  }

  /** SUM(amount) by type and reference; a total outside int64 fails the read. */
  function SumAmountByTypeRef(b: Books, bot: nat, kind: Kind, ref: Ref): Result<int64> {
    var total := Rows.Sum(b.ledger, Selected(bot, kind, ref));
    if Fits(total) then Ok(total) else Err(CreditOverflow)
  }

  /** balance_after of the account's newest ledger row. */
  function LatestBalanceAfter(ledger: seq<Row>, bot: nat): Option<int64> {
    if ledger == [] then None
    else
      var last := ledger[|ledger| - 1];
      if last.bot == bot then Some(last.balanceAfter) else LatestBalanceAfter(ledger[..|ledger| - 1], bot)
  }

  // -- the books always balance --

  predicate BalanceIsTotal(b: Books, k: nat)
    requires k < |b.balances|
  {
    b.balances[k] == Rows.Sum(b.ledger, OfBot(k))
  }

  predicate RunningTotalAt(b: Books, i: nat)
    requires i < |b.ledger|
  {
    && b.ledger[i].bot < |b.balances|
    && b.ledger[i].balanceAfter == Rows.Sum(b.ledger[..i + 1], OfBot(b.ledger[i].bot))
  }

  /** Every balance is the sum of its account's rows, and every row carries the running sum. */
  ghost predicate Balanced(b: Books) {
    && (forall k: nat :: k < |b.balances| ==> BalanceIsTotal(b, k))
    && (forall i: nat :: i < |b.ledger| ==> RunningTotalAt(b, i))
  }

  lemma PostKeepsBooks(b: Books, bot: nat, kind: Kind, amount: int64, ref: Ref, allowNegative: bool)
    requires Balanced(b)
    requires Post(b, bot, kind, amount, ref, allowNegative).Ok?
    ensures Balanced(Post(b, bot, kind, amount, ref, allowNegative).value)
  {
    PostAppends(b, bot, kind, amount, ref, allowNegative);
    var after := Post(b, bot, kind, amount, ref, allowNegative).value;
    var row := after.ledger[|b.ledger|];
    forall k: nat | k < |after.balances| ensures BalanceIsTotal(after, k) {
      assert BalanceIsTotal(b, k);
      Rows.SumAppend(b.ledger, row, OfBot(k));
    }
    forall i: nat | i < |after.ledger| ensures RunningTotalAt(after, i) {
      if i < |b.ledger| {
        assert RunningTotalAt(b, i);
        assert after.ledger[..i + 1] == b.ledger[..i + 1];
      } else {
        assert after.ledger[..i + 1] == after.ledger;
        assert BalanceIsTotal(after, bot);
      }
    }
  }

  /** The account's newest row always shows its current balance. */
  lemma LatestRowShowsBalance(b: Books, bot: nat)
    requires Balanced(b) && bot < |b.balances|
    ensures match LatestBalanceAfter(b.ledger, bot)
            case Some(shown) => shown == b.balances[bot]
            case None => b.balances[bot] == 0
  {
    LatestOfPrefix(b, bot, |b.ledger|);
    assert b.ledger[..|b.ledger|] == b.ledger;
    assert BalanceIsTotal(b, bot);
  }

  lemma {:induction false} LatestOfPrefix(b: Books, bot: nat, n: nat)
    requires Balanced(b) && n <= |b.ledger|
    ensures match LatestBalanceAfter(b.ledger[..n], bot)
            case Some(shown) => shown == Rows.Sum(b.ledger[..n], OfBot(bot))
            case None => Rows.Sum(b.ledger[..n], OfBot(bot)) == 0
  {
    if n > 0 {
      assert b.ledger[..n][..n - 1] == b.ledger[..n - 1];
      assert RunningTotalAt(b, n - 1);
      LatestOfPrefix(b, bot, n - 1);
    }
  }

  /** An account that has a row has a newest row. */
  lemma {:induction false} RowMeansLatest(ledger: seq<Row>, bot: nat, i: nat)
    requires i < |ledger| && ledger[i].bot == bot
    ensures LatestBalanceAfter(ledger, bot).Some?
  {
    var last := |ledger| - 1;
    if ledger[last].bot != bot {
      RowMeansLatest(ledger[..last], bot, i);
    }
  }

  /** A successful post appends exactly this row, and nothing else happens. */
  lemma PostAppends(b: Books, bot: nat, kind: Kind, amount: int64, ref: Ref, allowNegative: bool)
    ensures var r := Post(b, bot, kind, amount, ref, allowNegative);
            r.Ok? <==> (&& bot < |b.balances|
                        && Fits(b.balances[bot] + amount)
                        && (b.balances[bot] + amount >= 0 || allowNegative))
    ensures var r := Post(b, bot, kind, amount, ref, allowNegative);
            r.Ok? ==> && r.value.ledger == b.ledger + [Row(bot, kind, amount, b.balances[bot] + amount, ref)]
                      && r.value.balances == b.balances[bot := b.balances[bot] + amount]
  {
    if bot < |b.balances| {
      CheckAddIsExact(b.balances[bot], amount);
    }
  }

  /** One row of this amount on this account, and its balance moved by it; nothing else. */
  predicate Booked(b: Books, b': Books, bot: nat, kind: Kind, amount: int, ref: Ref) {
    && bot < |b.balances| && Fits(amount) && Fits(b.balances[bot] + amount)
    && b'.balances == b.balances[bot := b.balances[bot] + amount]
    && b'.ledger == b.ledger + [Row(bot, kind, amount, b.balances[bot] + amount, ref)]
  }

  /** Charges never overdraw an account; gains reach any account, however far it is in debt. */
  lemma RecordExactly(b: Books, bot: nat, kind: Kind, amount: int64, ref: Ref)
    ensures Record(b, bot, kind, amount, ref).Ok? <==>
              bot < |b.balances| && Fits(b.balances[bot] + amount) && (amount >= 0 || b.balances[bot] + amount >= 0)
    ensures Record(b, bot, kind, amount, ref).Ok? ==> Booked(b, Record(b, bot, kind, amount, ref).value, bot, kind, amount, ref)
  {
    PostAppends(b, bot, kind, amount, ref, amount >= 0);
  }
}
