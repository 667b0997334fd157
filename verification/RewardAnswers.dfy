/** What a redemption request is answered, read off the tables alone, with the whole new state. */
module RewardAnswers {
  import opened Int64
  import opened Results
  import opened Credits
  import opened Schema
  import opened Rewards

  // -- redeeming --

  /** The bot has used this request key before. */
  predicate KeyUsed(e: Economy, bot: nat, key: string) {
    exists r :: 0 <= r < |e.redemptions| && e.redemptions[r].bot == bot && e.redemptions[r].requestKey == key
  }

  /** 1 to 64 letters, digits, underscores and hyphens. */
  predicate KeyFits(key: string) {
    && 1 <= |key| <= 64
    && forall i :: 0 <= i < |key| ==>
         'a' <= key[i] <= 'z' || 'A' <= key[i] <= 'Z' || '0' <= key[i] <= '9' || key[i] in {'_', '-'}
  }

  lemma KeysExactly(key: string)
    ensures ValidRequestKey(key) <==> KeyFits(key)
  {
    if KeyFits(key) {
      forall c | c in key ensures ('A' <= c <= 'Z') || ('a' <= c <= 'z') || ('0' <= c <= '9') || c == '_' || c == '-' {
        var i :| 0 <= i < |key| && key[i] == c;
      }
    } else if ValidRequestKey(key) {
      forall i | 0 <= i < |key| ensures 'a' <= key[i] <= 'z' || 'A' <= key[i] <= 'Z' || '0' <= key[i] <= '9' || key[i] in {'_', '-'} {
        assert key[i] in key;
      }
    }
  }

  /** With a new key: an active product with a price the balance covers. */
  lemma RedeemExactly(e: Economy, bot: nat, k: nat, key: string)
    requires !KeyUsed(e, bot, key)
    ensures Redeem(e, bot, k, key).Ok? <==>
              && KeyFits(key) && bot < |e.books.balances| && k < |e.products|
              && e.products[k].active && 0 < e.products[k].price <= e.books.balances[bot]
  {
    KeysExactly(key);
    if bot < |e.books.balances| && k < |e.products| && e.products[k].price > 0 {
      RecordExactly(e.books, bot, SpendRedemption, 0 - e.products[k].price, RedemptionRef(|e.redemptions|));
    }
  }

  /** The order is of the product as it is now, awaits review, and costs the balance exactly its price. */
  lemma RedeemCharges(e: Economy, bot: nat, k: nat, key: string)
    requires !KeyUsed(e, bot, key) && Redeem(e, bot, k, key).Ok?
    ensures bot < |e.books.balances| && k < |e.products|
    ensures var e' := Redeem(e, bot, k, key).value;
            var product := e.products[k];
            && e' == e.(books := e'.books, redemptions := e'.redemptions)
            && e'.redemptions == e.redemptions + [Redemption(bot, k, product.title, product.price, key, PendingReview, None, None)]
            && Booked(e.books, e'.books, bot, SpendRedemption, 0 - product.price, RedemptionRef(|e.redemptions|))
            && e'.books.balances[bot] == e.books.balances[bot] - product.price
  {
    RecordExactly(e.books, bot, SpendRedemption, 0 - e.products[k].price, RedemptionRef(|e.redemptions|));
  }

  /** A replay returns the order it made before, and nothing happens; the key for another product conflicts. */
  lemma ReplayReturns(e: Economy, bot: nat, k: nat, key: string, r: nat)
    requires r < |e.redemptions| && e.redemptions[r].bot == bot && e.redemptions[r].requestKey == key
    requires forall i :: 0 <= i < |e.redemptions| && i != r ==> e.redemptions[i].bot != bot || e.redemptions[i].requestKey != key
    ensures KeyFits(key) ==>
              Redeem(e, bot, k, key) == if k < |e.products| && e.redemptions[r].product == k then Ok(e) else Err(IdempotencyConflict)
    ensures !KeyFits(key) ==> Redeem(e, bot, k, key) == Err(ValidationFailed)
  {
    KeysExactly(key);
    assert FindRequest(e.redemptions, bot, key) == Some(r);
  }

  // -- reviewing --

  /** Which status an order can leave for which, and whether its cost comes back. */
  predicate Reviews(from: RedemptionStatus, target: RedemptionStatus, refunds: bool) {
    match target
    case PendingReview => false
    case Approved => from == PendingReview && !refunds
    case Fulfilled => from == Approved && !refunds
    case Declined => from == PendingReview && refunds
    case Cancelled => (from == PendingReview || from == Approved) && refunds
  }

  /** The order in its new status; a note is kept where the review wrote one. */
  predicate Reviewed(was: Redemption, now: Redemption, target: RedemptionStatus, note: string) {
    var kept := if note == "" then None else Some(note);
    && now == was.(status := target, reviewNote := now.reviewNote, fulfillmentNote := now.fulfillmentNote)
    && now.reviewNote == (if target == Approved || target == Declined then kept else was.reviewNote)
    && now.fulfillmentNote == (if target == Fulfilled then kept else was.fulfillmentNote)
  }

  lemma LockExactly(e: Economy, r: nat, note: string, target: RedemptionStatus)
    requires target in {Approved, Fulfilled}
    ensures LockTransition(e, r, note, target).Ok? <==>
              && |note| <= 500 && r < |e.redemptions|
              && (e.redemptions[r].status == target || Reviews(e.redemptions[r].status, target, false))
    ensures LockTransition(e, r, note, target).Ok? ==>
              var e' := LockTransition(e, r, note, target).value;
              if e.redemptions[r].status == target then e' == e
              else e' == e.(redemptions := e.redemptions[r := e'.redemptions[r]])
                   && Reviewed(e.redemptions[r], e'.redemptions[r], target, note)
  {
  }

  /** A refund returns the order's own cost to its own bot, together with the new status. */
  lemma RefundExactly(e: Economy, r: nat, note: string, target: RedemptionStatus)
    requires target in {Declined, Cancelled} && (r < |e.redemptions| ==> e.redemptions[r].cost > 0)
    ensures RefundTransition(e, r, note, target).Ok? <==>
              && |note| <= 500 && r < |e.redemptions|
              && (|| e.redemptions[r].status == target
                  || (&& Reviews(e.redemptions[r].status, target, true) && e.redemptions[r].bot < |e.books.balances|
                      && Fits(e.books.balances[e.redemptions[r].bot] + e.redemptions[r].cost)))
    ensures RefundTransition(e, r, note, target).Ok? ==>
              var e' := RefundTransition(e, r, note, target).value;
              var was := e.redemptions[r];
              if was.status == target then e' == e
              else
                && e' == e.(books := e'.books, redemptions := e.redemptions[r := e'.redemptions[r]])
                && Reviewed(was, e'.redemptions[r], target, note)
                && Booked(e.books, e'.books, was.bot, RefundRedemption, was.cost, RedemptionRef(r))
  {
    if r < |e.redemptions| {
      RecordExactly(e.books, e.redemptions[r].bot, RefundRedemption, e.redemptions[r].cost, RedemptionRef(r));
    }
  }

  // -- products --

  /** What a product's description becomes: an empty text clears it. */
  function Described(text: string): Option<string> {
    if |text| == 0 then None else Some(text)
  }

  /** A new product is on offer at once. */
  lemma CreateExactly(e: Economy, title: string, description: string, price: int64)
    ensures CreateProduct(e, title, description, price).Ok? <==> 1 <= |title| <= 128 && |description| <= 500 && 1 <= price
    ensures CreateProduct(e, title, description, price).Ok? ==>
              CreateProduct(e, title, description, price).value
              == e.(products := e.products + [Product(title, Described(description), price, true)])
  {
  }

  /** An edit changes the fields it names, of this product; orders keep theirs. */
  lemma UpdateExactly(e: Economy, k: nat, title: Option<string>, description: Option<string>, price: Option<int64>)
    ensures UpdateProduct(e, k, title, description, price).Ok? <==>
              && k < |e.products| && (title.Some? || description.Some? || price.Some?)
              && (title.Some? ==> 1 <= |title.value| <= 128)
              && (description.Some? ==> |description.value| <= 500) && (price.Some? ==> 1 <= price.value)
    ensures UpdateProduct(e, k, title, description, price).Ok? ==>
              var e' := UpdateProduct(e, k, title, description, price).value;
              var was := e.products[k];
              && e' == e.(products := e.products[k := e'.products[k]])
              && e'.products[k].active == was.active
              && e'.products[k].title == (if title.Some? then title.value else was.title)
              && e'.products[k].price == (if price.Some? then price.value else was.price)
              && e'.products[k].description == (if description.Some? then Described(description.value) else was.description)
  {
  }

  lemma ActivateExactly(e: Economy, k: nat, active: bool)
    ensures SetProductActive(e, k, active)
            == if k < |e.products| then Ok(e.(products := e.products[k := e.products[k].(active := active)])) else Err(NotFound)
  {
  }
}
