/** The redemption store: products, and orders debited when they are created. */
module Rewards {
  import opened Int64
  import opened Results
  import opened Credits
  import opened Schema

  const MAX_TITLE: nat := 128
  const MAX_DESCRIPTION: nat := 500

  predicate ValidTitle(title: string) {
    1 <= |title| <= MAX_TITLE
  }

  function CreateProduct(e: Economy, title: string, description: string, price: int64): Result<Economy> {
    var _ :- Need(ValidTitle(title) && |description| <= MAX_DESCRIPTION && price > 0, ValidationFailed);
    Ok(e.(products := e.products + [Product(title, if description == "" then None else Some(description), price, true)]))
  }

  /** A partial edit; absent fields keep their value and an empty description clears it. */
  function UpdateProduct(e: Economy, k: nat, title: Option<string>, description: Option<string>, price: Option<int64>): Result<Economy> {
    var _ :- Need(title.Some? || description.Some? || price.Some?, ValidationFailed);
    var _ :- Need(title.Some? ==> ValidTitle(title.value), ValidationFailed);
    var _ :- Need(description.Some? ==> |description.value| <= MAX_DESCRIPTION, ValidationFailed);
    var _ :- Need(price.Some? ==> price.value > 0, ValidationFailed);
    var _ :- Need(k < |e.products|, NotFound);
    var was := e.products[k];
    var described := if description.None? then was.description
                     else if description.value == "" then None else description;
    Ok(e.(products := e.products[k := was.(title := title.GetOr(was.title), description := described, price := price.GetOr(was.price))]))
  }

  function SetProductActive(e: Economy, k: nat, active: bool): Result<Economy> {
    var _ :- Need(k < |e.products|, NotFound);
    Ok(e.(products := e.products[k := e.products[k].(active := active)]))
  }

  function FindRequest(redemptions: seq<Redemption>, bot: nat, key: string): (found: Option<nat>)
    ensures found.Some? ==> && found.value < |redemptions|
                            && redemptions[found.value].bot == bot && redemptions[found.value].requestKey == key
    ensures found.None? ==> forall i :: 0 <= i < |redemptions| ==>
                                          !(redemptions[i].bot == bot && redemptions[i].requestKey == key)
  {
    if redemptions == [] then None
    else
      var last := |redemptions| - 1;
      if redemptions[last].bot == bot && redemptions[last].requestKey == key then Some(last)
      else FindRequest(redemptions[..last], bot, key)
  }

  predicate ValidRequestKey(key: string) {
    && 1 <= |key| <= 64
    && forall c :: c in key ==> ('A' <= c <= 'Z') || ('a' <= c <= 'z') || ('0' <= c <= '9') || c == '_' || c == '-'
  }

  /**
   One order per (bot, request key): a replay for the same product returns it unchanged, a
   replay for another product conflicts. A new order snapshots title and price and is debited
   in the same transaction.
   */
  function Redeem(e: Economy, bot: nat, k: nat, key: string): Result<Economy> {
    var _ :- Need(ValidRequestKey(key), ValidationFailed);
    match FindRequest(e.redemptions, bot, key)
    case Some(existing) =>
      if k < |e.products| && e.redemptions[existing].product == k then Ok(e) else Err(IdempotencyConflict)
    case None =>
      var _ :- Need(bot < |e.books.balances|, BotNotFound);
      var _ :- Need(k < |e.products|, NotFound);
      var product := e.products[k];
      var _ :- Need(product.active, ProductInactive);
      var _ :- Need(product.price > 0, ValidationFailed);
      var r := |e.redemptions|;
      var books :- Record(e.books, bot, SpendRedemption, -product.price, RedemptionRef(r));
      Ok(e.(books := books,
            redemptions := e.redemptions + [Redemption(bot, k, product.title, product.price, key, PendingReview, None, None)]))
  }

  function NoteOf(note: string): Option<string> {
    if note == "" then None else Some(note)
  }

  /** Approve a pending order, or fulfil an approved one; no credits move. */
  function LockTransition(e: Economy, r: nat, note: string, target: RedemptionStatus): Result<Economy>
    requires target in {Approved, Fulfilled}
  {
    var _ :- Need(|note| <= MAX_DESCRIPTION, ValidationFailed);
    var _ :- Need(r < |e.redemptions|, NotFound);
    var row := e.redemptions[r];
    if row.status == target then Ok(e)
    else
      var from := if target == Fulfilled then Approved else PendingReview;
      var _ :- Need(row.status == from, InvalidState);
      var moved := if target == Approved then row.(status := target, reviewNote := NoteOf(note))
                   else row.(status := target, fulfillmentNote := NoteOf(note));
      Ok(e.(redemptions := e.redemptions[r := moved]))
  }

  /** Reject a pending order or cancel an unfulfilled one, refunding its cost in the same transaction. */
  function RefundTransition(e: Economy, r: nat, note: string, target: RedemptionStatus): Result<Economy>
    requires target in {Declined, Cancelled}
  {
    var _ :- Need(|note| <= MAX_DESCRIPTION, ValidationFailed);
    var _ :- Need(r < |e.redemptions|, NotFound);
    var row := e.redemptions[r];
    if row.status == target then Ok(e)
    else
      var _ :- Need(row.status == PendingReview || (target == Cancelled && row.status == Approved), InvalidState);
      var books :- Record(e.books, row.bot, RefundRedemption, row.cost, RedemptionRef(r));
      var moved := if target == Declined then row.(status := target, reviewNote := NoteOf(note)) else row.(status := target);
      Ok(e.(books := books, redemptions := e.redemptions[r := moved]))
  }
}
