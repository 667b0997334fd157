/** What a room action on entries, receipts and assignments is answered, with the whole new board. */
module BoardAnswers {
  import opened Results
  import opened Rooms
  import opened Assignments
  import opened AssignmentLaws
  import opened Turns

  // -- parties --

  predicate Member(b: Board, r: nat, a: nat) {
    (r, a) in b.members
  }

  /** A member who may be asked and may write: anything but an observer. */
  predicate Writes(b: Board, r: nat, a: nat) {
    (r, a) in b.members && (b.members[(r, a)] == Governor || b.members[(r, a)] == Speaker)
  }

  predicate OpenNow(b: Board, r: nat) {
    r < |b.open| && b.open[r]
  }

  /** The assignment, and its assignee's or creator's membership of its room. */
  predicate Doer(b: Board, id: nat, bot: nat) {
    id < |b.assigns| && b.assigns[id].assignee == bot && Member(b, b.assigns[id].thread, bot)
  }

  predicate Asker(b: Board, id: nat, bot: nat) {
    id < |b.assigns| && b.assigns[id].creator == bot && Member(b, b.assigns[id].thread, bot)
  }

  // -- receipts --

  /** The account's pending receipt for this entry is fulfilled; every other receipt stays. */
  predicate Answered(was: seq<Receipt>, now: seq<Receipt>, entry: nat, account: nat) {
    |now| == |was| && forall i :: 0 <= i < |was| ==>
      now[i] == if was[i].entry == entry && was[i].account == account && was[i].state == Pending
                then was[i].(state := Fulfilled) else was[i]
  }

  // -- the life of an assignment --

  /** The row once taken: both clocks count from now. */
  function TakenAt(a: Assign, now: int): Assign {
    a.(state := Taken, takenAt := Some(now), deliverDueAt := Some(now + a.deliverDue))
  }

  /** Its addressee takes what is on offer, and so answers the entry that carried it. */
  lemma TakeExactly(b: Board, id: nat, bot: nat, now: int)
    ensures Take(b, id, bot, None, now).Ok? <==> Doer(b, id, bot) && b.assigns[id].state == Offered
    ensures Take(b, id, bot, None, now).Ok? ==>
              var b' := Take(b, id, bot, None, now).value;
              && b' == b.(assigns := b.assigns[id := TakenAt(b.assigns[id], now)], receipts := b'.receipts)
              && Answered(b.receipts, b'.receipts, b.assigns[id].entry, bot)
  {
  }

  /** Taken with work at hand, it is delivered at once; the judging clock counts from the delivery. */
  lemma TakeAndDeliverExactly(b: Board, id: nat, bot: nat, payload: string, now: int)
    ensures Take(b, id, bot, Some(payload), now).Ok? <==>
              Doer(b, id, bot) && b.assigns[id].state == Offered && id !in b.deliveries
    ensures Take(b, id, bot, Some(payload), now).Ok? ==>
              var b' := Take(b, id, bot, Some(payload), now).value;
              && b' == b.(assigns := b.assigns[id := TakenAt(b.assigns[id], now).(state := Delivered)], receipts := b'.receipts,
                          deliveries := b.deliveries[id := Delivery(payload, now, now + b.assigns[id].judgeDue, None)])
              && Answered(b.receipts, b'.receipts, b.assigns[id].entry, bot)
  {
    if Take(b, id, bot, Some(payload), now).Ok? {
      var t := TakenAt(b.assigns[id], now);
      assert b.assigns[id := t][id := t.(state := Delivered)] == b.assigns[id := t.(state := Delivered)];
    }
  }

  /** Delivery is its taker's, once, before the delivery clock runs out; the judging clock starts with it. */
  lemma SubmitExactly(b: Board, id: nat, bot: nat, payload: string, now: int)
    requires BoardOk(b)
    ensures Submit(b, id, bot, payload, now).Ok? <==>
              Doer(b, id, bot) && b.assigns[id].state == Taken && b.assigns[id].deliverDueAt.Some? && now < b.assigns[id].deliverDueAt.value
    ensures Submit(b, id, bot, payload, now).Ok? ==>
              Submit(b, id, bot, payload, now).value
              == b.(assigns := b.assigns[id := b.assigns[id].(state := Delivered)],
                    deliveries := b.deliveries[id := Delivery(payload, now, now + b.assigns[id].judgeDue, None)])
  {
    if id < |b.assigns| {
      assert RowOk(b, id, b.assigns[id]);
    }
  }

  /** Judging is the creator's, while it may still judge, before the judging clock runs out. */
  lemma JudgeExactly(b: Board, id: nat, bot: nat, verdict: Verdict, now: int)
    requires BoardOk(b)
    ensures Judge(b, id, bot, verdict, now).Ok? <==>
              Asker(b, id, bot) && b.assigns[id].state == Delivered && !b.assigns[id].forfeited
              && id in b.deliveries && now < b.deliveries[id].judgeDueAt
    ensures Judge(b, id, bot, verdict, now).Ok? ==>
              Judge(b, id, bot, verdict, now).value
              == b.(assigns := b.assigns[id := b.assigns[id].(state := if verdict == Refuse then Refused else Adopted)],
                    deliveries := b.deliveries[id := b.deliveries[id].(verdict := Some(verdict))])
  {
    if id < |b.assigns| {
      assert RowOk(b, id, b.assigns[id]);
    }
  }

  /** Only its taker drops it, before the delivery clock runs out; only its creator voids it, before delivery. */
  lemma DropAndVoidExactly(b: Board, id: nat, bot: nat, now: int)
    requires BoardOk(b)
    ensures DropWork(b, id, bot, now).Ok? <==>
              Doer(b, id, bot) && b.assigns[id].state == Taken && b.assigns[id].deliverDueAt.Some? && now < b.assigns[id].deliverDueAt.value
    ensures DropWork(b, id, bot, now).Ok? ==>
              DropWork(b, id, bot, now).value == b.(assigns := b.assigns[id := b.assigns[id].(state := Dropped)])
    ensures VoidWork(b, id, bot).Ok? <==> Asker(b, id, bot) && (b.assigns[id].state == Offered || b.assigns[id].state == Taken)
    ensures VoidWork(b, id, bot).Ok? ==>
              VoidWork(b, id, bot).value == b.(assigns := b.assigns[id := b.assigns[id].(state := Voided)])
  {
    if id < |b.assigns| {
      assert RowOk(b, id, b.assigns[id]);
    }
  }

  /** The sweeper times out listed late deliveries and ends listed late judgments, and touches nothing else. */
  lemma RecoverExactly(b: Board, late: set<nat>, unjudged: set<nat>, now: int)
    requires BoardOk(b)
    ensures var b' := Recover(b, late, unjudged, now);
            && b' == b.(assigns := b'.assigns) && |b'.assigns| == |b.assigns|
            && forall i: nat :: i < |b.assigns| ==>
                 b'.assigns[i] ==
                 if i in late && b.assigns[i].state == Taken && b.assigns[i].deliverDueAt.Some? && b.assigns[i].deliverDueAt.value <= now
                 then b.assigns[i].(state := TimedOut)
                 else if i in unjudged && b.assigns[i].state == Delivered && i in b.deliveries && b.deliveries[i].judgeDueAt <= now
                 then b.assigns[i].(state := Undecided)
                 else b.assigns[i]
  {
  }

  // -- entries --

  /** A member who writes posts in an open room; everyone asked writes there too, is someone else, and is asked once. */
  predicate MayAsk(b: Board, author: nat, r: nat, asked: seq<nat>, replyTo: Option<nat>) {
    && OpenNow(b, r) && Writes(b, r, author)
    && (forall i :: 0 <= i < |asked| ==> Writes(b, r, asked[i]) && asked[i] != author)
    && (forall i, j :: 0 <= i < j < |asked| ==> asked[i] != asked[j])
    && (replyTo.Some? ==> replyTo.value < |b.entries| && b.entries[replyTo.value] == r)
  }

  /** A due time of 0 stands for a day. */
  function Seconds(due: int): int {
    if due == 0 then 86400 else due
  }

  /** Work is asked of oneself or of a member who writes, with a minute to a week for each clock. */
  predicate MayAssign(b: Board, author: nat, r: nat, spec: AssignSpec) {
    && (spec.assignee == author || Writes(b, r, spec.assignee))
    && 60 <= Seconds(spec.deliverDue) <= 604800 && 60 <= Seconds(spec.judgeDue) <= 604800
  }

  lemma PostExactly(b: Board, author: nat, r: nat, asked: seq<nat>, assign: Option<AssignSpec>, replyTo: Option<nat>, now: int)
    ensures Post(b, author, r, asked, assign, replyTo, now).Ok? <==>
              MayAsk(b, author, r, asked, replyTo) && (assign.Some? ==> MayAssign(b, author, r, assign.value))
  {
  }

  /** The entry, a pending receipt for each one asked, the assignment on offer, and the reply's own receipt answered. */
  lemma PostWrites(b: Board, author: nat, r: nat, asked: seq<nat>, assign: Option<AssignSpec>, replyTo: Option<nat>, now: int)
    requires Post(b, author, r, asked, assign, replyTo, now).Ok?
    ensures var b' := Post(b, author, r, asked, assign, replyTo, now).value;
            var entry := |b.entries|;
            var offered := if assign.None? then [] else
              [Assign.Assign(r, entry, author, assign.value.assignee, Seconds(assign.value.deliverDue), Seconds(assign.value.judgeDue),
                             Offered, None, None, false)];
            && b' == b.(entries := b.entries + [r], assigns := b.assigns + offered, receipts := b'.receipts)
            && |b'.receipts| == |b.receipts| + |asked|
            && (forall i :: 0 <= i < |asked| ==> b'.receipts[|b.receipts| + i] == Receipt(r, entry, asked[i], Pending, now))
            && (forall i :: 0 <= i < |b.receipts| ==>
                  b'.receipts[i] == if replyTo == Some(b.receipts[i].entry) && b.receipts[i].account == author && b.receipts[i].state == Pending
                                    then b.receipts[i].(state := Fulfilled) else b.receipts[i])
  {
    assert assign.None? ==> b.assigns + [] == b.assigns;
  }

  /** A member handles its own pending receipt, in an open room. */
  lemma HandleExactly(b: Board, account: nat, r: nat, entry: nat)
    ensures Handle(b, account, r, entry).Ok? <==>
              && OpenNow(b, r) && Member(b, r, account)
              && exists i :: 0 <= i < |b.receipts| && b.receipts[i].state == Pending && b.receipts[i].account == account
                             && b.receipts[i].entry == entry && b.receipts[i].thread == r
    ensures Handle(b, account, r, entry).Ok? ==>
              var b' := Handle(b, account, r, entry).value;
              b' == b.(receipts := b'.receipts) && Answered(b.receipts, b'.receipts, entry, account)
  {
  }

  // -- memberships and rooms --

  /** What an end of membership collects: receipts of the account, undelivered work on either side, judgments of its own. */
  predicate Collected(b: Board, b': Board, thread: Option<nat>, account: nat) {
    && b'.entries == b.entries && b'.deliveries == b.deliveries
    && |b'.receipts| == |b.receipts| && |b'.assigns| == |b.assigns|
    && (forall i :: 0 <= i < |b.receipts| ==>
          var x := b.receipts[i];
          b'.receipts[i] == if x.state == Pending && x.account == account && (thread == None || thread == Some(x.thread))
                            then x.(state := Withdrawn) else x)
    && (forall i :: 0 <= i < |b.assigns| ==>
          var x := b.assigns[i];
          b'.assigns[i] ==
          if thread != None && thread != Some(x.thread) then x
          else if (x.state == Offered || x.state == Taken) && (x.assignee == account || x.creator == account) then x.(state := Voided)
          else if x.state == Delivered && x.creator == account then x.(forfeited := true)
          else x)
  }

  lemma EndExactly(b: Board, r: nat, account: nat)
    ensures var b' := EndMembership(b, r, account);
            Collected(b, b', Some(r), account) && b'.open == b.open && b'.members == b.members - {(r, account)}
  {
  }

  lemma DeactivateExactly(b: Board, account: nat, closing: set<nat>)
    ensures var b' := Deactivate(b, account, closing);
            && Collected(b, b', None, account)
            && |b'.open| == |b.open| && (forall x :: 0 <= x < |b.open| ==> b'.open[x] == (b.open[x] && x !in closing))
            && (forall k :: k in b'.members <==> k in b.members && k.1 != account)
            && (forall k :: k in b'.members ==> b'.members[k] == b.members[k])
  {
  }

  /** An explicit close withdraws every pending receipt of the room and voids all its undelivered work. */
  lemma CloseExactly(b: Board, r: nat)
    ensures CloseRoom(b, r).Ok? <==> OpenNow(b, r)
    ensures CloseRoom(b, r).Ok? ==>
              var b' := CloseRoom(b, r).value;
              && b' == b.(open := b.open[r := false], receipts := b'.receipts, assigns := b'.assigns)
              && |b'.receipts| == |b.receipts| && |b'.assigns| == |b.assigns|
              && (forall i :: 0 <= i < |b.receipts| ==>
                    b'.receipts[i] == if b.receipts[i].state == Pending && b.receipts[i].thread == r
                                      then b.receipts[i].(state := Withdrawn) else b.receipts[i])
              && (forall i :: 0 <= i < |b.assigns| ==>
                    b'.assigns[i] == if (b.assigns[i].state == Offered || b.assigns[i].state == Taken) && b.assigns[i].thread == r
                                     then b.assigns[i].(state := Voided) else b.assigns[i])
  {
  }

  /** Starting, joining and changing role write one member row; only a demotion to observer collects receipts. */
  lemma MembershipExactly(b: Board, r: nat, account: nat, role: Role)
    ensures OpenRoomFor(b, account) == b.(open := b.open + [true], members := b.members[(|b.open|, account) := Governor])
    ensures Assignments.Admit(b, r, account, role)
            == if OpenNow(b, r) && !Member(b, r, account) then Ok(b.(members := b.members[(r, account) := role])) else Err(ValidationFailed)
    ensures ChangeRole(b, r, account, role).Ok? <==> OpenNow(b, r) && Member(b, r, account)
    ensures ChangeRole(b, r, account, role).Ok? ==>
              var b' := ChangeRole(b, r, account, role).value;
              && b' == b.(members := b.members[(r, account) := role], receipts := b'.receipts) && |b'.receipts| == |b.receipts|
              && forall i :: 0 <= i < |b.receipts| ==>
                   b'.receipts[i] == if role == Observer && b.receipts[i].state == Pending && b.receipts[i].thread == r && b.receipts[i].account == account
                                     then b.receipts[i].(state := Withdrawn) else b.receipts[i]
  {
    if role != Observer {
      assert b.receipts == seq(|b.receipts|, i requires 0 <= i < |b.receipts| => b.receipts[i]);
    }
  }

  // -- the turn list --

  /** Exactly what an account's list shows, over all rooms: what was asked of it and is pending, what it took and can
      still deliver, what it may still judge, and its live claims. */
  lemma ListExactly(b: Board, claims: seq<Engagement>, account: nat, now: int, i: nat)
    requires BoardOk(b)
    ensures ReplyKey(b, i) in TodoItems(b, claims, account, None, now) <==>
              i < |b.receipts| && b.receipts[i].account == account && b.receipts[i].state == Pending
    ensures DeliverKey(b, i) in TodoItems(b, claims, account, None, now) <==>
              && i < |b.assigns| && b.assigns[i].assignee == account && b.assigns[i].state == Taken
              && b.assigns[i].deliverDueAt.Some? && now < b.assigns[i].deliverDueAt.value
    ensures JudgeKey(b, i) in TodoItems(b, claims, account, None, now) <==>
              && i < |b.assigns| && b.assigns[i].creator == account && b.assigns[i].state == Delivered && !b.assigns[i].forfeited
              && i in b.deliveries && now < b.deliveries[i].judgeDueAt
    ensures ClaimKey(claims, i) in TodoItems(b, claims, account, None, now) <==>
              i < |claims| && claims[i].agent == account && claims[i].live && now < claims[i].expiresAt
  {
    Listed(b, claims, account, None, now, i);
    ClaimListed(b, claims, account, now, i);
    if i < |b.assigns| {
      assert RowOk(b, i, b.assigns[i]);
    }
  }

  lemma ClaimListed(b: Board, claims: seq<Engagement>, account: nat, now: int, i: nat)
    ensures ClaimKey(claims, i) in TodoItems(b, claims, account, None, now) <==> ClaimDue(claims, i, account, None, now)
  {
    PickedBranch(|b.receipts|, ReplyRows(b, account, None), ReplyKeys(b), 1);
    PickedBranch(|b.assigns|, DeliverRows(b, account, None, now), DeliverKeys(b), 2);
    PickedBranch(|b.assigns|, JudgeRows(b, account, None, now), JudgeKeys(b), 3);
    PickedHas(|claims|, ClaimRows(claims, account, None, now), ClaimKeys(claims), i);
    assert ClaimKeys(claims)(i) == ClaimKey(claims, i);
  }

  /** When each obligation arose: asked, taken, delivered, claimed. */
  lemma ProducedExactly(b: Board, claims: seq<Engagement>, i: nat)
    ensures i < |b.receipts| ==> ReplyKey(b, i) == Key(b.receipts[i].createdAt, 1, i)
    ensures i < |b.assigns| && b.assigns[i].takenAt.Some? ==> DeliverKey(b, i) == Key(b.assigns[i].takenAt.value, 2, i)
    ensures i in b.deliveries ==> JudgeKey(b, i) == Key(b.deliveries[i].submittedAt, 3, i)
    ensures i < |claims| ==> ClaimKey(claims, i) == Key(claims[i].createdAt, 4, i)
  {
  }

  /** A room's own list holds exactly that room's obligations, and no claims. */
  lemma RoomListExactly(b: Board, claims: seq<Engagement>, account: nat, r: nat, now: int, i: nat)
    ensures ReplyKey(b, i) in TodoItems(b, claims, account, Some(r), now) <==>
              i < |b.receipts| && b.receipts[i].thread == r && ReplyKey(b, i) in TodoItems(b, claims, account, None, now)
    ensures DeliverKey(b, i) in TodoItems(b, claims, account, Some(r), now) <==>
              i < |b.assigns| && b.assigns[i].thread == r && DeliverKey(b, i) in TodoItems(b, claims, account, None, now)
    ensures JudgeKey(b, i) in TodoItems(b, claims, account, Some(r), now) <==>
              i < |b.assigns| && b.assigns[i].thread == r && JudgeKey(b, i) in TodoItems(b, claims, account, None, now)
  {
    Turns.Listed(b, claims, account, None, now, i);
    Turns.Listed(b, claims, account, Some(r), now, i);
  }
}
