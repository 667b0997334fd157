/**
 The room tables as the program updates them, statement by statement inside one transaction.
 Every action is proved equal to the function that specifies it.
 */
module RoomStore {
  import opened Results
  import R = Rooms
  import A = Assignments
  import opened Assignments
  import L = AssignmentLaws

  ghost predicate Did(before: Board, after: Board, failure: Option<Error>, spec: Result<Board>) {
    match spec
    case Ok(next) => failure.None? && after == next
    case Err(error) => failure == Some(error) && after == before
  }

  class RoomTables {
    var open: seq<bool>
    var members: map<(nat, nat), R.Role>
    var entries: seq<nat>
    var assigns: seq<Assign>
    var deliveries: map<nat, Delivery>
    var receipts: seq<Receipt>

    function State(): Board
      reads this
    {
      Board(open, members, entries, assigns, deliveries, receipts)
    }

    constructor ()
      ensures State() == EMPTY_BOARD
    {
      open, members, entries, assigns, deliveries, receipts := [], map[], [], [], map[], [];
    }

    method Rollback(saved: Board)
      modifies this
      ensures State() == saved
    {
      open, members, entries := saved.open, saved.members, saved.entries;
      assigns, deliveries, receipts := saved.assigns, saved.deliveries, saved.receipts;
    }

    // -- guarded single-row updates --

    /** Open to taken; the delivery clock starts now. */
    method TakeAssignmentCAS(id: nat, assignee: nat, now: int) returns (won: bool)
      modifies this`assigns
      ensures won <==> id < |old(assigns)| && old(assigns)[id].assignee == assignee && old(assigns)[id].state == Offered
      ensures won ==> assigns == old(assigns)[id := old(assigns)[id].(state := Taken, takenAt := Some(now),
                                                                      deliverDueAt := Some(now + old(assigns)[id].deliverDue))]
      ensures !won ==> assigns == old(assigns)
    {
      won := id < |assigns| && assigns[id].assignee == assignee && assigns[id].state == Offered;
      if won {
        var a := assigns[id];
        assigns := assigns[id := a.(state := Taken, takenAt := Some(now), deliverDueAt := Some(now + a.deliverDue))];
      }
    }

    /** The delivery row first, then the guarded move; a guard that misses aborts both. */
    method InsertAssignmentDelivery(id: nat, payload: string, now: int) returns (failure: Option<Error>)
      modifies this`assigns, this`deliveries
      ensures Did(old(State()), State(), failure, A.InsertDelivery(old(State()), id, payload, now))
    {
      if id >= |assigns| || id in deliveries {
        return Some(InvalidState);
      }
      var saved := deliveries;
      deliveries := deliveries[id := Delivery(payload, now, now + assigns[id].judgeDue, None)];
      if assigns[id].state != Taken {
        deliveries := saved;
        return Some(InvalidState);
      }
      assigns := assigns[id := assigns[id].(state := Delivered)];
      failure := None;
    }

    method SetAssignmentStateCAS(id: nat, from: Work, to: Work) returns (won: bool)
      modifies this`assigns
      ensures won <==> id < |old(assigns)| && old(assigns)[id].state == from
      ensures assigns == if won then old(assigns)[id := old(assigns)[id].(state := to)] else old(assigns)
    {
      won := id < |assigns| && assigns[id].state == from;
      if won {
        assigns := assigns[id := assigns[id].(state := to)];
      }
    }

    /** The verdict on the assignment, then its mirror on the delivery. */
    method JudgeAssignmentCAS(id: nat, creator: nat, verdict: Verdict) returns (won: bool)
      modifies this`assigns, this`deliveries
      ensures won <==> && id < |old(assigns)| && old(assigns)[id].creator == creator
                       && old(assigns)[id].state == Delivered && !old(assigns)[id].forfeited
      ensures assigns == if won then old(assigns)[id := old(assigns)[id].(state := if verdict == Adopt then Adopted else Refused)]
                         else old(assigns)
      ensures deliveries == if won && id in old(deliveries) then old(deliveries)[id := old(deliveries)[id].(verdict := Some(verdict))]
                            else old(deliveries)
    {
      won := id < |assigns| && assigns[id].creator == creator && assigns[id].state == Delivered && !assigns[id].forfeited;
      if won {
        assigns := assigns[id := assigns[id].(state := if verdict == Adopt then Adopted else Refused)];
        if id in deliveries {
          deliveries := deliveries[id := deliveries[id].(verdict := Some(verdict))];
        }
      }
    }

    method FulfillThreadReceipt(entry: nat, account: nat)
      modifies this`receipts
      ensures State() == A.FulfillReceipt(old(State()), entry, account)
    {
      receipts := A.FulfillReceipt(State(), entry, account).receipts;
    }

    // -- actions --

    method AssignTake(id: nat, bot: nat, payload: Option<string>, now: int) returns (failure: Option<Error>)
      modifies this
      ensures Did(old(State()), State(), failure, A.Take(old(State()), id, bot, payload, now))
      ensures L.BoardOk(old(State())) && failure.None? ==>
                && L.Step(old(State()), State(), now)
                && assigns[id].state == (if payload.None? then Taken else Delivered) && assigns[id].takenAt == Some(now)
    {
      TakeOutcome(State(), id, bot, payload, now);
      var loaded := Loaded(State(), id, bot);
      if loaded.Err? {
        return Some(loaded.error);
      }
      var saved, a := State(), loaded.value;
      if a.assignee != bot {
        return Some(NotOwner);
      }
      var won := TakeAssignmentCAS(id, bot, now);
      if !won {
        return Some(InvalidState);
      }
      FulfillThreadReceipt(a.entry, bot);
      failure := None;
      if payload.Some? {
        failure := InsertAssignmentDelivery(id, payload.value, now);
        if failure.Some? {
          Rollback(saved);
        }
      }
    }

    method AssignSubmit(id: nat, bot: nat, payload: string, now: int) returns (failure: Option<Error>)
      modifies this`assigns, this`deliveries
      ensures Did(old(State()), State(), failure, A.Submit(old(State()), id, bot, payload, now))
      ensures L.BoardOk(old(State())) && failure.None? ==> L.Step(old(State()), State(), now) && id in deliveries
    {
      if L.BoardOk(State()) && A.Submit(State(), id, bot, payload, now).Ok? {
        L.SubmitStep(State(), id, bot, payload, now);
      }
      var loaded := Loaded(State(), id, bot);
      if loaded.Err? {
        return Some(loaded.error);
      }
      if loaded.value.assignee != bot {
        return Some(NotOwner);
      }
      if DeadlinePassed(State(), id, now) || loaded.value.state != Taken {
        return Some(InvalidState);
      }
      failure := InsertAssignmentDelivery(id, payload, now);
    }

    method AssignJudge(id: nat, bot: nat, verdict: Verdict, now: int) returns (failure: Option<Error>)
      modifies this`assigns, this`deliveries
      ensures Did(old(State()), State(), failure, A.Judge(old(State()), id, bot, verdict, now))
      ensures L.BoardOk(old(State())) && failure.None? ==>
                L.Step(old(State()), State(), now) && id in deliveries && deliveries[id].verdict == Some(verdict)
    {
      if L.BoardOk(State()) && A.Judge(State(), id, bot, verdict, now).Ok? {
        L.JudgeStep(State(), id, bot, verdict, now);
      }
      var loaded := Loaded(State(), id, bot);
      if loaded.Err? {
        return Some(loaded.error);
      }
      if loaded.value.creator != bot {
        return Some(NotOwner);
      }
      if DeadlinePassed(State(), id, now) || loaded.value.state != Delivered {
        return Some(InvalidState);
      }
      if loaded.value.forfeited {
        return Some(NotOwner);
      }
      var won := JudgeAssignmentCAS(id, bot, verdict);
      failure := if won then None else Some(InvalidState);
    }

    method AssignDrop(id: nat, bot: nat, now: int) returns (failure: Option<Error>)
      modifies this`assigns
      ensures Did(old(State()), State(), failure, A.DropWork(old(State()), id, bot, now))
      ensures L.BoardOk(old(State())) && failure.None? ==> L.Step(old(State()), State(), now)
    {
      if L.BoardOk(State()) && A.DropWork(State(), id, bot, now).Ok? {
        L.DropStep(State(), id, bot, now);
      }
      var loaded := Loaded(State(), id, bot);
      if loaded.Err? {
        return Some(loaded.error);
      }
      if loaded.value.assignee != bot {
        return Some(NotOwner);
      }
      if DeadlinePassed(State(), id, now) {
        return Some(InvalidState);
      }
      var won := SetAssignmentStateCAS(id, Taken, Dropped);
      failure := if won then None else Some(InvalidState);
    }

    method AssignVoid(id: nat, bot: nat) returns (failure: Option<Error>)
      modifies this`assigns
      ensures Did(old(State()), State(), failure, A.VoidWork(old(State()), id, bot))
      ensures L.BoardOk(old(State())) && failure.None? ==> L.BoardOk(State()) && assigns[id].state == Voided
    {
      if L.BoardOk(State()) && A.VoidWork(State(), id, bot).Ok? {
        L.VoidStep(State(), id, bot, 0);
      }
      var loaded := Loaded(State(), id, bot);
      if loaded.Err? {
        return Some(loaded.error);
      }
      if loaded.value.creator != bot {
        return Some(NotOwner);
      }
      if !Undelivered(loaded.value.state) {
        return Some(InvalidState);
      }
      var won := SetAssignmentStateCAS(id, loaded.value.state, Voided);
      failure := if won then None else Some(InvalidState);
    }

    /**
     Late deliveries time out, then late judgments end undecided: no listed row is left past its
     deadline, and rows that are not listed are left alone.
     */
    method RecoverAssigns(late: set<nat>, unjudged: set<nat>, now: int)
      modifies this`assigns
      ensures State() == A.Recover(old(State()), late, unjudged, now)
      ensures forall i: nat :: i < |assigns| && i in late ==> !(assigns[i].state == Taken && DeadlinePassed(State(), i, now))
      ensures forall i: nat :: i < |assigns| && i in unjudged ==>
                !(assigns[i].state == Delivered && i in deliveries && deliveries[i].judgeDueAt <= now)
      ensures forall i: nat :: i < |assigns| && i !in late && i !in unjudged ==> assigns[i] == old(assigns)[i]
      ensures L.BoardOk(old(State())) ==> L.Step(old(State()), State(), now)
    {
      var b := State();
      if L.BoardOk(b) {
        L.RecoverStep(b, late, unjudged, now);
      }
      assigns := seq(|assigns|, i requires 0 <= i < |b.assigns| =>
        if i in late && b.assigns[i].state == Taken && DeadlinePassed(b, i, now)
        then b.assigns[i].(state := TimedOut) else b.assigns[i]);
      var t := assigns;
      assigns := seq(|t|, i requires 0 <= i < |t| =>
        if i in unjudged && t[i].state == Delivered && i in b.deliveries && b.deliveries[i].judgeDueAt <= now
        then t[i].(state := Undecided) else t[i]);
    }

    // -- collections --

    method VoidUndeliveredAssigns(thread: Option<nat>, account: Option<nat>)
      modifies this`assigns
      ensures State() == A.VoidUndelivered(old(State()), thread, account)
    {
      assigns := A.VoidUndelivered(State(), thread, account).assigns;
    }

    method ForfeitJudgmentsForCreator(thread: Option<nat>, creator: nat)
      modifies this`assigns
      ensures State() == A.ForfeitJudgments(old(State()), thread, creator)
    {
      assigns := A.ForfeitJudgments(State(), thread, creator).assigns;
    }

    method WithdrawThreadReceipts(thread: Option<nat>, account: Option<nat>)
      modifies this`receipts
      ensures State() == A.WithdrawReceipts(old(State()), thread, account)
    {
      receipts := A.WithdrawReceipts(State(), thread, account).receipts;
    }

    /** Leave or removal, past its last-governor guard. */
    method EndMembership(thread: nat, account: nat)
      modifies this
      ensures State() == A.EndMembership(old(State()), thread, account)
    {
      VoidUndeliveredAssigns(Some(thread), Some(account));
      ForfeitJudgmentsForCreator(Some(thread), account);
      WithdrawThreadReceipts(Some(thread), Some(account));
      members := members - {(thread, account)};
    }

    /** The explicit close leaves nothing in the room waiting, except work already delivered. */
    method ThreadClose(thread: nat) returns (failure: Option<Error>)
      modifies this
      ensures Did(old(State()), State(), failure, A.CloseRoom(old(State()), thread))
      ensures L.BoardOk(old(State())) ==> L.BoardOk(State()) && (failure.None? ==> L.Quiet(State(), thread))
    {
      CloseOutcome(State(), thread);
      if !IsOpen(State(), thread) {
        return Some(InvalidState);
      }
      VoidUndeliveredAssigns(Some(thread), None);
      WithdrawThreadReceipts(Some(thread), None);
      open := open[thread := false];
      failure := None;
    }

    /**
     The cascade's statements after its rooms are decided. The account keeps no membership, owes
     nothing, and may judge nothing; a room it closes is quiet exactly when only it was waited for.
     */
    method TerminateAccountThreadMemberships(account: nat, closing: set<nat>)
      modifies this
      ensures State() == A.Deactivate(old(State()), account, closing)
      ensures Departed(State(), account)
      ensures L.BoardOk(old(State())) ==> L.BoardOk(State())
      ensures forall r :: r in closing && IsOpen(old(State()), r) ==>
                (L.Quiet(State(), r) <==> L.WaitsOnlyFor(old(State()), account, r))
    {
      DepartureOutcome(State(), account, closing);
      var was := open;
      open := seq(|was|, i requires 0 <= i < |was| => was[i] && i !in closing);
      WithdrawThreadReceipts(None, Some(account));
      VoidUndeliveredAssigns(None, Some(account));
      ForfeitJudgmentsForCreator(None, account);
      members := map k | k in members && k.1 != account :: members[k];
    }
  }

  // -- what the methods' callers gain --

  /** The account is nowhere a member, owes nothing, and nothing of its own is undelivered or judgeable. */
  predicate Departed(b: Board, account: nat) {
    && (forall k :: k in b.members ==> k.1 != account)
    && (forall i :: 0 <= i < |b.receipts| && b.receipts[i].account == account ==> b.receipts[i].state != Pending)
    && (forall i :: 0 <= i < |b.assigns| && (b.assigns[i].assignee == account || b.assigns[i].creator == account) ==>
          !Undelivered(b.assigns[i].state))
    && (forall i :: 0 <= i < |b.assigns| && b.assigns[i].creator == account && b.assigns[i].state == Delivered ==>
          b.assigns[i].forfeited)
  }

  lemma TakeOutcome(b: Board, id: nat, bot: nat, payload: Option<string>, now: int)
    ensures L.BoardOk(b) && A.Take(b, id, bot, payload, now).Ok? ==> L.Step(b, A.Take(b, id, bot, payload, now).value, now)
  {
    if L.BoardOk(b) && A.Take(b, id, bot, payload, now).Ok? {
      match payload
      case None => L.TakeStep(b, id, bot, now);
      case Some(text) => L.TakeAndDeliverStep(b, id, bot, text, now);
    }
  }

  lemma CloseOutcome(b: Board, thread: nat)
    ensures L.BoardOk(b) && A.CloseRoom(b, thread).Ok? ==>
              L.BoardOk(A.CloseRoom(b, thread).value) && L.Quiet(A.CloseRoom(b, thread).value, thread)
  {
    if L.BoardOk(b) && A.CloseRoom(b, thread).Ok? {
      L.CloseStep(b, thread, 0);
      L.CloseQuiets(b, thread);
    }
  }

  lemma DepartureOutcome(b: Board, account: nat, closing: set<nat>)
    ensures Departed(A.Deactivate(b, account, closing), account)
    ensures L.BoardOk(b) ==> L.BoardOk(A.Deactivate(b, account, closing))
    ensures forall r :: r in closing && IsOpen(b, r) ==>
              (L.Quiet(A.Deactivate(b, account, closing), r) <==> L.WaitsOnlyFor(b, account, r))
  {
    if L.BoardOk(b) {
      L.DeactivateStep(b, account, closing, 0);
    }
    forall r | r in closing && IsOpen(b, r)
      ensures L.Quiet(A.Deactivate(b, account, closing), r) <==> L.WaitsOnlyFor(b, account, r)
    {
      L.CascadeQuietsExactly(b, account, closing, r);
    }
  }
}
