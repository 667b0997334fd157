/** What every assignment action keeps, and what a room's history adds up to. */
module AssignmentLaws {
  import opened Results
  import R = Rooms
  import opened Assignments

  // -- invariant --

  predicate Reached(s: Work) {
    s in {Delivered, Adopted, Refused, Undecided}
  }

  predicate RowOk(b: Board, i: int, a: Assign) {
    && a.thread < |b.open|
    && (i in b.deliveries <==> Reached(a.state))
    && (i in b.deliveries ==> b.deliveries[i].verdict == (if a.state == Adopted then Some(Adopt) else if a.state == Refused then Some(Refuse) else None))
    && (a.forfeited ==> a.state == Delivered || a.state == Undecided)
    && (Undelivered(a.state) ==> (a.thread, a.creator) in b.members && (a.thread, a.assignee) in b.members)
    && (a.state == Delivered && !a.forfeited ==> (a.thread, a.creator) in b.members)
    && (a.takenAt.Some? <==> a.deliverDueAt.Some?)
    && (a.takenAt.None? ==> a.state == Offered || a.state == Voided)
    && (a.state == Offered ==> a.takenAt.None?)
  }

  predicate ReceiptOk(b: Board, r: Receipt) {
    r.thread < |b.open| && r.entry < |b.entries| && b.entries[r.entry] == r.thread && (r.state == Pending ==> Speaks(b, r.thread, r.account))
  }

  ghost predicate ReceiptsUnique(receipts: seq<Receipt>) {
    forall i, j :: 0 <= i < j < |receipts| ==> receipts[i].entry != receipts[j].entry || receipts[i].account != receipts[j].account
  }

  ghost predicate RowsOk(b: Board) {
    forall i :: 0 <= i < |b.assigns| ==> RowOk(b, i, b.assigns[i])
  }

  ghost predicate BoardOk(b: Board) {
    && RowsOk(b)
    && (forall i :: i in b.deliveries ==> i < |b.assigns|)
    && (forall k :: k in b.members ==> k.0 < |b.open|)
    && (forall i :: 0 <= i < |b.receipts| ==> ReceiptOk(b, b.receipts[i]))
    && ReceiptsUnique(b.receipts)
  }

  // -- what one action may do to one assignment --

  function Rank(s: Work): nat {
    match s case Offered => 3 case Taken => 2 case Delivered => 1 case _ => 0
  }

  /** The edges of an assignment's life. */
  function Next(s: Work): set<Work> {
    match s
    case Offered => {Taken, Delivered, Voided}
    case Taken => {Delivered, Dropped, TimedOut, Voided}
    case Delivered => {Adopted, Refused, Undecided}
    case _ => {}
  }

  lemma EveryEdgeFalls(s: Work, s': Work)
    requires s' in Next(s)
    ensures Rank(s') < Rank(s)
  {
  }

  /** The fixed columns. */
  function Terms(a: Assign): (nat, nat, nat, nat, int, int) {
    (a.thread, a.entry, a.creator, a.assignee, a.deliverDue, a.judgeDue)
  }

  /**
   The terms never change, the state follows the edges, a forfeited judgment can
   only end undecided, and the two clocks decide which exits are still possible.
   */
  predicate Moved(a: Assign, judgeDueAt: Option<int>, a': Assign, now: int) {
    && Terms(a') == Terms(a)
    && (a'.state != a.state ==> a'.state in Next(a.state))
    && (a'.state == a.state ==> a'.takenAt == a.takenAt && a'.deliverDueAt == a.deliverDueAt)
    && (a.forfeited ==> a'.forfeited && (a'.state == Delivered || a'.state == Undecided))
    && (a.state == Taken && a'.state in {Delivered, Dropped} ==> a.deliverDueAt.Some? && now < a.deliverDueAt.value)
    && (a.state == Taken && a'.state == TimedOut ==> a.deliverDueAt.Some? && a.deliverDueAt.value <= now)
    && (a.state == Delivered && a'.state in {Adopted, Refused} ==> judgeDueAt.Some? && now < judgeDueAt.value)
    && (a.state == Delivered && a'.state == Undecided ==> judgeDueAt.Some? && judgeDueAt.value <= now)
  }

  function JudgeDueAt(b: Board, i: int): Option<int> {
    if i in b.deliveries then Some(b.deliveries[i].judgeDueAt) else None
  }

  predicate DeliveryKept(d: Delivery, d': Delivery) {
    d'.payload == d.payload && d'.submittedAt == d.submittedAt && d'.judgeDueAt == d.judgeDueAt && (d.verdict.Some? ==> d' == d)
  }

  /** A receipt ends at most once. */
  predicate ReceiptKept(r: Receipt, r': Receipt) {
    r' == r || (r.state == Pending && r' == r.(state := r'.state))
  }

  ghost predicate Evolves(b: Board, b': Board, now: int) {
    && |b.assigns| <= |b'.assigns| && |b.receipts| <= |b'.receipts| && |b.open| <= |b'.open|
    && (forall i :: 0 <= i < |b.assigns| ==> Moved(b.assigns[i], JudgeDueAt(b, i), b'.assigns[i], now))
    && (forall i :: i in b.deliveries ==> i in b'.deliveries && DeliveryKept(b.deliveries[i], b'.deliveries[i]))
    && (forall i :: 0 <= i < |b.receipts| ==> ReceiptKept(b.receipts[i], b'.receipts[i]))
    && (forall t :: 0 <= t < |b.open| && b'.open[t] ==> b.open[t])
  }

  ghost predicate Step(b: Board, b': Board, now: int) {
    BoardOk(b') && Evolves(b, b', now)
  }

  lemma Untouched(b: Board, now: int)
    requires BoardOk(b)
    ensures Step(b, b, now)
  {
  }

  // -- single rows --

  lemma TakeStep(b: Board, id: nat, bot: nat, now: int)
    requires BoardOk(b) && Take(b, id, bot, None, now).Ok?
    ensures Step(b, Take(b, id, bot, None, now).value, now)
  {
  }

  lemma TakeAndDeliverKeeps(b: Board, id: nat, bot: nat, payload: string, now: int)
    requires BoardOk(b) && Take(b, id, bot, Some(payload), now).Ok?
    ensures BoardOk(Take(b, id, bot, Some(payload), now).value)
  {
  }

  lemma TakeAndDeliverEvolves(b: Board, id: nat, bot: nat, payload: string, now: int)
    requires BoardOk(b) && Take(b, id, bot, Some(payload), now).Ok?
    ensures Evolves(b, Take(b, id, bot, Some(payload), now).value, now)
  {
  }

  lemma TakeAndDeliverStep(b: Board, id: nat, bot: nat, payload: string, now: int)
    requires BoardOk(b) && Take(b, id, bot, Some(payload), now).Ok?
    ensures Step(b, Take(b, id, bot, Some(payload), now).value, now)
  {
    TakeAndDeliverKeeps(b, id, bot, payload, now);
    TakeAndDeliverEvolves(b, id, bot, payload, now);
  }

  lemma SubmitStep(b: Board, id: nat, bot: nat, payload: string, now: int)
    requires BoardOk(b) && Submit(b, id, bot, payload, now).Ok?
    ensures Step(b, Submit(b, id, bot, payload, now).value, now)
  {
  }

  lemma JudgeStep(b: Board, id: nat, bot: nat, verdict: Verdict, now: int)
    requires BoardOk(b) && Judge(b, id, bot, verdict, now).Ok?
    ensures Step(b, Judge(b, id, bot, verdict, now).value, now)
  {
  }

  lemma DropStep(b: Board, id: nat, bot: nat, now: int)
    requires BoardOk(b) && DropWork(b, id, bot, now).Ok?
    ensures Step(b, DropWork(b, id, bot, now).value, now)
  {
  }

  lemma VoidStep(b: Board, id: nat, bot: nat, now: int)
    requires BoardOk(b) && VoidWork(b, id, bot).Ok?
    ensures Step(b, VoidWork(b, id, bot).value, now)
  {
  }

  lemma RecoverKeeps(b: Board, late: set<nat>, unjudged: set<nat>, now: int)
    requires BoardOk(b)
    ensures BoardOk(Recover(b, late, unjudged, now))
  {
  }

  lemma RecoverMoves(b: Board, late: set<nat>, unjudged: set<nat>, now: int, i: nat)
    requires i < |b.assigns| && RowOk(b, i, b.assigns[i])
    ensures Moved(b.assigns[i], JudgeDueAt(b, i), Recover(b, late, unjudged, now).assigns[i], now)
  {
  }

  lemma RecoverEvolves(b: Board, late: set<nat>, unjudged: set<nat>, now: int)
    requires BoardOk(b)
    ensures Evolves(b, Recover(b, late, unjudged, now), now)
  {
    forall i | 0 <= i < |b.assigns|
      ensures Moved(b.assigns[i], JudgeDueAt(b, i), Recover(b, late, unjudged, now).assigns[i], now)
    {
      RecoverMoves(b, late, unjudged, now, i);
    }
  }

  lemma RecoverStep(b: Board, late: set<nat>, unjudged: set<nat>, now: int)
    requires BoardOk(b)
    ensures Step(b, Recover(b, late, unjudged, now), now)
  {
    RecoverKeeps(b, late, unjudged, now);
    RecoverEvolves(b, late, unjudged, now);
  }

  // -- memberships --

  lemma StartStep(b: Board, creator: nat, now: int)
    requires BoardOk(b)
    ensures Step(b, OpenRoomFor(b, creator), now)
  {
  }

  lemma AdmitStep(b: Board, thread: nat, account: nat, role: R.Role, now: int)
    requires BoardOk(b) && Admit(b, thread, account, role).Ok?
    ensures Step(b, Admit(b, thread, account, role).value, now)
  {
  }

  lemma RoleKeeps(b: Board, thread: nat, account: nat, role: R.Role, now: int)
    requires BoardOk(b) && ChangeRole(b, thread, account, role).Ok?
    ensures BoardOk(ChangeRole(b, thread, account, role).value)
  {
  }

  lemma RoleEvolves(b: Board, thread: nat, account: nat, role: R.Role, now: int)
    requires BoardOk(b) && ChangeRole(b, thread, account, role).Ok?
    ensures Evolves(b, ChangeRole(b, thread, account, role).value, now)
  {
  }

  lemma RoleStep(b: Board, thread: nat, account: nat, role: R.Role, now: int)
    requires BoardOk(b) && ChangeRole(b, thread, account, role).Ok?
    ensures Step(b, ChangeRole(b, thread, account, role).value, now)
  {
    RoleKeeps(b, thread, account, role, now);
    RoleEvolves(b, thread, account, role, now);
  }

  lemma EndKeeps(b: Board, thread: nat, account: nat, now: int)
    requires BoardOk(b)
    ensures BoardOk(EndMembership(b, thread, account))
  {
    EndKeepsRows(b, thread, account);
  }

  lemma EndKeepsRows(b: Board, thread: nat, account: nat)
    requires BoardOk(b)
    ensures RowsOk(EndMembership(b, thread, account))
  {
  }

  lemma EndEvolves(b: Board, thread: nat, account: nat, now: int)
    requires BoardOk(b)
    ensures Evolves(b, EndMembership(b, thread, account), now)
  {
  }

  lemma EndStep(b: Board, thread: nat, account: nat, now: int)
    requires BoardOk(b)
    ensures Step(b, EndMembership(b, thread, account), now)
  {
    EndKeeps(b, thread, account, now);
    EndEvolves(b, thread, account, now);
  }

  lemma CloseStep(b: Board, thread: nat, now: int)
    requires BoardOk(b) && CloseRoom(b, thread).Ok?
    ensures Step(b, CloseRoom(b, thread).value, now)
  {
  }

  lemma DeactivateKeeps(b: Board, account: nat, closing: set<nat>, now: int)
    requires BoardOk(b)
    ensures BoardOk(Deactivate(b, account, closing))
  {
    DeactivateKeepsRows(b, account, closing);
  }

  lemma DeactivateKeepsRows(b: Board, account: nat, closing: set<nat>)
    requires BoardOk(b)
    ensures RowsOk(Deactivate(b, account, closing))
  {
  }

  lemma DeactivateEvolves(b: Board, account: nat, closing: set<nat>, now: int)
    requires BoardOk(b)
    ensures Evolves(b, Deactivate(b, account, closing), now)
  {
  }

  lemma DeactivateStep(b: Board, account: nat, closing: set<nat>, now: int)
    requires BoardOk(b)
    ensures Step(b, Deactivate(b, account, closing), now)
  {
    DeactivateKeeps(b, account, closing, now);
    DeactivateEvolves(b, account, closing, now);
  }

  // -- entries --

  lemma PostKeeps(b: Board, author: nat, thread: nat, asked: seq<nat>, assign: Option<AssignSpec>, replyTo: Option<nat>, now: int)
    requires BoardOk(b) && Post(b, author, thread, asked, assign, replyTo, now).Ok?
    ensures BoardOk(Post(b, author, thread, asked, assign, replyTo, now).value)
  {
    PostKeepsRows(b, author, thread, asked, assign, replyTo, now);
  }

  lemma PostKeepsRows(b: Board, author: nat, thread: nat, asked: seq<nat>, assign: Option<AssignSpec>, replyTo: Option<nat>, now: int)
    requires BoardOk(b) && Post(b, author, thread, asked, assign, replyTo, now).Ok?
    ensures RowsOk(Post(b, author, thread, asked, assign, replyTo, now).value)
  {
  }

  lemma PostEvolves(b: Board, author: nat, thread: nat, asked: seq<nat>, assign: Option<AssignSpec>, replyTo: Option<nat>, now: int)
    requires BoardOk(b) && Post(b, author, thread, asked, assign, replyTo, now).Ok?
    ensures Evolves(b, Post(b, author, thread, asked, assign, replyTo, now).value, now)
  {
  }

  lemma PostStep(b: Board, author: nat, thread: nat, asked: seq<nat>, assign: Option<AssignSpec>, replyTo: Option<nat>, now: int)
    requires BoardOk(b) && Post(b, author, thread, asked, assign, replyTo, now).Ok?
    ensures Step(b, Post(b, author, thread, asked, assign, replyTo, now).value, now)
  {
    PostKeeps(b, author, thread, asked, assign, replyTo, now);
    PostEvolves(b, author, thread, asked, assign, replyTo, now);
  }

  lemma HandleStep(b: Board, account: nat, thread: nat, entry: nat, now: int)
    requires BoardOk(b) && Handle(b, account, thread, entry).Ok?
    ensures Step(b, Handle(b, account, thread, entry).value, now)
  {
  }

  // -- every action, every run --

  lemma ActionStep(b: Board, action: Action, now: int)
    requires BoardOk(b) && Perform(b, action, now).Ok?
    ensures Step(b, Perform(b, action, now).value, now)
  {
    match action
    case Starting(creator) => StartStep(b, creator, now);
    case Joining(t, account, role) => AdmitStep(b, t, account, role, now);
    case Regrading(t, account, role) => RoleStep(b, t, account, role, now);
    case Ending(t, account) => EndStep(b, t, account, now);
    case Closing(t) => CloseStep(b, t, now);
    case Deactivating(account, closing) => DeactivateStep(b, account, closing, now);
    case Posting(author, t, asked, assign, replyTo) => PostStep(b, author, t, asked, assign, replyTo, now);
    case Handling(account, t, entry) => HandleStep(b, account, t, entry, now);
    case Taking(id, bot, work) =>
      if work.Some? {
        TakeAndDeliverStep(b, id, bot, work.value, now);
      } else {
        TakeStep(b, id, bot, now);
      }
    case Submitting(id, bot, payload) => SubmitStep(b, id, bot, payload, now);
    case Judging(id, bot, verdict) => JudgeStep(b, id, bot, verdict, now);
    case Dropping(id, bot) => DropStep(b, id, bot, now);
    case Voiding(id, bot) => VoidStep(b, id, bot, now);
    case Sweeping(late, unjudged) => RecoverStep(b, late, unjudged, now);
  }

  lemma CommitStep(b: Board, action: Action, now: int)
    requires BoardOk(b)
    ensures Step(b, Commit(b, action, now), now)
  {
    if Perform(b, action, now).Ok? {
      ActionStep(b, action, now);
    } else {
      Untouched(b, now);
    }
  }

  /** In every reachable state a delivery row means delivered was reached, and a verdict means it was judged. */
  lemma {:induction false} EveryRunIsOk(actions: seq<(Action, int)>)
    ensures BoardOk(Run(actions))
  {
    if actions != [] {
      var init, last := actions[..|actions| - 1], actions[|actions| - 1];
      EveryRunIsOk(init);
      CommitStep(Run(init), last.0, last.1);
    }
  }

  /** How often the assignment changed state over the last actions of a run. */
  function Changes(actions: seq<(Action, int)>, from: nat, i: nat): nat
    requires from <= |actions|
  {
    if |actions| <= from then 0
    else
      var init := actions[..|actions| - 1];
      var before, after := Run(init), Run(actions);
      Changes(init, from, i) + if i < |before.assigns| && i < |after.assigns| && before.assigns[i].state != after.assigns[i].state then 1 else 0
  }

  /**
   From the moment it exists, an assignment keeps its terms, a forfeited judgment stays
   forfeited and ends undecided, and its rank pays for every change of state: at most three.
   */
  lemma {:induction false} LifeOfAnAssignment(actions: seq<(Action, int)>, from: nat, i: nat)
    requires from <= |actions| && i < |Run(actions[..from]).assigns|
    ensures i < |Run(actions).assigns|
    ensures var a, z := Run(actions[..from]).assigns[i], Run(actions).assigns[i];
            && Terms(z) == Terms(a)
            && Changes(actions, from, i) + Rank(z.state) <= Rank(a.state) <= 3
            && (a.forfeited ==> z.forfeited && (z.state == Delivered || z.state == Undecided))
  {
    if |actions| == from {
      assert actions[..from] == actions;
      EveryRunIsOk(actions);
    } else {
      var init, last := actions[..|actions| - 1], actions[|actions| - 1];
      assert init[..from] == actions[..from];
      LifeOfAnAssignment(init, from, i);
      EveryRunIsOk(init);
      CommitStep(Run(init), last.0, last.1);
      var a, z := Run(init).assigns[i], Run(actions).assigns[i];
      assert Moved(a, JudgeDueAt(Run(init), i), z, last.1);
      if z.state != a.state {
        EveryEdgeFalls(a.state, z.state);
      }
    }
  }

  /** The delivery is written once, and what was delivered never changes. */
  lemma {:induction false} DeliveriesAreFinal(actions: seq<(Action, int)>, from: nat, i: nat)
    requires from <= |actions| && i in Run(actions[..from]).deliveries
    ensures i in Run(actions).deliveries
    ensures DeliveryKept(Run(actions[..from]).deliveries[i], Run(actions).deliveries[i])
  {
    if |actions| == from {
      assert actions[..from] == actions;
    } else {
      var init, last := actions[..|actions| - 1], actions[|actions| - 1];
      assert init[..from] == actions[..from];
      DeliveriesAreFinal(init, from, i);
      EveryRunIsOk(init);
      CommitStep(Run(init), last.0, last.1);
    }
  }

  // -- deadlines --

  /** While it is taken past its delivery deadline, time can only take it out, or its parties' departure. */
  ghost predicate LateOrOut(a: Assign, due: int) {
    a.state in {Taken, TimedOut, Voided} && (a.state == Taken ==> a.deliverDueAt == Some(due))
  }

  lemma LateStays(a: Assign, judgeDueAt: Option<int>, a': Assign, due: int, now: int)
    requires Moved(a, judgeDueAt, a', now) && LateOrOut(a, due) && due <= now
    ensures LateOrOut(a', due)
  {
  }

  /** Expiry beats handling: nothing taken past its deadline is ever delivered or dropped. */
  lemma {:induction false} ExpiryBeatsDelivery(actions: seq<(Action, int)>, from: nat, i: nat, due: int)
    requires from <= |actions| && i < |Run(actions[..from]).assigns|
    requires LateOrOut(Run(actions[..from]).assigns[i], due)
    requires forall k :: from <= k < |actions| ==> due <= actions[k].1
    ensures i < |Run(actions).assigns| && LateOrOut(Run(actions).assigns[i], due)
  {
    if |actions| == from {
      assert actions[..from] == actions;
    } else {
      var init, last := actions[..|actions| - 1], actions[|actions| - 1];
      assert init[..from] == actions[..from];
      ExpiryBeatsDelivery(init, from, i, due);
      EveryRunIsOk(init);
      CommitStep(Run(init), last.0, last.1);
      LateStays(Run(init).assigns[i], JudgeDueAt(Run(init), i), Run(actions).assigns[i], due, last.1);
    }
  }

  // -- closed rooms --

  /** Nothing in the room waits for anyone any more, except work already delivered. */
  ghost predicate Quiet(b: Board, thread: nat) {
    && thread < |b.open| && !b.open[thread]
    && (forall i :: 0 <= i < |b.assigns| ==> b.assigns[i].thread == thread ==> !Undelivered(b.assigns[i].state))
    && (forall i :: 0 <= i < |b.receipts| ==> b.receipts[i].thread == thread ==> b.receipts[i].state != Pending)
  }

  lemma CloseQuiets(b: Board, thread: nat)
    requires BoardOk(b) && CloseRoom(b, thread).Ok?
    ensures Quiet(CloseRoom(b, thread).value, thread)
  {
  }

  /** Only a post adds rows, and only to its own open room. */
  lemma NewRowsAreOpen(b: Board, action: Action, now: int)
    requires Perform(b, action, now).Ok?
    ensures var b' := Perform(b, action, now).value;
            && (forall i :: |b.assigns| <= i < |b'.assigns| ==> IsOpen(b, b'.assigns[i].thread))
            && (forall i :: |b.receipts| <= i < |b'.receipts| ==> IsOpen(b, b'.receipts[i].thread))
  {
    if action.Posting? {
      var b' := Perform(b, action, now).value;
      assert |b'.assigns| <= |b.assigns| + 1;
    }
  }

  lemma QuietStays(b: Board, action: Action, now: int, thread: nat)
    requires BoardOk(b) && Quiet(b, thread)
    ensures Quiet(Commit(b, action, now), thread)
  {
    CommitStep(b, action, now);
    var b' := Commit(b, action, now);
    if Perform(b, action, now).Ok? {
      NewRowsAreOpen(b, action, now);
    }
    forall i | 0 <= i < |b'.assigns| && b'.assigns[i].thread == thread ensures !Undelivered(b'.assigns[i].state) {
      if i < |b.assigns| {
        assert Moved(b.assigns[i], JudgeDueAt(b, i), b'.assigns[i], now);
      }
    }
    forall i | 0 <= i < |b'.receipts| && b'.receipts[i].thread == thread ensures b'.receipts[i].state != Pending {
      if i < |b.receipts| {
        assert ReceiptKept(b.receipts[i], b'.receipts[i]);
      }
    }
  }

  /** An explicitly closed room holds no pending receipt and no undelivered work, ever again. */
  lemma {:induction false} ClosedRoomStaysQuiet(actions: seq<(Action, int)>, from: nat, thread: nat)
    requires from < |actions| && actions[from].0 == Closing(thread)
    requires CloseRoom(Run(actions[..from]), thread).Ok?
    ensures Quiet(Run(actions), thread)
  {
    var init, last := actions[..|actions| - 1], actions[|actions| - 1];
    EveryRunIsOk(init);
    if |actions| == from + 1 {
      CloseQuiets(Run(init), thread);
    } else {
      assert init[..from] == actions[..from];
      ClosedRoomStaysQuiet(init, from, thread);
      QuietStays(Run(init), last.0, last.1, thread);
    }
  }

  /** Everything that still waits in the room waits for this account, or for work of this account. */
  predicate WaitsOnlyFor(b: Board, a: nat, thread: nat) {
    && (forall i :: 0 <= i < |b.receipts| && b.receipts[i].thread == thread && b.receipts[i].state == Pending ==>
          b.receipts[i].account == a)
    && (forall i :: 0 <= i < |b.assigns| && b.assigns[i].thread == thread && Undelivered(b.assigns[i].state) ==>
          b.assigns[i].assignee == a || b.assigns[i].creator == a)
  }

  /** Exactly when a room that a deactivation closes is left with nothing pending. */
  lemma CascadeQuietsExactly(b: Board, a: nat, closing: set<nat>, thread: nat)
    requires IsOpen(b, thread) && thread in closing
    ensures Quiet(Deactivate(b, a, closing), thread) <==> WaitsOnlyFor(b, a, thread)
  {
    var b' := Deactivate(b, a, closing);
    if !WaitsOnlyFor(b, a, thread) {
      if i :| 0 <= i < |b.receipts| && b.receipts[i].thread == thread && b.receipts[i].state == Pending && b.receipts[i].account != a {
        assert b'.receipts[i] == b.receipts[i];
      } else {
        var i :| 0 <= i < |b.assigns| && b.assigns[i].thread == thread && Undelivered(b.assigns[i].state)
                 && b.assigns[i].assignee != a && b.assigns[i].creator != a;
        assert b'.assigns[i] == b.assigns[i];
      }
    } else {
      forall i | 0 <= i < |b'.assigns| && b'.assigns[i].thread == thread ensures !Undelivered(b'.assigns[i].state) {
        assert b.assigns[i].thread == thread;
      }
      forall i | 0 <= i < |b'.receipts| && b'.receipts[i].thread == thread ensures b'.receipts[i].state != Pending {
        assert b.receipts[i].thread == thread;
      }
    }
  }

  /** The cascade closes a room without collecting what others owe in it. */
  lemma CascadeLeavesReceipts()
    ensures var b := Board([true], map[(0, 0) := R.Governor, (0, 1) := R.Speaker], [0], [], map[], [Receipt(0, 0, 1, Pending, 0)]);
            BoardOk(b) && !Quiet(Deactivate(b, 0, {0}), 0) && !Deactivate(b, 0, {0}).open[0]
  {
    var b := Board([true], map[(0, 0) := R.Governor, (0, 1) := R.Speaker], [0], [], map[], [Receipt(0, 0, 1, Pending, 0)]);
    assert Deactivate(b, 0, {0}).receipts[0].state == Pending;
    assert ReceiptOk(b, b.receipts[0]);
  }
}
