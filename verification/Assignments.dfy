/**
 Room assignments and receipts: work asked for in a room, taken, delivered and judged under
 deadlines, and collected when a membership or the room ends. Every transition is a guarded
 update of one row; a guard that does not match fails the action as a whole.
 */
module Assignments {
  import opened Results
  import opened Rooms

  const MIN_DUE: int := 60
  const MAX_DUE: int := 604800
  const DEFAULT_DUE: int := 86400

  datatype Work = Offered | Taken | Delivered | Adopted | Refused | Undecided | Dropped | TimedOut | Voided

  datatype Assign = Assign(
    thread: nat, entry: nat, creator: nat, assignee: nat, deliverDue: int, judgeDue: int,
    state: Work, takenAt: Option<int>, deliverDueAt: Option<int>, forfeited: bool)

  datatype Verdict = Adopt | Refuse

  /** The single delivery of an assignment; the verdict is mirrored onto it. */
  datatype Delivery = Delivery(payload: string, submittedAt: int, judgeDueAt: int, verdict: Option<Verdict>)

  datatype ReceiptState = Pending | Fulfilled | Withdrawn

  datatype Receipt = Receipt(thread: nat, entry: nat, account: nat, state: ReceiptState, createdAt: int)

  /** Room status and members, entries by the room they are in, and the obligations they created. */
  datatype Board = Board(
    open: seq<bool>, members: map<(nat, nat), Role>, entries: seq<nat>,
    assigns: seq<Assign>, deliveries: map<nat, Delivery>, receipts: seq<Receipt>)

  predicate Undelivered(s: Work) {
    s == Offered || s == Taken
  }

  predicate Speaks(b: Board, thread: nat, account: nat) {
    (thread, account) in b.members && b.members[(thread, account)] != Observer
  }

  predicate IsOpen(b: Board, thread: nat) {
    thread < |b.open| && b.open[thread]
  }

  // -- row updates --

  function Fulfilling(r: Receipt, entry: nat, account: nat): Receipt {
    if r.entry == entry && r.account == account && r.state == Pending then r.(state := Fulfilled) else r
  }

  /** Ends a pending receipt; a receipt already ended stays as it is. */
  function FulfillReceipt(b: Board, entry: nat, account: nat): Board {
    b.(receipts := seq(|b.receipts|, i requires 0 <= i < |b.receipts| => Fulfilling(b.receipts[i], entry, account)))
  }

  predicate OwesIn(r: Receipt, thread: Option<nat>, account: Option<nat>) {
    r.state == Pending && (thread.None? || r.thread == thread.value) && (account.None? || r.account == account.value)
  }

  /** Collects pending receipts: of one member in a room, of a whole room, or of one account everywhere. */
  function WithdrawReceipts(b: Board, thread: Option<nat>, account: Option<nat>): Board {
    b.(receipts := seq(|b.receipts|, i requires 0 <= i < |b.receipts| =>
         if OwesIn(b.receipts[i], thread, account) then b.receipts[i].(state := Withdrawn) else b.receipts[i]))
  }

  predicate Concerns(a: Assign, thread: Option<nat>, account: Option<nat>) {
    && (thread.None? || a.thread == thread.value)
    && (account.None? || a.assignee == account.value || a.creator == account.value)
  }

  /** Voids undelivered work: a departing member's on both sides, or a whole room's. */
  function VoidUndelivered(b: Board, thread: Option<nat>, account: Option<nat>): Board {
    b.(assigns := seq(|b.assigns|, i requires 0 <= i < |b.assigns| =>
         if Undelivered(b.assigns[i].state) && Concerns(b.assigns[i], thread, account)
         then b.assigns[i].(state := Voided) else b.assigns[i]))
  }

  /** A creator whose membership ended may not judge again. */
  function ForfeitJudgments(b: Board, thread: Option<nat>, creator: nat): Board {
    b.(assigns := seq(|b.assigns|, i requires 0 <= i < |b.assigns| =>
         if b.assigns[i].creator == creator && b.assigns[i].state == Delivered && (thread.None? || b.assigns[i].thread == thread.value)
         then b.assigns[i].(forfeited := true) else b.assigns[i]))
  }

  /** Writes the delivery row, then moves taken to delivered; no second delivery can be written. */
  function InsertDelivery(b: Board, id: nat, payload: string, now: int): Result<Board> {
    if id >= |b.assigns| || id in b.deliveries || b.assigns[id].state != Taken then Err(InvalidState)
    else Ok(b.(deliveries := b.deliveries[id := Delivery(payload, now, now + b.assigns[id].judgeDue, None)],
               assigns := b.assigns[id := b.assigns[id].(state := Delivered)]))
  }

  // -- actions --

  datatype AssignSpec = AssignSpec(assignee: nat, deliverDue: int, judgeDue: int)

  function Defaulted(due: int): int {
    if due == 0 then DEFAULT_DUE else due
  }

  function NewReceipts(thread: nat, entry: nat, asked: seq<nat>, now: int): seq<Receipt> {
    seq(|asked|, i requires 0 <= i < |asked| => Receipt(thread, entry, asked[i], Pending, now))
  }

  function AddAssign(b: Board, thread: nat, entry: nat, author: nat, spec: AssignSpec): Result<Board> {
    var d, j := Defaulted(spec.deliverDue), Defaulted(spec.judgeDue);
    var _ :- Need(spec.assignee == author || Speaks(b, thread, spec.assignee), ValidationFailed);
    var _ :- Need(MIN_DUE <= d <= MAX_DUE && MIN_DUE <= j <= MAX_DUE, ValidationFailed);
    Ok(b.(assigns := b.assigns + [Assign.Assign(thread, entry, author, spec.assignee, d, j, Offered, None, None, false)]))
  }

  /** One entry with the receipts it asks for, the assignment it may carry, and the receipt it may answer. */
  function Post(b: Board, author: nat, thread: nat, asked: seq<nat>, assign: Option<AssignSpec>, replyTo: Option<nat>, now: int): Result<Board> {
    var _ :- Need(IsOpen(b, thread) && Speaks(b, thread, author), ValidationFailed);
    var _ :- Need(forall i :: 0 <= i < |asked| ==> asked[i] != author && Speaks(b, thread, asked[i]), ValidationFailed);
    var _ :- Need(forall i, j :: 0 <= i < j < |asked| ==> asked[i] != asked[j], ValidationFailed);
    var _ :- Need(replyTo.Some? ==> replyTo.value < |b.entries| && b.entries[replyTo.value] == thread, ValidationFailed);
    var entry := |b.entries|;
    var posted := b.(entries := b.entries + [thread], receipts := b.receipts + NewReceipts(thread, entry, asked, now));
    var withWork :- if assign.Some? then AddAssign(posted, thread, entry, author, assign.value) else Ok(posted);
    Ok(if replyTo.Some? then FulfillReceipt(withWork, replyTo.value, author) else withWork)
  }

  function Handle(b: Board, account: nat, thread: nat, entry: nat): Result<Board> {
    var _ :- Need((thread, account) in b.members && IsOpen(b, thread), ValidationFailed);
    var _ :- Need(exists i :: 0 <= i < |b.receipts| && b.receipts[i].entry == entry && b.receipts[i].thread == thread
                              && b.receipts[i].account == account && b.receipts[i].state == Pending, InvalidState);
    Ok(FulfillReceipt(b, entry, account))
  }

  /** The assignment, if the caller is a member of its room. */
  function Loaded(b: Board, id: nat, bot: nat): Result<Assign> {
    if id >= |b.assigns| then Err(NotFound)
    else if (b.assigns[id].thread, bot) !in b.members then Err(NotOwner)
    else Ok(b.assigns[id])
  }

  /** One clock for the inline guard and the sweeper. */
  predicate DeadlinePassed(b: Board, id: nat, now: int)
    requires id < |b.assigns|
  {
    if b.assigns[id].state == Taken then b.assigns[id].deliverDueAt.Some? && b.assigns[id].deliverDueAt.value <= now
    else id in b.deliveries && b.deliveries[id].judgeDueAt <= now
  }

  /** Taking starts the delivery clock and answers the carrying entry; with work at hand it delivers too. */
  function Take(b: Board, id: nat, bot: nat, payload: Option<string>, now: int): Result<Board> {
    var a :- Loaded(b, id, bot);
    var _ :- Need(a.assignee == bot, NotOwner);
    var _ :- Need(a.state == Offered, InvalidState);
    var taken := b.(assigns := b.assigns[id := a.(state := Taken, takenAt := Some(now), deliverDueAt := Some(now + a.deliverDue))]);
    var answered := FulfillReceipt(taken, a.entry, bot);
    if payload.Some? then InsertDelivery(answered, id, payload.value, now) else Ok(answered)
  }

  function Submit(b: Board, id: nat, bot: nat, payload: string, now: int): Result<Board> {
    var a :- Loaded(b, id, bot);
    var _ :- Need(a.assignee == bot, NotOwner);
    var _ :- Need(!DeadlinePassed(b, id, now), InvalidState);
    var _ :- Need(a.state == Taken, InvalidState);
    InsertDelivery(b, id, payload, now)
  }

  function Judge(b: Board, id: nat, bot: nat, verdict: Verdict, now: int): Result<Board> {
    var a :- Loaded(b, id, bot);
    var _ :- Need(a.creator == bot, NotOwner);
    var _ :- Need(!DeadlinePassed(b, id, now), InvalidState);
    var _ :- Need(a.state == Delivered, InvalidState);
    var _ :- Need(!a.forfeited, NotOwner);
    var judged := if verdict == Adopt then Adopted else Refused;
    Ok(b.(assigns := b.assigns[id := a.(state := judged)],
          deliveries := if id in b.deliveries then b.deliveries[id := b.deliveries[id].(verdict := Some(verdict))] else b.deliveries))
  }

  function DropWork(b: Board, id: nat, bot: nat, now: int): Result<Board> {
    var a :- Loaded(b, id, bot);
    var _ :- Need(a.assignee == bot, NotOwner);
    var _ :- Need(!DeadlinePassed(b, id, now), InvalidState);
    var _ :- Need(a.state == Taken, InvalidState);
    Ok(b.(assigns := b.assigns[id := a.(state := Dropped)]))
  }

  function VoidWork(b: Board, id: nat, bot: nat): Result<Board> {
    var a :- Loaded(b, id, bot);
    var _ :- Need(a.creator == bot, NotOwner);
    var _ :- Need(Undelivered(a.state), InvalidState);
    Ok(b.(assigns := b.assigns[id := a.(state := Voided)]))
  }

  /** The sweeper's two statements; each takes any of the rows that are due. */
  function Recover(b: Board, late: set<nat>, unjudged: set<nat>, now: int): Board {
    var timedOut := seq(|b.assigns|, i requires 0 <= i < |b.assigns| =>
      if i in late && b.assigns[i].state == Taken && DeadlinePassed(b, i, now)
      then b.assigns[i].(state := TimedOut) else b.assigns[i]);
    b.(assigns := seq(|timedOut|, i requires 0 <= i < |timedOut| =>
         if i in unjudged && timedOut[i].state == Delivered && i in b.deliveries && b.deliveries[i].judgeDueAt <= now
         then timedOut[i].(state := Undecided) else timedOut[i]))
  }

  // -- memberships and rooms --

  function OpenRoomFor(b: Board, creator: nat): Board {
    b.(open := b.open + [true], members := b.members[(|b.open|, creator) := Governor])
  }

  function Admit(b: Board, thread: nat, account: nat, role: Role): Result<Board> {
    var _ :- Need(IsOpen(b, thread) && (thread, account) !in b.members, ValidationFailed);
    Ok(b.(members := b.members[(thread, account) := role]))
  }

  /** A demotion to observer collects the member's pending receipts. */
  function ChangeRole(b: Board, thread: nat, account: nat, role: Role): Result<Board> {
    var _ :- Need(IsOpen(b, thread) && (thread, account) in b.members, ValidationFailed);
    var collected := if role == Observer then WithdrawReceipts(b, Some(thread), Some(account)) else b;
    Ok(collected.(members := collected.members[(thread, account) := role]))
  }

  /** Leaving and removal: undelivered work void on both sides, judgments forfeited, receipts collected. */
  function EndMembership(b: Board, thread: nat, account: nat): Board {
    var voided := VoidUndelivered(b, Some(thread), Some(account));
    var forfeited := ForfeitJudgments(voided, Some(thread), account);
    var collected := WithdrawReceipts(forfeited, Some(thread), Some(account));
    collected.(members := collected.members - {(thread, account)})
  }

  /** The explicit close: undelivered work void, every pending receipt collected, room closed. */
  function CloseRoom(b: Board, thread: nat): Result<Board> {
    var _ :- Need(IsOpen(b, thread), InvalidState);
    var voided := VoidUndelivered(b, Some(thread), None);
    var collected := WithdrawReceipts(voided, Some(thread), None);
    Ok(collected.(open := collected.open[thread := false]))
  }

  /** The deactivation cascade: some rooms close, and everything of the account ends everywhere. */
  function Deactivate(b: Board, account: nat, closing: set<nat>): Board {
    var shut := b.(open := seq(|b.open|, i requires 0 <= i < |b.open| => b.open[i] && i !in closing));
    var collected := WithdrawReceipts(shut, None, Some(account));
    var voided := VoidUndelivered(collected, None, Some(account));
    var forfeited := ForfeitJudgments(voided, None, account);
    forfeited.(members := map k | k in forfeited.members && k.1 != account :: forfeited.members[k])
  }

  // -- runs --

  datatype Action =
    | Starting(creator: nat)
    | Joining(thread: nat, account: nat, role: Role)
    | Regrading(thread: nat, account: nat, role: Role)
    | Ending(thread: nat, account: nat)
    | Closing(thread: nat)
    | Deactivating(account: nat, closing: set<nat>)
    | Posting(author: nat, thread: nat, asked: seq<nat>, assign: Option<AssignSpec>, replyTo: Option<nat>)
    | Handling(account: nat, thread: nat, entry: nat)
    | Taking(id: nat, bot: nat, work: Option<string>)
    | Submitting(id: nat, bot: nat, payload: string)
    | Judging(id: nat, bot: nat, verdict: Verdict)
    | Dropping(id: nat, bot: nat)
    | Voiding(id: nat, bot: nat)
    | Sweeping(late: set<nat>, unjudged: set<nat>)

  function Perform(b: Board, action: Action, now: int): Result<Board> {
    match action
    case Starting(creator) => Ok(OpenRoomFor(b, creator))
    case Joining(t, account, role) => Admit(b, t, account, role)
    case Regrading(t, account, role) => ChangeRole(b, t, account, role)
    case Ending(t, account) => Ok(EndMembership(b, t, account))
    case Closing(t) => CloseRoom(b, t)
    case Deactivating(account, closing) => Ok(Deactivate(b, account, closing))
    case Posting(author, t, asked, assign, replyTo) => Post(b, author, t, asked, assign, replyTo, now)
    case Handling(account, t, entry) => Handle(b, account, t, entry)
    case Taking(id, bot, work) => Take(b, id, bot, work, now)
    case Submitting(id, bot, payload) => Submit(b, id, bot, payload, now)
    case Judging(id, bot, verdict) => Judge(b, id, bot, verdict, now)
    case Dropping(id, bot) => DropWork(b, id, bot, now)
    case Voiding(id, bot) => VoidWork(b, id, bot)
    case Sweeping(late, unjudged) => Ok(Recover(b, late, unjudged, now))
  }

  function Commit(b: Board, action: Action, now: int): Board {
    match Perform(b, action, now) case Ok(next) => next case Err(_) => b
  }

  const EMPTY_BOARD := Board([], map[], [], [], map[], [])

  function Run(actions: seq<(Action, int)>): Board {
    if actions == [] then EMPTY_BOARD
    else Commit(Run(actions[..|actions| - 1]), actions[|actions| - 1].0, actions[|actions| - 1].1)
  }
}
