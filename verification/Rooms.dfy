/**
 Thread rooms under concurrency. Each transaction runs statement by statement, interleaved
 with every other in any order, under the row locks it has taken so far; a statement reads
 what is committed when it runs, and writes become visible at commit.
 */
module Rooms {
  import opened Results

  const MAX_MEMBERS: nat := 50
  const MAX_OPEN_ROOMS: nat := 100

  datatype Role = Governor | Speaker | Observer

  /** The committed tables: room status, membership rows by (room, account), active accounts. */
  datatype Hall = Hall(open: seq<bool>, members: map<(nat, nat), Role>, active: set<nat>)

  /** What one account asks of one room. The role of a join is the one its key carries. */
  datatype Intent =
    | Start
    | Join(role: Role)
    | Leave
    | Remove(target: nat)
    | SetRole(target: nat, role: Role)
    | Close

  /** The write a decided action is about to commit. */
  datatype Change =
    | Found
    | Admit(role: Role)
    | Assign(member: nat, role: Role)
    | Drop(member: nat)
    | Shut

  datatype Stage = NeedAccount | NeedRoom | Deciding | Ready(change: Change)

  /** The deactivation cascade: lock set by snapshot, rooms locked one at a time, decision, deletion. */
  datatype Phase =
    | NeedBot
    | NeedSnapshot
    | Locking(held: set<nat>, todo: set<nat>)
    | Decided(held: set<nat>, closing: set<nat>)
    | Deleted(held: set<nat>, closing: set<nat>)

  datatype Txn =
    | Acting(actor: nat, room: nat, intent: Intent, stage: Stage)
    | Cascading(account: nat, phase: Phase)

  datatype World = World(hall: Hall, txns: map<nat, Txn>)

  datatype Move =
    | Begin(id: nat, txn: Txn)
    | Advance(id: nat, pick: nat)
    | Abort(id: nat)
    | Enable(account: nat)

  // -- reads --

  predicate OpenRoom(h: Hall, r: nat) {
    r < |h.open| && h.open[r]
  }

  predicate Governs(h: Hall, r: nat, a: nat) {
    (r, a) in h.members && h.members[(r, a)] == Governor
  }

  function MembersOf(h: Hall, r: nat): set<nat> {
    set k | k in h.members && k.0 == r :: k.1
  }

  function Governors(h: Hall, r: nat): set<nat> {
    set k | k in h.members && k.0 == r && h.members[k] == Governor :: k.1
  }

  function OpenRoomsOf(h: Hall, a: nat): set<nat> {
    set k | k in h.members && k.1 == a && OpenRoom(h, k.0) :: k.0
  }

  function GovernedBy(h: Hall, a: nat): set<nat> {
    set k | k in h.members && k.1 == a && OpenRoom(h, k.0) && h.members[k] == Governor :: k.0
  }

  // -- locks --

  predicate HoldsRoom(t: Txn, r: nat) {
    match t
    case Acting(_, room, intent, stage) => room == r && intent != Start && (stage.Deciding? || stage.Ready?)
    case Cascading(_, phase) => (phase.Locking? || phase.Decided? || phase.Deleted?) && r in phase.held
  }

  predicate HoldsAccount(t: Txn, a: nat) {
    match t
    case Acting(actor, _, _, stage) => actor == a && !stage.NeedAccount?
    case Cascading(account, phase) => account == a && !phase.NeedBot?
  }

  predicate RoomFree(w: World, id: nat, r: nat) {
    forall j :: j in w.txns && j != id ==> !HoldsRoom(w.txns[j], r)
  }

  predicate AccountFree(w: World, id: nat, a: nat) {
    forall j :: j in w.txns && j != id ==> !HoldsAccount(w.txns[j], a)
  }

  /** The member row is locked by a cascade that has already deleted it. */
  predicate RowLocked(w: World, id: nat, a: nat) {
    exists j :: j in w.txns && j != id && w.txns[j].Cascading? && w.txns[j].account == a && w.txns[j].phase.Deleted?
  }

  // -- statements --

  /** The decision of an action, from the rows it reads under its locks. */
  function Decide(h: Hall, actor: nat, r: nat, intent: Intent): Option<Change> {
    var governed := OpenRoom(h, r) && Governs(h, r, actor);
    match intent
    case Start =>
      if |OpenRoomsOf(h, actor)| >= MAX_OPEN_ROOMS then None else Some(Found)
    case Join(role) =>
      if !OpenRoom(h, r) || (r, actor) in h.members || |MembersOf(h, r)| >= MAX_MEMBERS
         || |OpenRoomsOf(h, actor)| >= MAX_OPEN_ROOMS then None
      else Some(Admit(role))
    case Leave =>
      if (r, actor) !in h.members || (governed && |Governors(h, r)| <= 1) then None else Some(Drop(actor))
    case Remove(target) =>
      if !governed || (r, target) !in h.members || (Governs(h, r, target) && |Governors(h, r)| <= 1) then None
      else Some(Drop(target))
    case SetRole(target, role) =>
      if !governed || (r, target) !in h.members || h.members[(r, target)] == role
         || (Governs(h, r, target) && role != Governor && |Governors(h, r)| <= 1) then None
      else Some(Assign(target, role))
    case Close =>
      if governed then Some(Shut) else None
  }

  function Apply(h: Hall, actor: nat, r: nat, change: Change): Hall {
    match change
    case Found => h.(open := h.open + [true], members := h.members[(|h.open|, actor) := Governor])
    case Admit(role) => h.(members := h.members[(r, actor) := role])
    case Assign(m, role) => if (r, m) in h.members then h.(members := h.members[(r, m) := role]) else h
    case Drop(m) => h.(members := h.members - {(r, m)})
    case Shut => if r < |h.open| then h.(open := h.open[r := false]) else h
  }

  function Put(w: World, id: nat, t: Txn): World {
    w.(txns := w.txns[id := t])
  }

  /** Ends the transaction, leaving these tables committed. */
  function Finish(w: World, id: nat, h: Hall): World {
    World(h, w.txns - {id})
  }

  function Touched(change: Change, actor: nat): nat {
    match change case Assign(m, _) => m case Drop(m) => m case _ => actor
  }

  function AdvanceAction(w: World, id: nat, t: Txn): World
    requires t.Acting?
  {
    match t.stage
    case NeedAccount =>
      if !AccountFree(w, id, t.actor) then w
      else if t.actor !in w.hall.active then Finish(w, id, w.hall)
      else Put(w, id, t.(stage := if t.intent == Start then Deciding else NeedRoom))
    case NeedRoom =>
      if t.room >= |w.hall.open| then Finish(w, id, w.hall)
      else if !RoomFree(w, id, t.room) then w
      else Put(w, id, t.(stage := Deciding))
    case Deciding =>
      (match Decide(w.hall, t.actor, t.room, t.intent)
       case None => Finish(w, id, w.hall)
       case Some(change) => Put(w, id, t.(stage := Ready(change))))
    case Ready(change) =>
      if RowLocked(w, id, Touched(change, t.actor)) then w
      else Finish(w, id, Apply(w.hall, t.actor, t.room, change))
  }

  /** Rooms the account governs alone: they would be left without a governor. */
  function Orphaned(h: Hall, a: nat): set<nat> {
    set r | r in GovernedBy(h, a) && Governors(h, r) <= {a}
  }

  function Terminate(h: Hall, a: nat, closing: set<nat>): Hall {
    Hall(seq(|h.open|, r requires 0 <= r < |h.open| => h.open[r] && r !in closing),
         map k | k in h.members && k.1 != a :: h.members[k],
         h.active - {a})
  }

  function AdvanceCascade(w: World, id: nat, t: Txn, pick: nat): World
    requires t.Cascading?
  {
    var a := t.account;
    match t.phase
    case NeedBot => if AccountFree(w, id, a) then Put(w, id, t.(phase := NeedSnapshot)) else w
    case NeedSnapshot => Put(w, id, t.(phase := Locking({}, GovernedBy(w.hall, a))))
    case Locking(held, todo) =>
      if todo == {} then
        var closing := Orphaned(w.hall, a);
        if forall r :: r in closing ==> RoomFree(w, id, r)
        then Put(w, id, t.(phase := Decided(held + closing, closing))) else w
      else if pick in todo && RoomFree(w, id, pick) then Put(w, id, t.(phase := Locking(held + {pick}, todo - {pick})))
      else w
    case Decided(held, closing) => Put(w, id, t.(phase := Deleted(held, closing)))
    case Deleted(held, closing) => Finish(w, id, Terminate(w.hall, a, closing))
  }

  predicate Fresh(t: Txn) {
    (t.Acting? && t.stage == NeedAccount) || (t.Cascading? && t.phase == NeedBot)
  }

  function Step(w: World, move: Move): World {
    match move
    case Begin(id, txn) => if id !in w.txns && Fresh(txn) then Put(w, id, txn) else w
    case Advance(id, pick) =>
      if id !in w.txns then w
      else if w.txns[id].Acting? then AdvanceAction(w, id, w.txns[id])
      else AdvanceCascade(w, id, w.txns[id], pick)
    case Abort(id) => Finish(w, id, w.hall)
    case Enable(a) =>
      if forall j :: j in w.txns ==> !HoldsAccount(w.txns[j], a)
      then w.(hall := w.hall.(active := w.hall.active + {a})) else w
  }

  function Run(w: World, moves: seq<Move>): World {
    if moves == [] then w else Step(Run(w, moves[..|moves| - 1]), moves[|moves| - 1])
  }
}
