/**
 Who may do what in a room, read off its status and its member rows, and what every
 interleaving keeps of it: only a governor changes others or closes a room.
 */
module RoomAuthority {
  import opened Results
  import opened Rooms
  import opened RoomLaws
  import Sets

  predicate IsOpen(h: Hall, r: nat) {
    r < |h.open| && h.open[r]
  }

  predicate HasRow(h: Hall, r: nat, a: nat, role: Role) {
    (r, a) in h.members && h.members[(r, a)] == role
  }

  /** The member is the only governor of the room. */
  ghost predicate SoleGovernor(h: Hall, r: nat, a: nat) {
    HasRow(h, r, a, Governor) && forall k :: k in h.members && k.0 == r && h.members[k] == Governor ==> k.1 == a
  }

  lemma CountsGovernors(h: Hall, r: nat, a: nat)
    requires HasRow(h, r, a, Governor)
    ensures |Governors(h, r)| <= 1 <==> SoleGovernor(h, r, a)
  {
    assert a in Governors(h, r) by {
      assert (r, a) in h.members;
    }
    if SoleGovernor(h, r, a) {
      assert Governors(h, r) == {a};
    } else {
      var k :| k in h.members && k.0 == r && h.members[k] == Governor && k.1 != a;
      assert {a, k.1} <= Governors(h, r);
      Sets.SubsetSize({a, k.1}, Governors(h, r));
    }
  }

  // -- decisions --

  /** A governor of the open room removes any member except its last governor. */
  lemma RemoveExactly(h: Hall, actor: nat, r: nat, target: nat)
    ensures Decide(h, actor, r, Remove(target))
            == if IsOpen(h, r) && HasRow(h, r, actor, Governor) && (r, target) in h.members && !SoleGovernor(h, r, target)
               then Some(Drop(target)) else None
  {
    if HasRow(h, r, target, Governor) {
      CountsGovernors(h, r, target);
    }
  }

  /** A governor of the open room gives a member another role, but never demotes the last governor. */
  lemma SetRoleExactly(h: Hall, actor: nat, r: nat, target: nat, role: Role)
    ensures Decide(h, actor, r, SetRole(target, role))
            == if IsOpen(h, r) && HasRow(h, r, actor, Governor) && (r, target) in h.members && !HasRow(h, r, target, role)
                  && !SoleGovernor(h, r, target)
               then Some(Assign(target, role)) else None
  {
    if HasRow(h, r, target, Governor) {
      CountsGovernors(h, r, target);
    }
  }

  /** Only a governor closes the room, once. */
  lemma CloseExactly(h: Hall, actor: nat, r: nat)
    ensures Decide(h, actor, r, Close) == if IsOpen(h, r) && HasRow(h, r, actor, Governor) then Some(Shut) else None
  {
  }

  /** Any member leaves, the last governor only a closed room. */
  lemma LeaveExactly(h: Hall, actor: nat, r: nat)
    ensures Decide(h, actor, r, Leave)
            == if (r, actor) in h.members && !(IsOpen(h, r) && SoleGovernor(h, r, actor)) then Some(Drop(actor)) else None
  {
    if HasRow(h, r, actor, Governor) {
      CountsGovernors(h, r, actor);
    }
  }

  /** Whoever is no member yet joins an open room that holds fewer than 50, while in fewer than 100 open rooms. */
  lemma JoinExactly(h: Hall, actor: nat, r: nat, role: Role)
    ensures Decide(h, actor, r, Join(role))
            == if IsOpen(h, r) && (r, actor) !in h.members
                  && |set k | k in h.members && k.0 == r :: k.1| < 50
                  && |set k | k in h.members && k.1 == actor && IsOpen(h, k.0) :: k.0| < 100
               then Some(Admit(role)) else None
  {
    assert MembersOf(h, r) == set k | k in h.members && k.0 == r :: k.1;
    assert OpenRoomsOf(h, actor) == set k | k in h.members && k.1 == actor && IsOpen(h, k.0) :: k.0;
  }

  lemma StartExactly(h: Hall, actor: nat, r: nat)
    ensures Decide(h, actor, r, Start)
            == if |set k | k in h.members && k.1 == actor && IsOpen(h, k.0) :: k.0| < 100 then Some(Found) else None
  {
    assert OpenRoomsOf(h, actor) == set k | k in h.members && k.1 == actor && IsOpen(h, k.0) :: k.0;
  }

  // -- what a commit writes --

  /** Every member row but this one is as it was. */
  ghost predicate OthersAsBefore(h: Hall, h': Hall, r: nat, a: nat) {
    forall k :: k != (r, a) ==> (k in h'.members <==> k in h.members) && (k in h.members ==> h'.members[k] == h.members[k])
  }

  lemma CommitWrites(h: Hall, actor: nat, r: nat, change: Change)
    ensures var h' := Apply(h, actor, r, change);
            && h'.active == h.active
            && (match change
                case Found =>
                  h'.open == h.open + [true] && HasRow(h', |h.open|, actor, Governor) && OthersAsBefore(h, h', |h.open|, actor)
                case Admit(role) => h'.open == h.open && HasRow(h', r, actor, role) && OthersAsBefore(h, h', r, actor)
                case Assign(m, role) =>
                  && h'.open == h.open && OthersAsBefore(h, h', r, m)
                  && ((r, m) in h.members ==> HasRow(h', r, m, role)) && ((r, m) !in h.members ==> (r, m) !in h'.members)
                case Drop(m) => h'.open == h.open && (r, m) !in h'.members && OthersAsBefore(h, h', r, m)
                case Shut =>
                  && h'.members == h.members && |h'.open| == |h.open|
                  && (forall x :: 0 <= x < |h.open| ==> h'.open[x] == (h.open[x] && x != r)))
  {
  }

  /** A cascade takes the account's rows and activity, and closes the rooms it decided on. */
  lemma CascadeWrites(h: Hall, a: nat, closing: set<nat>)
    ensures var h' := Terminate(h, a, closing);
            && |h'.open| == |h.open| && (forall x :: 0 <= x < |h.open| ==> h'.open[x] == (h.open[x] && x !in closing))
            && (forall k :: k in h'.members <==> k in h.members && k.1 != a)
            && (forall k :: k in h'.members ==> h'.members[k] == h.members[k])
            && h'.active == h.active - {a}
  {
  }

  /** A cascade closes exactly the open rooms its account governs alone. */
  lemma OrphansExactly(h: Hall, a: nat, r: nat)
    ensures r in Orphaned(h, a) <==> IsOpen(h, r) && SoleGovernor(h, r, a)
  {
    if r in Orphaned(h, a) {
      assert r in GovernedBy(h, a);
      assert forall k :: k in h.members && k.0 == r && h.members[k] == Governor ==> k.1 in Governors(h, r);
    }
    if IsOpen(h, r) && SoleGovernor(h, r, a) {
      assert (r, a) in h.members && r in GovernedBy(h, a);
    }
  }

  // -- authority until the commit --

  /** What the change takes: nothing for one's own row and a new one, the governor's role for anything else. */
  predicate NeedsGovernor(actor: nat, change: Change) {
    change.Assign? || change.Shut? || (change.Drop? && change.member != actor)
  }

  ghost predicate RowsHaveRooms(h: Hall) {
    forall k :: k in h.members ==> k.0 < |h.open|
  }

  /** Locks are exclusive, decided closings are locked, and whoever decided over others still governs. */
  ghost predicate Authorised(w: World) {
    && Exclusive(w.txns) && RowsHaveRooms(w.hall)
    && forall j :: j in w.txns ==> TxnAuthorised(w.hall, w.txns[j])
  }

  ghost predicate TxnAuthorised(h: Hall, t: Txn) {
    match t
    case Acting(actor, room, intent, Ready(change)) =>
      && (change == Found <==> intent == Start)
      && (change.Admit? ==> room < |h.open| && (room, actor) !in h.members)
      && (NeedsGovernor(actor, change) ==> IsOpen(h, room) && HasRow(h, room, actor, Governor))
    case Cascading(_, Decided(held, closing)) => closing <= held
    case Cascading(_, Deleted(held, closing)) => closing <= held
    case _ => true
  }

  lemma PutAuthorised(w: World, id: nat, t: Txn)
    requires Authorised(w) && TxnAuthorised(w.hall, t)
    requires forall r :: HoldsRoom(t, r) ==> RoomFree(w, id, r)
    requires forall a :: HoldsAccount(t, a) ==> AccountFree(w, id, a)
    ensures Authorised(Put(w, id, t))
  {
    var w' := Put(w, id, t);
    forall i, j | i in w'.txns && j in w'.txns && i != j ensures Disjoint(w'.txns[i], w'.txns[j]) {
      if i != id && j != id {
        assert Disjoint(w.txns[i], w.txns[j]);
      }
    }
  }

  /** A commit elsewhere leaves the actor's row in its locked room alone. */
  lemma OtherStaysAuthorised(h: Hall, h': Hall, t: Txn)
    requires TxnAuthorised(h, t) && |h.open| <= |h'.open|
    requires forall r: nat, a: nat :: HoldsRoom(t, r) && HoldsAccount(t, a) ==>
               && (IsOpen(h, r) ==> IsOpen(h', r)) && ((r, a) in h'.members <==> (r, a) in h.members)
               && ((r, a) in h.members ==> h'.members[(r, a)] == h.members[(r, a)])
    ensures TxnAuthorised(h', t)
  {
    match t
    case Acting(actor, room, intent, Ready(change)) =>
      if intent != Start {
        assert HoldsRoom(t, room) && HoldsAccount(t, actor);
      }
    case _ =>
  }

  lemma ActionLeavesOthers(w: World, id: nat, j: nat)
    requires Authorised(w) && id in w.txns && j in w.txns && id != j && w.txns[id].Acting? && w.txns[id].stage.Ready?
    ensures var t := w.txns[id]; TxnAuthorised(Apply(w.hall, t.actor, t.room, t.stage.change), w.txns[j])
  {
    var t, other := w.txns[id], w.txns[j];
    var h' := Apply(w.hall, t.actor, t.room, t.stage.change);
    CommitWrites(w.hall, t.actor, t.room, t.stage.change);
    assert Disjoint(t, other) && TxnAuthorised(w.hall, t);
    assert HoldsAccount(t, t.actor);
    assert t.stage.change != Found ==> HoldsRoom(t, t.room);
    OtherStaysAuthorised(w.hall, h', other);
  }

  lemma CascadeLeavesOthers(w: World, id: nat, j: nat)
    requires Authorised(w) && id in w.txns && j in w.txns && id != j && w.txns[id].Cascading? && w.txns[id].phase.Deleted?
    ensures var t := w.txns[id]; TxnAuthorised(Terminate(w.hall, t.account, t.phase.closing), w.txns[j])
  {
    var t, other := w.txns[id], w.txns[j];
    CascadeWrites(w.hall, t.account, t.phase.closing);
    assert Disjoint(t, other) && TxnAuthorised(w.hall, t);
    assert HoldsAccount(t, t.account);
    assert forall r :: r in t.phase.closing ==> HoldsRoom(t, r);
    OtherStaysAuthorised(w.hall, Terminate(w.hall, t.account, t.phase.closing), other);
  }

  lemma HeldStaysFree(w: World, id: nat)
    requires Exclusive(w.txns) && id in w.txns
    ensures forall r :: HoldsRoom(w.txns[id], r) ==> RoomFree(w, id, r)
    ensures forall a :: HoldsAccount(w.txns[id], a) ==> AccountFree(w, id, a)
  {
    HeldIsFree(w, id);
  }

  /** The decision is authorised when it is made. */
  lemma DecisionIsAuthorised(h: Hall, t: Txn)
    requires t.Acting? && Decide(h, t.actor, t.room, t.intent).Some?
    ensures TxnAuthorised(h, t.(stage := Ready(Decide(h, t.actor, t.room, t.intent).value)))
  {
    match t.intent
    case Remove(target) => RemoveExactly(h, t.actor, t.room, target);
    case SetRole(target, role) => SetRoleExactly(h, t.actor, t.room, target, role);
    case Close => CloseExactly(h, t.actor, t.room);
    case Leave => LeaveExactly(h, t.actor, t.room);
    case Join(role) => JoinExactly(h, t.actor, t.room, role);
    case Start => StartExactly(h, t.actor, t.room);
  }

  lemma ActionStaysAuthorised(w: World, id: nat)
    requires Authorised(w) && id in w.txns && w.txns[id].Acting?
    ensures Authorised(AdvanceAction(w, id, w.txns[id]))
  {
    var t := w.txns[id];
    HeldStaysFree(w, id);
    match t.stage
    case NeedAccount =>
      if AccountFree(w, id, t.actor) && t.actor in w.hall.active {
        PutAuthorised(w, id, t.(stage := if t.intent == Start then Deciding else NeedRoom));
      }
    case NeedRoom =>
      if t.room < |w.hall.open| && RoomFree(w, id, t.room) {
        assert forall a :: HoldsAccount(t.(stage := Deciding), a) ==> HoldsAccount(t, a);
        PutAuthorised(w, id, t.(stage := Deciding));
      }
    case Deciding =>
      if Decide(w.hall, t.actor, t.room, t.intent).Some? {
        DecisionIsAuthorised(w.hall, t);
        var next := t.(stage := Ready(Decide(w.hall, t.actor, t.room, t.intent).value));
        assert forall r :: HoldsRoom(next, r) ==> HoldsRoom(t, r);
        assert forall a :: HoldsAccount(next, a) ==> HoldsAccount(t, a);
        PutAuthorised(w, id, next);
      }
    case Ready(change) =>
      forall j | j in w.txns && j != id ensures TxnAuthorised(Apply(w.hall, t.actor, t.room, change), w.txns[j]) {
        ActionLeavesOthers(w, id, j);
      }
  }

  lemma CascadeStaysAuthorised(w: World, id: nat, pick: nat)
    requires Authorised(w) && id in w.txns && w.txns[id].Cascading?
    ensures Authorised(AdvanceCascade(w, id, w.txns[id], pick))
  {
    var t := w.txns[id];
    HeldStaysFree(w, id);
    match t.phase
    case NeedBot =>
      if AccountFree(w, id, t.account) {
        PutAuthorised(w, id, t.(phase := NeedSnapshot));
      }
    case NeedSnapshot =>
      var next := t.(phase := Locking({}, GovernedBy(w.hall, t.account)));
      assert forall a :: HoldsAccount(next, a) ==> HoldsAccount(t, a);
      PutAuthorised(w, id, next);
    case Locking(held, todo) =>
      assert HoldsAccount(t, t.account) && forall r :: r in held ==> HoldsRoom(t, r);
      if todo == {} {
        var closing := Orphaned(w.hall, t.account);
        if forall r :: r in closing ==> RoomFree(w, id, r) {
          PutAuthorised(w, id, t.(phase := Decided(held + closing, closing)));
        }
      } else if pick in todo && RoomFree(w, id, pick) {
        PutAuthorised(w, id, t.(phase := Locking(held + {pick}, todo - {pick})));
      }
    case Decided(held, closing) =>
      var next := t.(phase := Deleted(held, closing));
      assert forall r :: HoldsRoom(next, r) ==> HoldsRoom(t, r);
      assert forall a :: HoldsAccount(next, a) ==> HoldsAccount(t, a);
      PutAuthorised(w, id, next);
    case Deleted(held, closing) =>
      forall j | j in w.txns && j != id ensures TxnAuthorised(Terminate(w.hall, t.account, closing), w.txns[j]) {
        CascadeLeavesOthers(w, id, j);
      }
  }

  lemma StepStaysAuthorised(w: World, move: Move)
    requires Authorised(w)
    ensures Authorised(Step(w, move))
  {
    match move
    case Begin(id, txn) =>
      if id !in w.txns && Fresh(txn) {
        PutAuthorised(w, id, txn);
      }
    case Advance(id, pick) =>
      if id in w.txns {
        if w.txns[id].Acting? {
          ActionStaysAuthorised(w, id);
        } else {
          CascadeStaysAuthorised(w, id, pick);
        }
      }
    case Abort(id) =>
    case Enable(a) =>
      forall j | j in w.txns ensures TxnAuthorised(Step(w, move).hall, w.txns[j]) {
        OtherStaysAuthorised(w.hall, Step(w, move).hall, w.txns[j]);
      }
  }

  /** Whatever interleaves, promotions that overtake cascades included. */
  lemma {:induction false} EveryRunIsAuthorised(h: Hall, moves: seq<Move>)
    requires RowsHaveRooms(h)
    ensures Authorised(Run(World(h, map[]), moves))
  {
    if moves != [] {
      EveryRunIsAuthorised(h, moves[..|moves| - 1]);
      StepStaysAuthorised(Run(World(h, map[]), moves[..|moves| - 1]), moves[|moves| - 1]);
    }
  }

  // -- who changes what --

  /** No row of anyone else in that room moved, no role rose, and no room closed. */
  ghost predicate OnlyOwnRow(h: Hall, h': Hall, r: nat, a: nat) {
    && (forall k :: k in h.members && k != (r, a) ==> k in h'.members && h'.members[k] == h.members[k])
    && ((r, a) in h.members && (r, a) in h'.members ==> h'.members[(r, a)] == h.members[(r, a)])
    && (forall k :: k in h'.members && k !in h.members ==> k.1 == a)
    && (forall x :: 0 <= x < |h.open| ==> x < |h'.open| && h'.open[x] == h.open[x])
  }

  /**
   In every run from idle tables, whatever an action of someone who does not govern its room
   does to the tables concerns the actor's own row there, or a row new to it.
   */
  lemma OnlyGovernorsGovern(h: Hall, moves: seq<Move>, id: nat, pick: nat)
    requires RowsHaveRooms(h)
    requires var w := Run(World(h, map[]), moves);
             id in w.txns && w.txns[id].Acting? && !HasRow(w.hall, w.txns[id].room, w.txns[id].actor, Governor)
    ensures var w := Run(World(h, map[]), moves);
            OnlyOwnRow(w.hall, Step(w, Advance(id, pick)).hall, w.txns[id].room, w.txns[id].actor)
  {
    EveryRunIsAuthorised(h, moves);
    AuthorisedStep(Run(World(h, map[]), moves), id, pick);
  }

  lemma AuthorisedStep(w: World, id: nat, pick: nat)
    requires Authorised(w) && id in w.txns && w.txns[id].Acting? && !HasRow(w.hall, w.txns[id].room, w.txns[id].actor, Governor)
    ensures OnlyOwnRow(w.hall, Step(w, Advance(id, pick)).hall, w.txns[id].room, w.txns[id].actor)
  {
    var t := w.txns[id];
    assert TxnAuthorised(w.hall, t);
    if t.stage.Ready? {
      CommitWrites(w.hall, t.actor, t.room, t.stage.change);
    }
  }

  /** An action touches the room it names, or the one it founds, and no other. */
  lemma ActionsStayInTheirRoom(w: World, id: nat, pick: nat, r: nat)
    requires id in w.txns && w.txns[id].Acting? && r < |w.hall.open| && r != w.txns[id].room && RowsHaveRooms(w.hall)
    ensures var h' := Step(w, Advance(id, pick)).hall;
            && r < |h'.open| && h'.open[r] == w.hall.open[r]
            && forall a: nat :: ((r, a) in h'.members <==> (r, a) in w.hall.members)
                           && ((r, a) in w.hall.members ==> h'.members[(r, a)] == w.hall.members[(r, a)])
  {
    if w.txns[id].stage.Ready? {
      CommitWrites(w.hall, w.txns[id].actor, w.txns[id].room, w.txns[id].stage.change);
    }
  }

  /** Starting, aborting, enabling and cascades that have not committed leave rooms and members as they are. */
  lemma OnlyCommitsMoveRooms(w: World, move: Move)
    requires move.Advance? && move.id in w.txns && w.txns[move.id].Cascading? ==> !w.txns[move.id].phase.Deleted?
    requires move.Advance? && move.id in w.txns && w.txns[move.id].Acting? ==> !w.txns[move.id].stage.Ready?
    ensures Step(w, move).hall.open == w.hall.open && Step(w, move).hall.members == w.hall.members
    ensures w.hall.active <= Step(w, move).hall.active
  {
  }
}
