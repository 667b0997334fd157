/** What every interleaving of room transactions keeps: an open room always has a governor. */
module RoomLaws {
  import opened Results
  import opened Rooms
  import Sets

  // -- invariant --

  ghost predicate HasGovernor(h: Hall, r: nat) {
    exists a :: Governs(h, r, a)
  }

  /** Every open room has a governor. */
  ghost predicate Governed(h: Hall) {
    forall r :: OpenRoom(h, r) ==> HasGovernor(h, r)
  }

  ghost predicate OtherGovernor(h: Hall, r: nat, a: nat) {
    exists b :: b != a && Governs(h, r, b)
  }

  ghost predicate Replaceable(h: Hall, r: nat, a: nat) {
    OpenRoom(h, r) && Governs(h, r, a) ==> OtherGovernor(h, r, a)
  }

  ghost predicate ActionStands(h: Hall, actor: nat, room: nat, change: Change) {
    match change
    case Found => |OpenRoomsOf(h, actor)| < MAX_OPEN_ROOMS
    case Admit(_) =>
      |OpenRoomsOf(h, actor)| < MAX_OPEN_ROOMS && |MembersOf(h, room)| < MAX_MEMBERS && actor !in MembersOf(h, room)
    case Drop(m) => Replaceable(h, room, m)
    case Assign(m, role) => role != Governor ==> Replaceable(h, room, m)
    case Shut => true
  }

  ghost predicate CascadeStands(h: Hall, a: nat, held: set<nat>, closing: set<nat>) {
    closing <= held && forall r :: r in held && r !in closing ==> Replaceable(h, r, a)
  }

  /** What a transaction relies on between its decision and its commit. */
  ghost predicate DecisionStands(h: Hall, t: Txn) {
    match t
    case Acting(actor, room, intent, Ready(change)) =>
      (change == Found <==> intent == Start) && ActionStands(h, actor, room, change)
    case Cascading(a, Decided(held, closing)) => CascadeStands(h, a, held, closing)
    case Cascading(a, Deleted(held, closing)) => CascadeStands(h, a, held, closing)
    case _ => true
  }

  /** A cascade's lock set covers every open room its account governs. */
  ghost predicate Covered(h: Hall, t: Txn) {
    match t
    case Cascading(a, Locking(held, todo)) => GovernedBy(h, a) <= held + todo
    case Cascading(a, Decided(held, _)) => GovernedBy(h, a) <= held
    case Cascading(a, Deleted(held, _)) => GovernedBy(h, a) <= held
    case _ => true
  }

  /** Locked rooms exist, and whoever acts is active. */
  ghost predicate Grounded(h: Hall, t: Txn) {
    && (forall r: nat :: HoldsRoom(t, r) ==> r < |h.open|)
    && (t.Cascading? && t.phase.Locking? ==> forall r: nat :: r in t.phase.todo ==> r < |h.open|)
    && (t.Acting? && !t.stage.NeedAccount? ==> t.actor in h.active)
  }

  ghost predicate TxnOk(h: Hall, t: Txn) {
    DecisionStands(h, t) && Grounded(h, t)
  }

  ghost predicate Disjoint(s: Txn, t: Txn) {
    && (forall r :: !(HoldsRoom(s, r) && HoldsRoom(t, r)))
    && (forall a :: !(HoldsAccount(s, a) && HoldsAccount(t, a)))
  }

  ghost predicate Exclusive(txns: map<nat, Txn>) {
    forall i, j :: i in txns && j in txns && i != j ==> Disjoint(txns[i], txns[j])
  }

  /** Members are active accounts in rooms that exist, within both caps. */
  ghost predicate MembersOk(h: Hall) {
    && (forall k :: k in h.members ==> k.0 < |h.open| && k.1 in h.active)
    && (forall r: nat :: |MembersOf(h, r)| <= MAX_MEMBERS)
    && (forall a: nat :: |OpenRoomsOf(h, a)| <= MAX_OPEN_ROOMS)
  }

  ghost predicate Consistent(w: World) {
    && Governed(w.hall)
    && MembersOk(w.hall)
    && Exclusive(w.txns)
    && (forall j :: j in w.txns ==> TxnOk(w.hall, w.txns[j]))
  }

  ghost predicate AllCovered(w: World) {
    forall j :: j in w.txns ==> Covered(w.hall, w.txns[j])
  }

  ghost predicate Invariant(w: World) {
    Consistent(w) && AllCovered(w)
  }

  /** The rooms a cascade holds or is still to lock. */
  function LockSet(p: Phase): set<nat> {
    match p
    case Locking(held, todo) => held + todo
    case Decided(held, _) => held
    case Deleted(held, _) => held
    case _ => {}
  }

  /** A cascade of the account has taken its lock set, and the room is not in it. */
  predicate Misses(t: Txn, m: nat, room: nat) {
    && t.Cascading? && t.account == m && (t.phase.Locking? || t.phase.Decided? || t.phase.Deleted?)
    && room !in LockSet(t.phase)
  }

  /**
   The transaction is about to make a member of an open room its governor, while that member's
   cascade has taken a lock set without the room.
   */
  predicate Escapes(w: World, id: nat) {
    && id in w.txns
    && (match w.txns[id]
        case Acting(_, room, _, Ready(Assign(m, Governor))) =>
          && !RowLocked(w, id, m) && OpenRoom(w.hall, room) && (room, m) in w.hall.members
          && exists j :: j in w.txns && Misses(w.txns[j], m, room)
        case _ => false)
  }

  predicate Overtakes(w: World, move: Move) {
    move.Advance? && Escapes(w, move.id)
  }

  // -- sets --

  lemma TwoGovernors(h: Hall, r: nat, a: nat)
    requires Governs(h, r, a) && |Governors(h, r)| > 1
    ensures OtherGovernor(h, r, a)
  {
    var others := Governors(h, r) - {a};
    assert (r, a) in h.members && a in Governors(h, r);
    assert Governors(h, r) == others + {a};
    var b :| b in others;
    assert Governs(h, r, b);
  }

  // -- steps that commit nothing --

  /** A transaction moves on, taking only free locks. */
  lemma PutKeeps(w: World, id: nat, t: Txn)
    requires Consistent(w) && TxnOk(w.hall, t)
    requires forall r :: HoldsRoom(t, r) ==> RoomFree(w, id, r)
    requires forall a :: HoldsAccount(t, a) ==> AccountFree(w, id, a)
    ensures Consistent(Put(w, id, t))
    ensures AllCovered(w) && Covered(w.hall, t) ==> AllCovered(Put(w, id, t))
  {
    var w' := Put(w, id, t);
    forall i, j | i in w'.txns && j in w'.txns && i != j ensures Disjoint(w'.txns[i], w'.txns[j]) {
      if i != id && j != id {
        assert Disjoint(w.txns[i], w.txns[j]);
      }
    }
  }

  /** Locks already held are free of others. */
  lemma HeldIsFree(w: World, id: nat)
    requires Exclusive(w.txns) && id in w.txns
    ensures forall r :: HoldsRoom(w.txns[id], r) ==> RoomFree(w, id, r)
    ensures forall a :: HoldsAccount(w.txns[id], a) ==> AccountFree(w, id, a)
  {
    forall j | j in w.txns && j != id ensures Disjoint(w.txns[id], w.txns[j]) {
    }
  }

  lemma FinishKeeps(w: World, id: nat, h: Hall)
    requires Exclusive(w.txns) && Governed(h) && MembersOk(h)
    requires forall j :: j in w.txns && j != id ==> TxnOk(h, w.txns[j])
    ensures Consistent(Finish(w, id, h))
    ensures (forall j :: j in w.txns && j != id ==> Covered(h, w.txns[j])) ==> AllCovered(Finish(w, id, h))
  {
  }

  /** The decision is sound when it is made. */
  lemma DecisionIsSound(h: Hall, actor: nat, r: nat, intent: Intent)
    requires Decide(h, actor, r, intent).Some?
    ensures var change := Decide(h, actor, r, intent).value;
            (change == Found <==> intent == Start) && ActionStands(h, actor, r, change)
  {
    var change := Decide(h, actor, r, intent).value;
    if change.Drop? || (change.Assign? && change.role != Governor) {
      if OpenRoom(h, r) && Governs(h, r, change.member) {
        TwoGovernors(h, r, change.member);
      }
    }
  }

  lemma OrphansDecided(h: Hall, a: nat, r: nat)
    requires r !in Orphaned(h, a)
    ensures Replaceable(h, r, a)
  {
    if OpenRoom(h, r) && Governs(h, r, a) {
      assert (r, a) in h.members && r in GovernedBy(h, a);
      var b :| b in Governors(h, r) && b !in {a};
      assert Governs(h, r, b);
    }
  }

  // -- commits --

  /** As long as it is open, the room has the governors it had. */
  ghost predicate SameGovernors(h: Hall, h': Hall, r: nat) {
    OpenRoom(h', r) ==> OpenRoom(h, r) && forall a :: Governs(h', r, a) <==> Governs(h, r, a)
  }

  lemma ReplaceableStands(h: Hall, h': Hall, r: nat, a: nat)
    requires SameGovernors(h, h', r) && Replaceable(h, r, a)
    ensures Replaceable(h', r, a)
  {
    if OpenRoom(h', r) && Governs(h', r, a) {
      var b :| b != a && Governs(h, r, b);
      assert Governs(h', r, b);
    }
  }

  /** A commit elsewhere does not disturb a transaction whose rooms it leaves alone. */
  lemma OthersUndisturbed(h: Hall, h': Hall, t: Txn)
    requires TxnOk(h, t) && |h.open| <= |h'.open|
    requires forall r :: HoldsRoom(t, r) ==> SameGovernors(h, h', r) && MembersOf(h', r) <= MembersOf(h, r)
    requires forall a :: HoldsAccount(t, a) ==> OpenRoomsOf(h', a) <= OpenRoomsOf(h, a) && (a in h.active ==> a in h'.active)
    ensures TxnOk(h', t)
  {
    match t
    case Acting(actor, room, intent, Ready(change)) =>
      Sets.SubsetSize(OpenRoomsOf(h', actor), OpenRoomsOf(h, actor));
      if change.Admit? {
        Sets.SubsetSize(MembersOf(h', room), MembersOf(h, room));
      } else if change.Drop? || (change.Assign? && change.role != Governor) {
        ReplaceableStands(h, h', room, change.member);
      }
    case Cascading(a, Decided(held, closing)) =>
      forall r | r in held && r !in closing ensures Replaceable(h', r, a) {
        ReplaceableStands(h, h', r, a);
      }
    case Cascading(a, Deleted(held, closing)) =>
      forall r | r in held && r !in closing ensures Replaceable(h', r, a) {
        ReplaceableStands(h, h', r, a);
      }
    case _ =>
  }

  // -- committing an action --

  lemma ApplyKeepsGoverned(h: Hall, actor: nat, room: nat, change: Change)
    requires Governed(h) && ActionStands(h, actor, room, change)
    requires forall k :: k in h.members ==> k.0 < |h.open|
    ensures Governed(Apply(h, actor, room, change))
  {
    var h' := Apply(h, actor, room, change);
    forall r | OpenRoom(h', r) ensures HasGovernor(h', r) {
      if change.Found? && r == |h.open| {
        assert Governs(h', r, actor);
      } else {
        assert OpenRoom(h, r);
        var g :| Governs(h, r, g);
        assert Governs(h, r, actor) ==> (r, actor) in h.members && actor in MembersOf(h, r);
        if r == room && (change.Drop? || change.Assign?) && g == change.member && !Governs(h', r, g) {
          var b :| b != g && Governs(h, r, b);
          assert Governs(h', r, b);
        } else {
          assert Governs(h', r, g);
        }
      }
    }
  }

  lemma ApplyKeepsMembers(h: Hall, actor: nat, room: nat, change: Change)
    requires MembersOk(h) && ActionStands(h, actor, room, change) && actor in h.active
    requires change.Found? || room < |h.open|
    ensures MembersOk(Apply(h, actor, room, change))
  {
    var h' := Apply(h, actor, room, change);
    forall r: nat ensures |MembersOf(h', r)| <= MAX_MEMBERS {
      if change.Found? && r == |h.open| {
        assert MembersOf(h', r) <= {actor};
        Sets.SubsetSize(MembersOf(h', r), {actor});
      } else if change.Admit? && r == room {
        assert MembersOf(h', r) <= MembersOf(h, r) + {actor};
        Sets.OneMore(MembersOf(h', r), MembersOf(h, r), actor);
      } else {
        assert MembersOf(h', r) <= MembersOf(h, r);
        Sets.SubsetSize(MembersOf(h', r), MembersOf(h, r));
      }
    }
    forall a: nat ensures |OpenRoomsOf(h', a)| <= MAX_OPEN_ROOMS {
      if a == actor && (change.Found? || change.Admit?) {
        var more := if change.Found? then |h.open| else room;
        assert OpenRoomsOf(h', a) <= OpenRoomsOf(h, a) + {more};
        Sets.OneMore(OpenRoomsOf(h', a), OpenRoomsOf(h, a), more);
      } else {
        ApplyAddsNoRooms(h, actor, room, change, a);
        Sets.SubsetSize(OpenRoomsOf(h', a), OpenRoomsOf(h, a));
      }
    }
  }

  lemma ApplyAddsNoRooms(h: Hall, actor: nat, room: nat, change: Change, a: nat)
    requires a != actor || !(change.Found? || change.Admit?)
    requires forall k :: k in h.members ==> k.0 < |h.open|
    ensures OpenRoomsOf(Apply(h, actor, room, change), a) <= OpenRoomsOf(h, a)
  {
  }

  lemma ApplyStaysHome(h: Hall, actor: nat, room: nat, change: Change, r: nat)
    requires r < |h.open| && (r != room || change.Found?)
    ensures var h' := Apply(h, actor, room, change);
            SameGovernors(h, h', r) && MembersOf(h', r) <= MembersOf(h, r)
  {
    var h' := Apply(h, actor, room, change);
    assert forall a :: Governs(h', r, a) <==> Governs(h, r, a);
  }

  /** Nobody but the actor, or the one promoted, gains a room to govern. */
  lemma ApplyCovers(h: Hall, actor: nat, room: nat, change: Change, a: nat)
    requires a != actor || !(change.Found? || change.Admit?)
    requires !(change.Assign? && change.member == a && change.role == Governor)
    requires forall k :: k in h.members ==> k.0 < |h.open|
    ensures GovernedBy(Apply(h, actor, room, change), a) <= GovernedBy(h, a)
  {
  }

  /** A promotion gives at most its own room, and only a member of an open one. */
  lemma PromotionCovers(h: Hall, actor: nat, room: nat, m: nat)
    ensures var h' := Apply(h, actor, room, Assign(m, Governor));
            && GovernedBy(h', m) <= GovernedBy(h, m) + {room}
            && (!OpenRoom(h, room) || (room, m) !in h.members ==> GovernedBy(h', m) <= GovernedBy(h, m))
  {
  }

  lemma ActionCommit(w: World, id: nat)
    requires Consistent(w) && id in w.txns && w.txns[id].Acting? && w.txns[id].stage.Ready?
    ensures var t := w.txns[id];
            var w' := Finish(w, id, Apply(w.hall, t.actor, t.room, t.stage.change));
            && Consistent(w')
            && (AllCovered(w) && !Escapes(w, id) && !RowLocked(w, id, Touched(t.stage.change, t.actor)) ==> AllCovered(w'))
  {
    var t := w.txns[id];
    var change := t.stage.change;
    var h, h' := w.hall, Apply(w.hall, t.actor, t.room, change);
    assert TxnOk(h, t);
    if !change.Found? {
      assert HoldsRoom(t, t.room);
    }
    ApplyKeepsGoverned(h, t.actor, t.room, change);
    ApplyKeepsMembers(h, t.actor, t.room, change);
    forall j | j in w.txns && j != id ensures TxnOk(h', w.txns[j]) {
      OthersAfterAction(w, id, j);
    }
    if AllCovered(w) && !Escapes(w, id) && !RowLocked(w, id, Touched(change, t.actor)) {
      forall j | j in w.txns && j != id ensures Covered(h', w.txns[j]) {
        CoveredAfterAction(w, id, j);
      }
    }
    FinishKeeps(w, id, h');
  }

  lemma OthersAfterAction(w: World, id: nat, j: nat)
    requires Consistent(w) && id in w.txns && w.txns[id].Acting? && w.txns[id].stage.Ready?
    requires j in w.txns && j != id
    ensures var t := w.txns[id];
            TxnOk(Apply(w.hall, t.actor, t.room, t.stage.change), w.txns[j])
  {
    var t, other := w.txns[id], w.txns[j];
    var h, h' := w.hall, Apply(w.hall, t.actor, t.room, t.stage.change);
    assert TxnOk(h, t) && TxnOk(h, other) && Disjoint(t, other);
    forall r | HoldsRoom(other, r) ensures SameGovernors(h, h', r) && MembersOf(h', r) <= MembersOf(h, r) {
      assert !HoldsRoom(t, r);
      ApplyStaysHome(h, t.actor, t.room, t.stage.change, r);
    }
    forall a | HoldsAccount(other, a) ensures OpenRoomsOf(h', a) <= OpenRoomsOf(h, a) {
      assert !HoldsAccount(t, a);
      ApplyAddsNoRooms(h, t.actor, t.room, t.stage.change, a);
    }
    OthersUndisturbed(h, h', other);
  }

  lemma CoveredAfterAction(w: World, id: nat, j: nat)
    requires Consistent(w) && AllCovered(w) && id in w.txns && w.txns[id].Acting? && w.txns[id].stage.Ready?
    requires j in w.txns && j != id && !Escapes(w, id) && !RowLocked(w, id, Touched(w.txns[id].stage.change, w.txns[id].actor))
    ensures var t := w.txns[id];
            Covered(Apply(w.hall, t.actor, t.room, t.stage.change), w.txns[j])
  {
    var t, other := w.txns[id], w.txns[j];
    var change := t.stage.change;
    assert Covered(w.hall, other) && Disjoint(t, other);
    if other.Cascading? && !other.phase.NeedBot? && !other.phase.NeedSnapshot? {
      assert HoldsAccount(other, other.account);
      assert HoldsAccount(t, t.actor);
      if change.Assign? && change.member == other.account && change.role == Governor {
        PromotionCovers(w.hall, t.actor, t.room, change.member);
        assert !Misses(other, change.member, t.room) || !OpenRoom(w.hall, t.room) || (t.room, change.member) !in w.hall.members;
      } else {
        ApplyCovers(w.hall, t.actor, t.room, change, other.account);
      }
    }
  }

  // -- committing a cascade --

  lemma TerminateKeepsGoverned(h: Hall, a: nat, held: set<nat>, closing: set<nat>)
    requires Governed(h) && CascadeStands(h, a, held, closing) && GovernedBy(h, a) <= held
    ensures Governed(Terminate(h, a, closing))
  {
    var h' := Terminate(h, a, closing);
    forall r | OpenRoom(h', r) ensures HasGovernor(h', r) {
      assert OpenRoom(h, r);
      var g :| Governs(h, r, g);
      if g == a {
        assert (r, a) in h.members && r in GovernedBy(h, a);
        assert Replaceable(h, r, a);
        var b :| b != a && Governs(h, r, b);
        assert Governs(h', r, b);
      } else {
        assert Governs(h', r, g);
      }
    }
  }

  lemma TerminateShrinks(h: Hall, a: nat, closing: set<nat>)
    ensures var h' := Terminate(h, a, closing);
            && (forall r: nat :: MembersOf(h', r) <= MembersOf(h, r))
            && (forall b: nat :: OpenRoomsOf(h', b) <= OpenRoomsOf(h, b) && GovernedBy(h', b) <= GovernedBy(h, b))
  {
  }

  lemma TerminateKeepsMembers(h: Hall, a: nat, closing: set<nat>)
    requires MembersOk(h)
    ensures MembersOk(Terminate(h, a, closing))
  {
    var h' := Terminate(h, a, closing);
    TerminateShrinks(h, a, closing);
    forall r: nat ensures |MembersOf(h', r)| <= MAX_MEMBERS {
      Sets.SubsetSize(MembersOf(h', r), MembersOf(h, r));
    }
    forall b: nat ensures |OpenRoomsOf(h', b)| <= MAX_OPEN_ROOMS {
      Sets.SubsetSize(OpenRoomsOf(h', b), OpenRoomsOf(h, b));
    }
  }

  /** Outside the lock set the account governed nothing, so its rooms keep their governors. */
  lemma TerminateStaysHome(h: Hall, a: nat, held: set<nat>, closing: set<nat>, r: nat)
    requires GovernedBy(h, a) <= held && closing <= held && r !in held
    ensures SameGovernors(h, Terminate(h, a, closing), r)
  {
    var h' := Terminate(h, a, closing);
    if OpenRoom(h', r) {
      assert OpenRoom(h, r);
      assert Governs(h, r, a) ==> (r, a) in h.members && r in GovernedBy(h, a);
      assert forall b :: Governs(h', r, b) <==> Governs(h, r, b);
    }
  }

  lemma CascadeCommit(w: World, id: nat)
    requires Invariant(w) && id in w.txns && w.txns[id].Cascading? && w.txns[id].phase.Deleted?
    ensures Invariant(Finish(w, id, Terminate(w.hall, w.txns[id].account, w.txns[id].phase.closing)))
  {
    var t := w.txns[id];
    var a, held, closing := t.account, t.phase.held, t.phase.closing;
    var h, h' := w.hall, Terminate(w.hall, a, closing);
    assert TxnOk(h, t) && Covered(h, t);
    TerminateKeepsGoverned(h, a, held, closing);
    TerminateKeepsMembers(h, a, closing);
    TerminateShrinks(h, a, closing);
    forall j | j in w.txns && j != id ensures TxnOk(h', w.txns[j]) && Covered(h', w.txns[j]) {
      var other := w.txns[j];
      assert TxnOk(h, other) && Covered(h, other) && Disjoint(t, other);
      assert HoldsAccount(t, a);
      forall r | HoldsRoom(other, r) ensures SameGovernors(h, h', r) {
        assert !HoldsRoom(t, r);
        TerminateStaysHome(h, a, held, closing, r);
      }
      OthersUndisturbed(h, h', other);
      CoveredShrinks(h, h', other);
    }
    FinishKeeps(w, id, h');
  }

  lemma CoveredShrinks(h: Hall, h': Hall, t: Txn)
    requires Covered(h, t)
    requires t.Cascading? ==> GovernedBy(h', t.account) <= GovernedBy(h, t.account)
    ensures Covered(h', t)
  {
  }

  // -- every step --

  lemma ActionStep(w: World, id: nat)
    requires Invariant(w) && id in w.txns && w.txns[id].Acting? && !Escapes(w, id)
    ensures Invariant(AdvanceAction(w, id, w.txns[id]))
  {
    var t := w.txns[id];
    assert TxnOk(w.hall, t);
    HeldIsFree(w, id);
    FinishKeeps(w, id, w.hall);
    match t.stage
    case NeedAccount =>
      if AccountFree(w, id, t.actor) && t.actor in w.hall.active {
        PutKeeps(w, id, t.(stage := if t.intent == Start then Deciding else NeedRoom));
      }
    case NeedRoom =>
      if t.room < |w.hall.open| && RoomFree(w, id, t.room) {
        var next := t.(stage := Deciding);
        assert forall a :: HoldsAccount(next, a) ==> HoldsAccount(t, a);
        PutKeeps(w, id, next);
      }
    case Deciding =>
      if Decide(w.hall, t.actor, t.room, t.intent).Some? {
        DecisionIsSound(w.hall, t.actor, t.room, t.intent);
        var next := t.(stage := Ready(Decide(w.hall, t.actor, t.room, t.intent).value));
        assert forall r :: HoldsRoom(next, r) ==> HoldsRoom(t, r);
        assert forall a :: HoldsAccount(next, a) ==> HoldsAccount(t, a);
        PutKeeps(w, id, next);
      }
    case Ready(change) => ActionCommit(w, id);
  }

  lemma CascadeStep(w: World, id: nat, pick: nat)
    requires Invariant(w) && id in w.txns && w.txns[id].Cascading?
    ensures Invariant(AdvanceCascade(w, id, w.txns[id], pick))
  {
    var t := w.txns[id];
    var a := t.account;
    assert TxnOk(w.hall, t) && Covered(w.hall, t);
    HeldIsFree(w, id);
    match t.phase
    case NeedBot =>
      if AccountFree(w, id, a) {
        PutKeeps(w, id, t.(phase := NeedSnapshot));
      }
    case NeedSnapshot =>
      var next := t.(phase := Locking({}, GovernedBy(w.hall, a)));
      assert forall b :: HoldsAccount(next, b) ==> HoldsAccount(t, b);
      PutKeeps(w, id, next);
    case Locking(held, todo) => LockingStep(w, id, pick);
    case Decided(held, closing) =>
      var next := t.(phase := Deleted(held, closing));
      assert forall r :: HoldsRoom(next, r) ==> HoldsRoom(t, r);
      assert forall b :: HoldsAccount(next, b) ==> HoldsAccount(t, b);
      PutKeeps(w, id, next);
    case Deleted(held, closing) => CascadeCommit(w, id);
  }

  lemma LockingStep(w: World, id: nat, pick: nat)
    requires Invariant(w) && id in w.txns && w.txns[id].Cascading? && w.txns[id].phase.Locking?
    ensures Invariant(AdvanceCascade(w, id, w.txns[id], pick))
  {
    var t := w.txns[id];
    var a, held, todo := t.account, t.phase.held, t.phase.todo;
    assert TxnOk(w.hall, t) && Covered(w.hall, t);
    HeldIsFree(w, id);
    assert forall r :: r in held ==> HoldsRoom(t, r);
    assert HoldsAccount(t, a);
    if todo == {} {
      var closing := Orphaned(w.hall, a);
      if forall r :: r in closing ==> RoomFree(w, id, r) {
        forall r | r in held && r !in closing ensures Replaceable(w.hall, r, a) {
          OrphansDecided(w.hall, a, r);
        }
        PutKeeps(w, id, t.(phase := Decided(held + closing, closing)));
      }
    } else if pick in todo && RoomFree(w, id, pick) {
      PutKeeps(w, id, t.(phase := Locking(held + {pick}, todo - {pick})));
    }
  }

  lemma EnableStep(w: World, a: nat)
    requires Invariant(w)
    ensures Invariant(Step(w, Enable(a)))
  {
    var h' := w.hall.(active := w.hall.active + {a});
    assert forall r: nat :: MembersOf(h', r) == MembersOf(w.hall, r);
    assert forall b: nat :: OpenRoomsOf(h', b) == OpenRoomsOf(w.hall, b) && GovernedBy(h', b) == GovernedBy(w.hall, b);
    forall r | OpenRoom(h', r) ensures HasGovernor(h', r) {
      assert OpenRoom(w.hall, r);
      var g :| Governs(w.hall, r, g);
      assert Governs(h', r, g);
    }
    forall j | j in w.txns ensures TxnOk(h', w.txns[j]) && Covered(h', w.txns[j]) {
      assert TxnOk(w.hall, w.txns[j]) && Covered(w.hall, w.txns[j]);
      assert forall r, b :: Governs(h', r, b) <==> Governs(w.hall, r, b);
      OthersUndisturbed(w.hall, h', w.txns[j]);
      CoveredShrinks(w.hall, h', w.txns[j]);
    }
  }

  lemma StepKeepsInvariant(w: World, move: Move)
    requires Invariant(w) && !Overtakes(w, move)
    ensures Invariant(Step(w, move))
  {
    match move
    case Begin(id, txn) =>
      if id !in w.txns && Fresh(txn) {
        PutKeeps(w, id, txn);
      }
    case Advance(id, pick) =>
      if id in w.txns {
        if w.txns[id].Acting? {
          ActionStep(w, id);
        } else {
          CascadeStep(w, id, pick);
        }
      }
    case Abort(id) => FinishKeeps(w, id, w.hall);
    case Enable(a) => EnableStep(w, a);
  }

  /** No promotion overtakes a cascade anywhere along the run. */
  ghost predicate Orderly(w: World, moves: seq<Move>) {
    forall i :: 0 <= i < |moves| ==> !Overtakes(Run(w, moves[..i]), moves[i])
  }

  /** Under every interleaving, after every statement, each open room has a governor. */
  lemma {:induction false} EveryRunIsGoverned(w: World, moves: seq<Move>)
    requires Invariant(w) && Orderly(w, moves)
    ensures Invariant(Run(w, moves))
  {
    if moves != [] {
      var init := moves[..|moves| - 1];
      forall i | 0 <= i < |init| ensures !Overtakes(Run(w, init[..i]), init[i]) {
        assert init[..i] == moves[..i];
      }
      EveryRunIsGoverned(w, init);
      StepKeepsInvariant(Run(w, init), moves[|moves| - 1]);
    }
  }

  lemma NobodyYet(active: set<nat>)
    ensures Invariant(World(Hall([], map[], active), map[]))
  {
    var h := Hall([], map[], active);
    assert forall r: nat :: MembersOf(h, r) == {};
    assert forall a: nat :: OpenRoomsOf(h, a) == {};
  }

  // -- with promotions overtaking cascades --

  /**
   Exactly when a cascade's commit leaves every open room governed: unless some room outside
   its lock set is governed by the departing account alone.
   */
  lemma CommitGovernsExactly(h: Hall, a: nat, held: set<nat>, closing: set<nat>)
    requires Governed(h) && CascadeStands(h, a, held, closing)
    ensures Governed(Terminate(h, a, closing))
            <==> !exists r :: OpenRoom(h, r) && r !in held && Governs(h, r, a) && !OtherGovernor(h, r, a)
  {
    var h' := Terminate(h, a, closing);
    if r :| OpenRoom(h, r) && r !in held && Governs(h, r, a) && !OtherGovernor(h, r, a) {
      assert OpenRoom(h', r);
      assert forall b :: Governs(h', r, b) ==> b != a && Governs(h, r, b);
      assert !HasGovernor(h', r);
    } else {
      forall r | OpenRoom(h', r) ensures HasGovernor(h', r) {
        assert OpenRoom(h, r);
        var g :| Governs(h, r, g);
        if g == a {
          assert r in held ==> Replaceable(h, r, a);
          var b :| b != a && Governs(h, r, b);
          assert Governs(h', r, b);
        } else {
          assert Governs(h', r, g);
        }
      }
    }
  }

  lemma {:induction false} RunConcat(w: World, first: seq<Move>, later: seq<Move>)
    ensures Run(w, first + later) == Run(Run(w, first), later)
  {
    if later == [] {
      assert first + later == first;
    } else {
      var init := later[..|later| - 1];
      assert (first + later)[..|first + later| - 1] == first + init;
      RunConcat(w, first, init);
    }
  }

  lemma RunOne(w: World, move: Move)
    ensures Run(w, [move]) == Step(w, move)
  {
    assert [move][..0] == [];
  }

  lemma RunTwo(w: World, one: Move, two: Move)
    ensures Run(w, [one, two]) == Step(Step(w, one), two)
  {
    assert [one, two][..1] == [one];
    RunOne(w, one);
  }

  /** Begin, account lock, room lock, decision, commit. */
  function Uninterrupted(id: nat, t: Txn): seq<Move> {
    [Begin(id, t), Advance(id, 0)] + [Advance(id, 0), Advance(id, 0)] + [Advance(id, 0)]
  }

  lemma ActionTakesLocks(w: World, id: nat, t: Txn)
    requires id !in w.txns && t.Acting? && t.stage == NeedAccount && t.intent != Start
    requires AccountFree(w, id, t.actor) && t.actor in w.hall.active
    ensures Run(w, [Begin(id, t), Advance(id, 0)]) == Put(w, id, t.(stage := NeedRoom))
  {
    RunTwo(w, Begin(id, t), Advance(id, 0));
  }

  lemma ActionDecides(w: World, id: nat, t: Txn, change: Change)
    requires t.Acting? && t.intent != Start && t.room < |w.hall.open| && RoomFree(w, id, t.room)
    requires Decide(w.hall, t.actor, t.room, t.intent) == Some(change)
    ensures Run(Put(w, id, t.(stage := NeedRoom)), [Advance(id, 0), Advance(id, 0)]) == Put(w, id, t.(stage := Ready(change)))
  {
    var a := Put(w, id, t.(stage := NeedRoom));
    assert RoomFree(a, id, t.room);
    RunTwo(a, Advance(id, 0), Advance(id, 0));
  }

  lemma ActionCommits(w: World, id: nat, t: Txn, change: Change)
    requires id !in w.txns && t.Acting? && !RowLocked(w, id, Touched(change, t.actor))
    ensures Run(Put(w, id, t.(stage := Ready(change))), [Advance(id, 0)])
            == World(Apply(w.hall, t.actor, t.room, change), w.txns)
  {
    var b := Put(w, id, t.(stage := Ready(change)));
    RunOne(b, Advance(id, 0));
    assert b.txns - {id} == w.txns;
  }

  /** An action that meets no lock runs through and commits its decision. */
  lemma ActionRunsThrough(w: World, id: nat, t: Txn, change: Change)
    requires id !in w.txns && t.Acting? && t.stage == NeedAccount && t.intent != Start
    requires AccountFree(w, id, t.actor) && t.actor in w.hall.active
    requires t.room < |w.hall.open| && RoomFree(w, id, t.room)
    requires Decide(w.hall, t.actor, t.room, t.intent) == Some(change)
    requires !RowLocked(w, id, Touched(change, t.actor))
    ensures Run(w, Uninterrupted(id, t)) == World(Apply(w.hall, t.actor, t.room, change), w.txns)
  {
    ActionTakesLocks(w, id, t);
    ActionDecides(w, id, t, change);
    ActionCommits(w, id, t, change);
    RunConcat(w, [Begin(id, t), Advance(id, 0)], [Advance(id, 0), Advance(id, 0)]);
    RunConcat(w, [Begin(id, t), Advance(id, 0)] + [Advance(id, 0), Advance(id, 0)], [Advance(id, 0)]);
  }

  /** Account 0 governs room 0; account 1 speaks there. */
  const TWO_MEMBERS := World(Hall([true], map[(0, 0) := Governor, (0, 1) := Speaker], {0, 1}), map[])

  const CASCADE_DECIDED := [Begin(1, Cascading(1, NeedBot)), Advance(1, 0)] + [Advance(1, 0), Advance(1, 0)]
  const PROMOTION := Acting(0, 0, SetRole(1, Governor), NeedAccount)
  const DEPARTURE := Acting(0, 0, Leave, NeedAccount)

  /** 1 is deactivated; before its rows go, 0 makes it a governor and leaves. */
  const OVERTAKING: seq<Move> :=
    CASCADE_DECIDED + Uninterrupted(2, PROMOTION) + Uninterrupted(3, DEPARTURE) + [Advance(1, 0), Advance(1, 0)]

  const DECIDED: map<nat, Txn> := map[1 := Cascading(1, Decided({}, {}))]

  lemma CascadeUpToDecision()
    ensures Run(TWO_MEMBERS, CASCADE_DECIDED) == World(TWO_MEMBERS.hall, DECIDED)
  {
    var w := TWO_MEMBERS;
    var a := w.(txns := map[1 := Cascading(1, NeedSnapshot)]);
    assert a == Step(Step(w, Begin(1, Cascading(1, NeedBot))), Advance(1, 0));
    assert GovernedBy(w.hall, 1) == {};
    assert Orphaned(w.hall, 1) == {};
    var b := w.(txns := map[1 := Cascading(1, Locking({}, {}))]);
    assert b == Step(a, Advance(1, 0));
    var none: set<nat> := {};
    assert none + Orphaned(w.hall, 1) == {};
    assert World(w.hall, DECIDED) == Step(b, Advance(1, 0));
    RunTwo(w, Begin(1, Cascading(1, NeedBot)), Advance(1, 0));
    RunTwo(a, Advance(1, 0), Advance(1, 0));
    RunConcat(w, [Begin(1, Cascading(1, NeedBot)), Advance(1, 0)], [Advance(1, 0), Advance(1, 0)]);
  }

  const BOTH_GOVERN := Hall([true], map[(0, 0) := Governor, (0, 1) := Governor], {0, 1})
  const ALONE := Hall([true], map[(0, 1) := Governor], {0, 1})

  lemma PromotionCommits()
    ensures Run(World(TWO_MEMBERS.hall, DECIDED), Uninterrupted(2, PROMOTION)) == World(BOTH_GOVERN, DECIDED)
  {
    ActionRunsThrough(World(TWO_MEMBERS.hall, DECIDED), 2, PROMOTION, Assign(1, Governor));
  }

  lemma GovernorLeaves()
    ensures Run(World(BOTH_GOVERN, DECIDED), Uninterrupted(3, DEPARTURE)) == World(ALONE, DECIDED)
  {
    assert (0, 0) in BOTH_GOVERN.members && (0, 1) in BOTH_GOVERN.members;
    assert Governors(BOTH_GOVERN, 0) == {0, 1};
    ActionRunsThrough(World(BOTH_GOVERN, DECIDED), 3, DEPARTURE, Drop(0));
    assert BOTH_GOVERN.members - {(0, 0)} == ALONE.members;
  }

  /** Without the exclusion the property fails: the room stays open and nobody governs it. */
  lemma PromotionOvertakesCascade()
    ensures Invariant(TWO_MEMBERS)
    ensures OpenRoom(Run(TWO_MEMBERS, OVERTAKING).hall, 0)
    ensures !Governed(Run(TWO_MEMBERS, OVERTAKING).hall)
  {
    TwoMembersIsFine();
    CascadeUpToDecision();
    PromotionCommits();
    GovernorLeaves();
    CommitStrands(ALONE, 1, 1, {}, {}, 0);
    RunFour(TWO_MEMBERS, CASCADE_DECIDED, Uninterrupted(2, PROMOTION), Uninterrupted(3, DEPARTURE), [Advance(1, 0), Advance(1, 0)]);
  }

  lemma RunFour(w: World, a: seq<Move>, b: seq<Move>, c: seq<Move>, d: seq<Move>)
    ensures Run(w, a + b + c + d) == Run(Run(Run(Run(w, a), b), c), d)
  {
    RunConcat(w, a, b);
    RunConcat(w, a + b, c);
    RunConcat(w, a + b + c, d);
  }

  /** A decided cascade commits without closing a room that only its account governs. */
  lemma CommitStrands(h: Hall, j: nat, m: nat, held: set<nat>, closing: set<nat>, r: nat)
    requires OpenRoom(h, r) && !OtherGovernor(h, r, m) && r !in closing
    ensures var after := Run(World(h, map[j := Cascading(m, Decided(held, closing))]), [Advance(j, 0), Advance(j, 0)]).hall;
            OpenRoom(after, r) && !Governed(after)
  {
    RunTwo(World(h, map[j := Cascading(m, Decided(held, closing))]), Advance(j, 0), Advance(j, 0));
    var after := Terminate(h, m, closing);
    assert OpenRoom(after, r);
    assert forall b :: Governs(after, r, b) ==> b != m && Governs(h, r, b);
    assert !HasGovernor(after, r);
  }

  lemma TwoMembersIsFine()
    ensures Invariant(TWO_MEMBERS)
  {
    var h := TWO_MEMBERS.hall;
    assert Governs(h, 0, 0);
    forall r: nat ensures |MembersOf(h, r)| <= MAX_MEMBERS {
      assert MembersOf(h, r) <= {0, 1};
      Sets.SubsetSize(MembersOf(h, r), {0, 1});
    }
    forall a: nat ensures |OpenRoomsOf(h, a)| <= MAX_OPEN_ROOMS {
      assert OpenRoomsOf(h, a) <= {0};
      Sets.SubsetSize(OpenRoomsOf(h, a), {0});
    }
  }
}
