/**
 When an open room can lose its last governor: exactly when a promotion commits in a room that
 the promoted account's cascade has already missed.
 */
module RoomEscapes {
  import opened Rooms
  import opened RoomLaws
  import Sets

  /** Some run without a further escaping promotion leaves an open room without a governor. */
  ghost predicate Endangered(w: World) {
    exists moves :: Orderly(w, moves) && !Governed(Run(w, moves).hall)
  }

  // -- runs that promote nobody --

  predicate CalmMove(move: Move) {
    move.Begin? ==> move.txn.Cascading? || move.txn.intent.Leave?
  }

  /** Only cascades and departures are under way. */
  predicate Calm(w: World) {
    forall k :: k in w.txns && w.txns[k].Acting? ==>
      w.txns[k].intent.Leave? && (w.txns[k].stage.Ready? ==> w.txns[k].stage.change.Drop?)
  }

  predicate AllCalm(moves: seq<Move>) {
    forall move :: move in moves ==> CalmMove(move)
  }

  lemma CalmStep(w: World, move: Move)
    requires Calm(w) && CalmMove(move)
    ensures Calm(Step(w, move)) && !Overtakes(w, move)
  {
  }

  lemma {:induction false} CalmRun(w: World, moves: seq<Move>)
    requires Calm(w) && AllCalm(moves)
    ensures Calm(Run(w, moves))
  {
    if moves != [] {
      CalmRun(w, moves[..|moves| - 1]);
      CalmStep(Run(w, moves[..|moves| - 1]), moves[|moves| - 1]);
    }
  }

  lemma CalmIsOrderly(w: World, moves: seq<Move>)
    requires Calm(w) && AllCalm(moves)
    ensures Orderly(w, moves)
  {
    forall i | 0 <= i < |moves| ensures !Overtakes(Run(w, moves[..i]), moves[i]) {
      CalmRun(w, moves[..i]);
      CalmStep(Run(w, moves[..i]), moves[i]);
    }
  }

  lemma AbortsAreOrderly(w: World, moves: seq<Move>)
    requires forall move :: move in moves ==> move.Abort?
    ensures Orderly(w, moves)
  {
    assert forall i :: 0 <= i < |moves| ==> moves[i] in moves;
  }

  /** The state before move i of a run in two parts. */
  lemma RunAcross(w: World, first: seq<Move>, later: seq<Move>, i: nat)
    requires i < |first + later|
    ensures var before := Run(w, (first + later)[..i]);
            if i < |first| then before == Run(w, first[..i]) else before == Run(Run(w, first), later[..i - |first|])
  {
    if i < |first| {
      assert (first + later)[..i] == first[..i];
    } else {
      assert (first + later)[..i] == first + later[..i - |first|];
      RunConcat(w, first, later[..i - |first|]);
    }
  }

  lemma OrderlyConcat(w: World, first: seq<Move>, later: seq<Move>)
    requires Orderly(w, first) && Orderly(Run(w, first), later)
    ensures Orderly(w, first + later)
  {
    forall i | 0 <= i < |first + later| ensures !Overtakes(Run(w, (first + later)[..i]), (first + later)[i]) {
      RunAcross(w, first, later, i);
    }
  }

  // -- the run that strands the room --

  lemma {:induction false} AbortOthers(w: World, j: nat) returns (moves: seq<Move>)
    requires j in w.txns
    ensures forall move :: move in moves ==> move.Abort?
    ensures Run(w, moves) == World(w.hall, map[j := w.txns[j]])
    decreases w.txns.Keys
  {
    moves := [];
    if k :| k in w.txns && k != j {
      var next := Step(w, Abort(k));
      assert next.txns.Keys == w.txns.Keys - {k};
      var rest := AbortOthers(next, j);
      moves := [Abort(k)] + rest;
      RunOne(w, Abort(k));
      RunConcat(w, [Abort(k)], rest);
    } else {
      assert w.txns == map[j := w.txns[j]];
    }
  }

  /** The one transaction under way is a cascade. */
  function Only(h: Hall, j: nat, m: nat, phase: Phase): World {
    World(h, map[j := Cascading(m, phase)])
  }

  lemma {:induction false} LocksAll(h: Hall, j: nat, m: nat, held: set<nat>, todo: set<nat>) returns (moves: seq<Move>)
    ensures AllCalm(moves)
    ensures Run(Only(h, j, m, Locking(held, todo)), moves) == Only(h, j, m, Locking(held + todo, {}))
    decreases todo
  {
    moves := [];
    if pick :| pick in todo {
      var w := Only(h, j, m, Locking(held, todo));
      var rest := LocksAll(h, j, m, held + {pick}, todo - {pick});
      assert Step(w, Advance(j, pick)) == Only(h, j, m, Locking(held + {pick}, todo - {pick}));
      assert held + {pick} + (todo - {pick}) == held + todo;
      moves := [Advance(j, pick)] + rest;
      RunOne(w, Advance(j, pick));
      RunConcat(w, [Advance(j, pick)], rest);
    } else {
      assert todo == {} && held + todo == held;
    }
  }

  /** A missed room that has another governor is in neither the lock set nor the closing set decided. */
  lemma MissedAtDecision(h: Hall, j: nat, m: nat, p: Phase, r: nat) returns (moves: seq<Move>, held: set<nat>, closing: set<nat>)
    requires p.Locking? || (p.Decided? && p.closing <= p.held)
    requires r !in LockSet(p) && OtherGovernor(h, r, m)
    ensures AllCalm(moves) && r !in held && r !in closing
    ensures Run(Only(h, j, m, p), moves) == Only(h, j, m, Decided(held, closing))
  {
    if p.Decided? {
      moves, held, closing := [], p.held, p.closing;
    } else {
      var locks := LocksAll(h, j, m, p.held, p.todo);
      closing := Orphaned(h, m);
      held := p.held + p.todo + closing;
      moves := locks + [Advance(j, 0)];
      RunConcat(Only(h, j, m, p), locks, [Advance(j, 0)]);
      RunOne(Only(h, j, m, Locking(p.held + p.todo, {})), Advance(j, 0));
      var b :| b != m && Governs(h, r, b);
      assert b in Governors(h, r);
    }
  }

  lemma OneLeaves(h: Hall, j: nat, m: nat, p: Phase, r: nat, g: nat)
    requires p.Decided? && r !in p.held && OpenRoom(h, r) && Governs(h, r, m) && Governs(h, r, g) && g != m && g in h.active
    ensures var leave := Uninterrupted(j + 1, Acting(g, r, Leave, NeedAccount));
            AllCalm(leave) && Run(Only(h, j, m, p), leave) == Only(h.(members := h.members - {(r, g)}), j, m, p)
  {
    var t := Acting(g, r, Leave, NeedAccount);
    assert (r, m) in h.members && (r, g) in h.members;
    assert {m, g} <= Governors(h, r);
    Sets.SubsetSize({m, g}, Governors(h, r));
    ActionRunsThrough(Only(h, j, m, p), j + 1, t, Drop(g));
  }

  lemma {:induction false} OthersLeave(h: Hall, j: nat, m: nat, p: Phase, r: nat) returns (moves: seq<Move>, left: Hall)
    requires p.Decided? && r !in p.held && OpenRoom(h, r) && Governs(h, r, m)
    requires forall k :: k in h.members ==> k.1 in h.active
    ensures AllCalm(moves) && Run(Only(h, j, m, p), moves) == Only(left, j, m, p)
    ensures OpenRoom(left, r) && !OtherGovernor(left, r, m)
    decreases h.members.Keys
  {
    moves, left := [], h;
    if g :| g != m && Governs(h, r, g) {
      var next := h.(members := h.members - {(r, g)});
      assert next.members.Keys == h.members.Keys - {(r, g)};
      var leave := Uninterrupted(j + 1, Acting(g, r, Leave, NeedAccount));
      OneLeaves(h, j, m, p, r, g);
      var rest;
      rest, left := OthersLeave(next, j, m, p, r);
      moves := leave + rest;
      RunConcat(Only(h, j, m, p), leave, rest);
    }
  }

  /** The others leave before a cascade that missed the room commits. */
  lemma MissedRoomIsLost(h: Hall, j: nat, m: nat, p: Phase, r: nat) returns (moves: seq<Move>)
    requires p.Locking? || (p.Decided? && p.closing <= p.held)
    requires r !in LockSet(p) && OpenRoom(h, r) && Governs(h, r, m) && OtherGovernor(h, r, m)
    requires forall k :: k in h.members ==> k.1 in h.active
    ensures AllCalm(moves) && !Governed(Run(Only(h, j, m, p), moves).hall)
  {
    var w := Only(h, j, m, p);
    var decide, held, closing := MissedAtDecision(h, j, m, p, r);
    var leave, left := OthersLeave(h, j, m, Decided(held, closing), r);
    var commit := [Advance(j, 0), Advance(j, 0)];
    CommitStrands(left, j, m, held, closing, r);
    moves := decide + leave + commit;
    RunConcat(w, decide, leave);
    RunConcat(w, decide + leave, commit);
  }

  /** What the escaping promotion leaves behind: one more governor, in a room the cascade missed. */
  lemma AfterEscape(w: World, id: nat) returns (j: nat, m: nat, r: nat)
    requires Invariant(w) && Escapes(w, id)
    ensures var w' := Step(w, Advance(id, 0));
            && j in w'.txns && Misses(w'.txns[j], m, r) && !w'.txns[j].phase.Deleted?
            && (w'.txns[j].phase.Decided? ==> w'.txns[j].phase.closing <= w'.txns[j].phase.held)
            && OpenRoom(w'.hall, r) && Governs(w'.hall, r, m) && OtherGovernor(w'.hall, r, m)
            && (forall k :: k in w'.hall.members ==> k.1 in w'.hall.active)
  {
    var t := w.txns[id];
    m, r := t.stage.change.member, t.room;
    j :| j in w.txns && Misses(w.txns[j], m, r);
    assert TxnOk(w.hall, w.txns[j]) && Covered(w.hall, w.txns[j]);
    assert OpenRoom(w.hall, r) && (r, m) in w.hall.members;
    assert Governs(w.hall, r, m) ==> r in GovernedBy(w.hall, m);
    var g :| Governs(w.hall, r, g);
    var h' := Apply(w.hall, t.actor, r, Assign(m, Governor));
    assert Step(w, Advance(id, 0)).hall == h';
    assert Governs(h', r, g);
  }

  /** Everyone else gives up, then the missed room is lost. */
  lemma MissedEndangers(w: World, j: nat, m: nat, r: nat)
    requires j in w.txns && Misses(w.txns[j], m, r) && !w.txns[j].phase.Deleted?
    requires w.txns[j].phase.Decided? ==> w.txns[j].phase.closing <= w.txns[j].phase.held
    requires OpenRoom(w.hall, r) && Governs(w.hall, r, m) && OtherGovernor(w.hall, r, m)
    requires forall k :: k in w.hall.members ==> k.1 in w.hall.active
    ensures Endangered(w)
  {
    var p := w.txns[j].phase;
    var alone := Only(w.hall, j, m, p);
    var aborts := AbortOthers(w, j);
    var rest := MissedRoomIsLost(w.hall, j, m, p, r);
    AbortsAreOrderly(w, aborts);
    CalmIsOrderly(alone, rest);
    Endangers(w, aborts, rest);
  }

  lemma Endangers(w: World, first: seq<Move>, later: seq<Move>)
    requires Orderly(w, first) && Orderly(Run(w, first), later) && !Governed(Run(Run(w, first), later).hall)
    ensures Endangered(w)
  {
    OrderlyConcat(w, first, later);
    RunConcat(w, first, later);
    assert !Governed(Run(w, first + later).hall);
  }

  // -- main results --

  /**
   A step is an escaping promotion exactly when it opens the way to an open room without a
   governor.
   */
  lemma EndangersExactly(w: World, move: Move)
    requires Invariant(w)
    ensures Overtakes(w, move) <==> Endangered(Step(w, move))
  {
    if Overtakes(w, move) {
      var j, m, r := AfterEscape(w, move.id);
      assert Step(w, move) == Step(w, Advance(move.id, 0));
      MissedEndangers(Step(w, move), j, m, r);
    } else {
      StepKeepsInvariant(w, move);
      NeverEndangered(Step(w, move));
    }
  }

  lemma NeverEndangered(w: World)
    requires Invariant(w)
    ensures !Endangered(w)
  {
    forall moves | Orderly(w, moves) ensures Governed(Run(w, moves).hall) {
      EveryRunIsGoverned(w, moves);
    }
  }

  /** Along every run: no promotion escapes exactly when no state on the way is endangered. */
  lemma {:induction false} SafeExactlyWhenOrderly(w: World, moves: seq<Move>)
    requires Invariant(w)
    ensures Orderly(w, moves) <==> forall i :: 0 <= i <= |moves| ==> !Endangered(Run(w, moves[..i]))
  {
    if Orderly(w, moves) {
      forall i | 0 <= i <= |moves| ensures !Endangered(Run(w, moves[..i])) {
        OrderlyPrefix(w, moves, i);
        EveryRunIsGoverned(w, moves[..i]);
        NeverEndangered(Run(w, moves[..i]));
      }
    } else {
      var i := FirstOvertaking(w, moves);
      EveryRunIsGoverned(w, moves[..i]);
      EndangersExactly(Run(w, moves[..i]), moves[i]);
      assert moves[..i + 1][..|moves[..i + 1]| - 1] == moves[..i];
      assert Run(w, moves[..i + 1]) == Step(Run(w, moves[..i]), moves[i]);
      assert Endangered(Run(w, moves[..i + 1]));
    }
  }

  lemma OrderlyPrefix(w: World, moves: seq<Move>, i: nat)
    requires i <= |moves| && Orderly(w, moves)
    ensures Orderly(w, moves[..i])
  {
    forall k | 0 <= k < i ensures !Overtakes(Run(w, moves[..i][..k]), moves[..i][k]) {
      assert moves[..i][..k] == moves[..k];
    }
  }

  lemma {:induction false} FirstOvertaking(w: World, moves: seq<Move>) returns (i: nat)
    requires !Orderly(w, moves)
    ensures i < |moves| && Overtakes(Run(w, moves[..i]), moves[i]) && Orderly(w, moves[..i])
  {
    i :| 0 <= i < |moves| && Overtakes(Run(w, moves[..i]), moves[i]);
    var init := moves[..i];
    if !Orderly(w, init) {
      i := FirstOvertaking(w, init);
      assert init[..i] == moves[..i] && init[i] == moves[i];
    }
  }

  // -- single commits --

  predicate Demotes(change: Change) {
    change.Drop? || (change.Assign? && change.role != Governor)
  }

  /**
   Exactly when an action's commit leaves every open room governed, whatever was committed since
   its decision: unless it takes the role from the only governor of an open room.
   */
  lemma ActionGovernsExactly(h: Hall, actor: nat, room: nat, change: Change)
    requires Governed(h) && forall k :: k in h.members ==> k.0 < |h.open|
    requires change.Admit? ==> (room, actor) !in h.members
    ensures Governed(Apply(h, actor, room, change))
            <==> !(Demotes(change) && OpenRoom(h, room) && Governs(h, room, change.member)
                   && !OtherGovernor(h, room, change.member))
  {
    var h' := Apply(h, actor, room, change);
    if Demotes(change) && OpenRoom(h, room) && Governs(h, room, change.member) && !OtherGovernor(h, room, change.member) {
      assert OpenRoom(h', room);
      assert forall b :: Governs(h', room, b) ==> b != change.member && Governs(h, room, b);
      assert !HasGovernor(h', room);
    } else {
      forall r | OpenRoom(h', r) ensures HasGovernor(h', r) {
        if change.Found? && r == |h.open| {
          assert Governs(h', r, actor);
        } else {
          assert OpenRoom(h, r);
          var g :| Governs(h, r, g);
          if r == room && Demotes(change) && g == change.member {
            var b :| b != g && Governs(h, r, b);
            assert Governs(h', r, b);
          } else {
            assert Governs(h', r, g);
          }
        }
      }
    }
  }

  // -- a departure decided before the cascade's commit --

  const LEAVING: Txn := DEPARTURE.(stage := Ready(Drop(0)))

  const DEPARTURE_DECIDED: seq<Move> := [Begin(3, DEPARTURE), Advance(3, 0)] + [Advance(3, 0), Advance(3, 0)]

  const CASCADE_FIRST: seq<Move> :=
    CASCADE_DECIDED + Uninterrupted(2, PROMOTION) + DEPARTURE_DECIDED + [Advance(1, 0), Advance(1, 0)]

  const FOUNDER_ONLY := Hall([true], map[(0, 0) := Governor], {0})

  /** The cascade's commit leaves every room governed; the leave it did not see then empties one. */
  lemma DepartureCommitsLast()
    ensures Run(TWO_MEMBERS, CASCADE_FIRST) == World(FOUNDER_ONLY, map[3 := LEAVING])
    ensures Governed(FOUNDER_ONLY)
    ensures !Governed(Run(TWO_MEMBERS, CASCADE_FIRST + [Advance(3, 0)]).hall)
  {
    CascadeUpToDecision();
    PromotionCommits();
    DepartureDecides();
    CascadeCommitsUnder();
    RunFour(TWO_MEMBERS, CASCADE_DECIDED, Uninterrupted(2, PROMOTION), DEPARTURE_DECIDED, [Advance(1, 0), Advance(1, 0)]);
    RunConcat(TWO_MEMBERS, CASCADE_FIRST, [Advance(3, 0)]);
    RunOne(World(FOUNDER_ONLY, map[3 := LEAVING]), Advance(3, 0));
    assert Governs(FOUNDER_ONLY, 0, 0);
    ActionGovernsExactly(FOUNDER_ONLY, 0, 0, Drop(0));
  }

  lemma DepartureDecides()
    ensures Run(World(BOTH_GOVERN, DECIDED), DEPARTURE_DECIDED) == World(BOTH_GOVERN, DECIDED[3 := LEAVING])
  {
    var w := World(BOTH_GOVERN, DECIDED);
    assert (0, 0) in BOTH_GOVERN.members && (0, 1) in BOTH_GOVERN.members;
    assert Governors(BOTH_GOVERN, 0) == {0, 1};
    ActionTakesLocks(w, 3, DEPARTURE);
    ActionDecides(w, 3, DEPARTURE, Drop(0));
    RunConcat(w, [Begin(3, DEPARTURE), Advance(3, 0)], [Advance(3, 0), Advance(3, 0)]);
  }

  lemma CascadeCommitsUnder()
    ensures Run(World(BOTH_GOVERN, DECIDED[3 := LEAVING]), [Advance(1, 0), Advance(1, 0)]) == World(FOUNDER_ONLY, map[3 := LEAVING])
  {
    var w := World(BOTH_GOVERN, DECIDED[3 := LEAVING]);
    RunTwo(w, Advance(1, 0), Advance(1, 0));
    var after := Terminate(BOTH_GOVERN, 1, {});
    assert after.members == FOUNDER_ONLY.members;
    assert after.open == [true];
    assert after.active == {0};
  }
}
