/**
 The admin plane: accounts, roles and permission bindings, changed by requests that carry the
 permissions resolved when they arrived, and that run statement by statement under row locks.
 */
module AdminPlane {
  import opened Results

  const WILDCARD := "*"
  const USERS := "admin.users.manage"
  const ROLES := "admin.roles.manage"
  const SESSIONS := "admin.sessions.manage"

  /** The seeded superadmin role: the only one named so, neither deleted nor renamed. */
  const SUPER: nat := 0

  datatype AdminRow = AdminRow(active: bool, version: nat)

  datatype RoleRow = RoleRow(system: bool, active: bool, permissions: set<string>)

  datatype Plane = Plane(admins: seq<AdminRow>, roles: seq<RoleRow>, bindings: set<(nat, nat)>, catalog: set<string>)

  datatype Principal = Principal(admin: nat, permissions: set<string>) {
    predicate Has(code: string) {
      WILDCARD in permissions || code in permissions
    }
  }

  datatype Op =
    | CreateAdmin
    | EnableAdmin(target: nat)
    | DisableAdmin(target: nat)
    | ResetPassword(target: nat)
    | ForceLogout(target: nat)
    | SetAdminRoles(target: nat, ids: set<nat>)
    | CreateRole
    | UpdateRole(role: nat, status: bool)
    | SetRolePermissions(role: nat, codes: set<string>)

  // -- reads --

  /** Permissions granted through active roles, read live. */
  function Resolve(p: Plane, a: nat): Principal {
    Principal(a, set b, c | b in p.bindings && b.0 == a && b.1 < |p.roles| && p.roles[b.1].active && c in p.roles[b.1].permissions :: c)
  }

  /** Holds the active superadmin role, whatever the account's status. */
  predicate IsSuperadmin(p: Plane, a: nat) {
    (a, SUPER) in p.bindings && SUPER < |p.roles| && p.roles[SUPER].active
  }

  predicate IsActiveSuperadmin(p: Plane, a: nat) {
    IsSuperadmin(p, a) && a < |p.admins| && p.admins[a].active
  }

  function ActiveSuperadmins(p: Plane): set<nat> {
    set b | b in p.bindings && b.1 == SUPER && IsActiveSuperadmin(p, b.0) :: b.0
  }

  // -- writes --

  function Bumped(row: AdminRow): AdminRow {
    row.(version := row.version + 1)
  }

  function Replaced(bindings: set<(nat, nat)>, a: nat, ids: set<nat>): set<(nat, nat)> {
    (set b | b in bindings && b.0 != a) + (set r | r in ids :: (a, r))
  }

  function Write(p: Plane, op: Op): Plane {
    match op
    case CreateAdmin => p.(admins := p.admins + [AdminRow(true, 0)])
    case EnableAdmin(t) => if t < |p.admins| then p.(admins := p.admins[t := p.admins[t].(active := true)]) else p
    case DisableAdmin(t) =>
      if t < |p.admins| && p.admins[t].active then p.(admins := p.admins[t := Bumped(p.admins[t].(active := false))]) else p
    case ResetPassword(t) => if t < |p.admins| then p.(admins := p.admins[t := Bumped(p.admins[t])]) else p
    case ForceLogout(t) => if t < |p.admins| then p.(admins := p.admins[t := Bumped(p.admins[t])]) else p
    case SetAdminRoles(t, ids) => p.(bindings := Replaced(p.bindings, t, ids))
    case CreateRole => p.(roles := p.roles + [RoleRow(false, true, {})])
    case UpdateRole(r, status) =>
      if r < |p.roles| && !p.roles[r].system then p.(roles := p.roles[r := p.roles[r].(active := status)]) else p
    case SetRolePermissions(r, codes) => if r < |p.roles| then p.(roles := p.roles[r := p.roles[r].(permissions := codes)]) else p
  }

  // -- checks --

  function Guarded(p: Plane, who: Principal, t: nat): Result<()> {
    var _ :- Need(t < |p.admins|, NotFound);
    Need(who.Has(WILDCARD) || !IsSuperadmin(p, t), NotOwner)
  }

  function Check(p: Plane, who: Principal, op: Op): Result<()> {
    match op
    case CreateAdmin => Need(who.Has(USERS), NotOwner)
    case EnableAdmin(t) =>
      var _ :- Need(who.Has(USERS), NotOwner);
      Need(t < |p.admins|, NotFound)
    case DisableAdmin(t) =>
      var _ :- Need(who.Has(USERS), NotOwner);
      var _ :- Guarded(p, who, t);
      Need(!IsActiveSuperadmin(p, t) || |ActiveSuperadmins(p)| > 1, Conflict)
    case ResetPassword(t) =>
      var _ :- Need(who.Has(USERS), NotOwner);
      Guarded(p, who, t)
    case ForceLogout(t) =>
      var _ :- Need(who.Has(SESSIONS), NotOwner);
      Guarded(p, who, t)
    case SetAdminRoles(t, ids) =>
      var _ :- Need(who.Has(ROLES), NotOwner);
      var _ :- Need(t < |p.admins|, NotFound);
      var _ :- Need(forall r :: r in ids ==> r < |p.roles|, NotFound);
      var before, after := (t, SUPER) in p.bindings, SUPER in ids;
      var _ :- Need(before == after || who.Has(WILDCARD), NotOwner);
      Need(before && !after && p.admins[t].active ==> |ActiveSuperadmins(Write(p, op))| >= 1, Conflict)
    case CreateRole => Need(who.Has(ROLES), NotOwner)
    case UpdateRole(r, _) =>
      var _ :- Need(who.Has(ROLES), NotOwner);
      var _ :- Need(r < |p.roles|, NotFound);
      Need(!p.roles[r].system, Conflict)
    case SetRolePermissions(r, codes) =>
      var _ :- Need(who.Has(ROLES), NotOwner);
      var _ :- Need(r < |p.roles|, NotFound);
      var _ :- Need(!p.roles[r].system, Conflict);
      var _ :- Need(WILDCARD !in codes, NotOwner);
      Need(codes <= p.catalog, ValidationFailed)
  }

  function Perform(p: Plane, who: Principal, op: Op): Result<Plane> {
    var _ :- Check(p, who, op);
    Ok(Write(p, op))
  }

  // -- interleaving --

  datatype Stage = NeedSuper | NeedRows | Deciding | Ready

  datatype Request = Request(who: Principal, op: Op, stage: Stage)

  datatype World = World(plane: Plane, requests: map<nat, Request>)

  datatype Move =
    | Arrive(id: nat, actor: nat, op: Op)
    | Advance(id: nat)
    | Abort(id: nat)

  /** Only the two operations that can drop an active superadmin take the role-row lock first. */
  predicate TakesSuper(op: Op) {
    op.DisableAdmin? || op.SetAdminRoles?
  }

  predicate HoldsSuper(r: Request) {
    TakesSuper(r.op) && !r.stage.NeedSuper?
  }

  predicate HoldsAdmin(r: Request, a: nat) {
    && (r.stage.Deciding? || r.stage.Ready?)
    && (match r.op
        case EnableAdmin(t) => a == t || a == r.who.admin
        case DisableAdmin(t) => a == t || a == r.who.admin
        case ResetPassword(t) => a == t || a == r.who.admin
        case ForceLogout(t) => a == t || a == r.who.admin
        case SetAdminRoles(t, _) => a == t || a == r.who.admin
        case _ => false)
  }

  predicate HoldsRole(r: Request, role: nat) {
    && (r.stage.Deciding? || r.stage.Ready?)
    && (match r.op case UpdateRole(x, _) => x == role case SetRolePermissions(x, _) => x == role case _ => false)
  }

  ghost predicate Compatible(r: Request, s: Request) {
    && !(HoldsSuper(r) && HoldsSuper(s))
    && (forall a :: !(HoldsAdmin(r, a) && HoldsAdmin(s, a)))
    && (forall x :: !(HoldsRole(r, x) && HoldsRole(s, x)))
  }

  ghost predicate Admissible(w: World, id: nat, r: Request) {
    forall j :: j in w.requests && j != id ==> Compatible(r, w.requests[j])
  }

  function Put(w: World, id: nat, r: Request): World {
    w.(requests := w.requests[id := r])
  }

  function Finish(w: World, id: nat, p: Plane): World {
    World(p, w.requests - {id})
  }

  /** The next statement: take a lock when it is free, decide, or commit. */
  ghost function AdvanceRequest(w: World, id: nat, r: Request): World {
    match r.stage
    case NeedSuper => if Admissible(w, id, r.(stage := NeedRows)) then Put(w, id, r.(stage := NeedRows)) else w
    case NeedRows => if Admissible(w, id, r.(stage := Deciding)) then Put(w, id, r.(stage := Deciding)) else w
    case Deciding => if Check(w.plane, r.who, r.op).Ok? then Put(w, id, r.(stage := Ready)) else Finish(w, id, w.plane)
    case Ready => Finish(w, id, Write(w.plane, r.op))
  }

  ghost function Step(w: World, move: Move): World {
    match move
    case Arrive(id, actor, op) =>
      if id !in w.requests then Put(w, id, Request(Resolve(w.plane, actor), op, NeedSuper)) else w
    case Advance(id) => if id in w.requests then AdvanceRequest(w, id, w.requests[id]) else w
    case Abort(id) => Finish(w, id, w.plane)
  }

  ghost function Run(w: World, moves: seq<Move>): World {
    if moves == [] then w else Step(Run(w, moves[..|moves| - 1]), moves[|moves| - 1])
  }

  // -- invariant --

  predicate SuperSeeded(p: Plane) {
    && SUPER < |p.roles| && p.roles[SUPER].system && p.roles[SUPER].active
    && (forall r :: 0 <= r < |p.roles| ==> (WILDCARD in p.roles[r].permissions <==> r == SUPER))
    && (forall b :: b in p.bindings ==> b.0 < |p.admins| && b.1 < |p.roles|)
  }

  ghost predicate HasSuperadmin(p: Plane) {
    exists a :: IsActiveSuperadmin(p, a)
  }

  ghost predicate OtherSuperadmin(p: Plane, t: nat) {
    exists a :: a != t && IsActiveSuperadmin(p, a)
  }

  /** What a decided request relies on until it commits. */
  ghost predicate Stands(p: Plane, r: Request) {
    r.stage.Ready? ==>
      match r.op
      case DisableAdmin(t) =>
        (IsActiveSuperadmin(p, t) ==> OtherSuperadmin(p, t)) && (r.who.Has(WILDCARD) || !IsSuperadmin(p, t))
      case SetAdminRoles(t, ids) =>
        && (forall x :: x in ids ==> x < |p.roles|) && t < |p.admins|
        && (IsActiveSuperadmin(p, t) && SUPER !in ids ==> OtherSuperadmin(p, t))
        && (r.who.Has(WILDCARD) || ((t, SUPER) in p.bindings <==> SUPER in ids))
      case ResetPassword(t) => r.who.Has(WILDCARD) || !IsSuperadmin(p, t)
      case ForceLogout(t) => r.who.Has(WILDCARD) || !IsSuperadmin(p, t)
      case UpdateRole(x, _) => x < |p.roles| && !p.roles[x].system
      case SetRolePermissions(x, codes) => x < |p.roles| && !p.roles[x].system && WILDCARD !in codes
      case _ => true
  }

  ghost predicate Invariant(w: World) {
    && SuperSeeded(w.plane) && HasSuperadmin(w.plane)
    && (forall j :: j in w.requests ==> Stands(w.plane, w.requests[j]))
    && (forall i, j :: i in w.requests && j in w.requests && i != j ==> Compatible(w.requests[i], w.requests[j]))
  }

  lemma CountedAnother(p: Plane, t: nat)
    requires SuperSeeded(p) && IsActiveSuperadmin(p, t) && |ActiveSuperadmins(p)| > 1
    ensures OtherSuperadmin(p, t)
  {
    var others := ActiveSuperadmins(p) - {t};
    assert (t, SUPER) in p.bindings && t in ActiveSuperadmins(p);
    assert ActiveSuperadmins(p) == others + {t};
    var a :| a in others;
    assert IsActiveSuperadmin(p, a);
  }

  /** Counting after the replacement finds the others that were there before it. */
  lemma CountedAfterReplacement(p: Plane, t: nat, ids: set<nat>)
    requires SuperSeeded(p) && SUPER !in ids && |ActiveSuperadmins(Write(p, SetAdminRoles(t, ids)))| >= 1
    ensures OtherSuperadmin(p, t)
  {
    var a :| a in ActiveSuperadmins(Write(p, SetAdminRoles(t, ids)));
    assert IsActiveSuperadmin(p, a) && a != t;
  }

  lemma CheckStands(p: Plane, r: Request)
    requires SuperSeeded(p) && Check(p, r.who, r.op).Ok?
    ensures Stands(p, r.(stage := Ready))
  {
    match r.op
    case DisableAdmin(t) =>
      if IsActiveSuperadmin(p, t) {
        CountedAnother(p, t);
      }
    case SetAdminRoles(t, ids) =>
      if IsActiveSuperadmin(p, t) && SUPER !in ids {
        CountedAfterReplacement(p, t, ids);
      }
    case _ =>
  }

  // -- commits --

  lemma CommitKeepsPlane(p: Plane, r: Request)
    requires SuperSeeded(p) && HasSuperadmin(p) && r.stage.Ready? && Stands(p, r)
    ensures SuperSeeded(Write(p, r.op)) && HasSuperadmin(Write(p, r.op))
  {
    var p' := Write(p, r.op);
    var a :| IsActiveSuperadmin(p, a);
    match r.op
    case DisableAdmin(t) =>
      if a == t {
        var b :| b != t && IsActiveSuperadmin(p, b);
        assert IsActiveSuperadmin(p', b);
      } else {
        assert IsActiveSuperadmin(p', a);
      }
    case SetAdminRoles(t, ids) =>
      if a == t && SUPER !in ids {
        var b :| b != t && IsActiveSuperadmin(p, b);
        assert IsActiveSuperadmin(p', b);
      } else {
        assert IsActiveSuperadmin(p', a);
      }
    case _ => assert IsActiveSuperadmin(p', a);
  }

  /** Without the role-row lock an operation never takes anyone out of the active superadmins. */
  lemma OthersStand(p: Plane, r: Request, s: Request)
    requires SuperSeeded(p) && r.stage.Ready? && Stands(p, r) && Stands(p, s) && Compatible(r, s)
    ensures Stands(Write(p, r.op), s)
  {
    var p' := Write(p, r.op);
    if s.stage.Ready? {
      match s.op
      case DisableAdmin(t) => SuperStands(p, r, s, t);
      case SetAdminRoles(t, ids) => SuperStands(p, r, s, t);
      case ResetPassword(t) => MembershipStands(p, r, s, t);
      case ForceLogout(t) => MembershipStands(p, r, s, t);
      case _ =>
    }
  }

  lemma MembershipStands(p: Plane, r: Request, s: Request, t: nat)
    requires SuperSeeded(p) && r.stage.Ready? && Stands(p, r) && Compatible(r, s)
    requires HoldsAdmin(s, t)
    ensures IsSuperadmin(Write(p, r.op), t) == IsSuperadmin(p, t)
  {
    if r.op.SetAdminRoles? {
      assert HoldsAdmin(r, r.op.target);
    }
  }

  lemma SuperStands(p: Plane, r: Request, s: Request, t: nat)
    requires SuperSeeded(p) && r.stage.Ready? && Stands(p, r) && Compatible(r, s)
    requires s.stage.Ready? && TakesSuper(s.op) && s.op.target == t
    ensures var p' := Write(p, r.op);
            && p'.bindings == p.bindings && IsSuperadmin(p', t) == IsSuperadmin(p, t)
            && IsActiveSuperadmin(p', t) == IsActiveSuperadmin(p, t)
            && (OtherSuperadmin(p, t) ==> OtherSuperadmin(p', t))
            && |p'.roles| >= |p.roles| && |p'.admins| >= |p.admins|
  {
    var p' := Write(p, r.op);
    assert !TakesSuper(r.op);
    assert HoldsAdmin(s, t);
    if r.op.EnableAdmin? {
      assert HoldsAdmin(r, r.op.target);
    }
    if OtherSuperadmin(p, t) {
      var a :| a != t && IsActiveSuperadmin(p, a);
      assert IsActiveSuperadmin(p', a);
    }
  }

  lemma PutKeeps(w: World, id: nat, r: Request)
    requires Invariant(w) && Stands(w.plane, r) && Admissible(w, id, r)
    ensures Invariant(Put(w, id, r))
  {
    var w' := Put(w, id, r);
    forall i, j | i in w'.requests && j in w'.requests && i != j ensures Compatible(w'.requests[i], w'.requests[j]) {
      if i == id {
        assert Compatible(r, w.requests[j]);
      } else if j == id {
        assert Compatible(r, w.requests[i]);
      }
    }
  }

  lemma AdvanceKeeps(w: World, id: nat)
    requires Invariant(w) && id in w.requests
    ensures Invariant(AdvanceRequest(w, id, w.requests[id]))
  {
    var r := w.requests[id];
    match r.stage
    case NeedSuper =>
      if Admissible(w, id, r.(stage := NeedRows)) {
        PutKeeps(w, id, r.(stage := NeedRows));
      }
    case NeedRows =>
      if Admissible(w, id, r.(stage := Deciding)) {
        PutKeeps(w, id, r.(stage := Deciding));
      }
    case Deciding =>
      if Check(w.plane, r.who, r.op).Ok? {
        CheckStands(w.plane, r);
        var next := r.(stage := Ready);
        forall j | j in w.requests && j != id ensures Compatible(next, w.requests[j]) {
          assert Compatible(r, w.requests[j]);
          assert forall a :: HoldsAdmin(next, a) == HoldsAdmin(r, a);
          assert forall x :: HoldsRole(next, x) == HoldsRole(r, x);
        }
        PutKeeps(w, id, next);
      }
    case Ready =>
      CommitKeepsPlane(w.plane, r);
      forall j | j in w.requests && j != id ensures Stands(Write(w.plane, r.op), w.requests[j]) {
        assert Compatible(r, w.requests[j]);
        OthersStand(w.plane, r, w.requests[j]);
      }
  }

  lemma StepKeeps(w: World, move: Move)
    requires Invariant(w)
    ensures Invariant(Step(w, move))
  {
    match move
    case Arrive(id, actor, op) =>
      if id !in w.requests {
        PutKeeps(w, id, Request(Resolve(w.plane, actor), op, NeedSuper));
      }
    case Advance(id) =>
      if id in w.requests {
        AdvanceKeeps(w, id);
      }
    case Abort(id) =>
  }

  /** Under every interleaving an active superadmin remains. */
  lemma {:induction false} EveryRunKeepsASuperadmin(w: World, moves: seq<Move>)
    requires Invariant(w)
    ensures Invariant(Run(w, moves))
  {
    if moves != [] {
      EveryRunKeepsASuperadmin(w, moves[..|moves| - 1]);
      StepKeeps(Run(w, moves[..|moves| - 1]), moves[|moves| - 1]);
    }
  }

  // -- no escalation --

  function Members(p: Plane): set<nat> {
    set b | b in p.bindings && b.1 == SUPER :: b.0
  }

  /** The wildcard is held through the superadmin role and in no other way. */
  lemma WildcardIsMembership(p: Plane, a: nat)
    requires SuperSeeded(p)
    ensures Resolve(p, a).Has(WILDCARD) <==> a in Members(p)
  {
    assert a in Members(p) <==> (a, SUPER) in p.bindings;
    if (a, SUPER) in p.bindings {
      assert WILDCARD in p.roles[(a, SUPER).1].permissions;
    }
  }

  /** Nothing above the actors has moved: members, their credentials, and who could act for them. */
  ghost predicate Contained(start: Plane, w: World) {
    && Members(w.plane) == Members(start)
    && |start.admins| <= |w.plane.admins|
    && (forall a :: a in Members(start) && a < |start.admins| ==>
          && w.plane.admins[a].version == start.admins[a].version
          && (start.admins[a].active ==> w.plane.admins[a].active))
    && (forall j :: j in w.requests ==> !w.requests[j].who.Has(WILDCARD))
  }

  lemma MembersUnmoved(p: Plane, r: Request)
    requires SuperSeeded(p) && r.stage.Ready? && Stands(p, r) && !r.who.Has(WILDCARD)
    ensures Members(Write(p, r.op)) == Members(p)
  {
    var p' := Write(p, r.op);
    forall a: nat ensures (a, SUPER) in p'.bindings <==> (a, SUPER) in p.bindings {
    }
    forall a ensures a in Members(p') <==> a in Members(p) {
      assert a in Members(p') <==> (a, SUPER) in p'.bindings;
      assert a in Members(p) <==> (a, SUPER) in p.bindings;
    }
  }

  lemma ContainedStep(start: Plane, w: World, move: Move)
    requires Invariant(w) && Contained(start, w)
    requires move.Arrive? ==> move.actor !in Members(start)
    ensures Contained(start, Step(w, move))
  {
    match move
    case Arrive(id, actor, op) => WildcardIsMembership(w.plane, actor);
    case Advance(id) =>
      if id in w.requests && w.requests[id].stage.Ready? {
        var r := w.requests[id];
        MembersUnmoved(w.plane, r);
        forall a | a in Members(start) ensures IsSuperadmin(w.plane, a) {
          assert a in Members(w.plane);
        }
      }
    case Abort(id) =>
  }

  /**
   However admins outside the superadmins interleave, with permissions as stale as they like,
   they never change superadmin membership, never hand out the wildcard, and never touch a
   superadmin's credentials.
   */
  lemma {:induction false} NoEscalation(start: Plane, moves: seq<Move>)
    requires Invariant(World(start, map[]))
    requires forall i :: 0 <= i < |moves| && moves[i].Arrive? ==> moves[i].actor !in Members(start)
    ensures Contained(start, Run(World(start, map[]), moves))
    ensures SuperSeeded(Run(World(start, map[]), moves).plane)
  {
    if moves != [] {
      var init := moves[..|moves| - 1];
      NoEscalation(start, init);
      EveryRunKeepsASuperadmin(World(start, map[]), init);
      EveryRunKeepsASuperadmin(World(start, map[]), moves);
      ContainedStep(start, Run(World(start, map[]), init), moves[|moves| - 1]);
    }
  }

  /** The seeded plane: one admin, bound to the superadmin role. */
  lemma SeededPlane(catalog: set<string>)
    ensures Invariant(World(Plane([AdminRow(true, 0)], [RoleRow(true, true, {WILDCARD})], {(0, SUPER)}, catalog), map[]))
  {
    var p := Plane([AdminRow(true, 0)], [RoleRow(true, true, {WILDCARD})], {(0, SUPER)}, catalog);
    assert IsActiveSuperadmin(p, 0);
  }
}
