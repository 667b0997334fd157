/**
 What an admin request is answered, read off the tables, with what it writes; and what every
 interleaving keeps of credentials: versions only rise, and a disabled account never comes
 back under the version it had.
 */
module AdminAnswers {
  import opened Results
  import opened AdminPlane
  import Sets

  /** Carries the permission or the wildcard. */
  predicate Carries(who: Principal, code: string) {
    code in who.permissions || "*" in who.permissions
  }

  /** Bound to the seeded superadmin role, row 0, while that is active. */
  predicate Bound(p: Plane, a: nat) {
    (a, 0) in p.bindings && |p.roles| > 0 && p.roles[0].active
  }

  ghost predicate AnotherActive(p: Plane, t: nat) {
    exists a: nat :: a != t && Bound(p, a) && a < |p.admins| && p.admins[a].active
  }

  // -- credentials --

  /** The plane with only this admin's row replaced. */
  predicate WithAdmin(p: Plane, p': Plane, t: nat, active: bool, version: nat) {
    t < |p.admins| && p' == p.(admins := p.admins[t := AdminRow(active, version)])
  }

  /** A superadmin is touched by wildcard holders only; anyone else by whoever carries the permission. */
  predicate MayTouch(p: Plane, who: Principal, code: string, t: nat) {
    Carries(who, code) && t < |p.admins| && ("*" in who.permissions || !Bound(p, t))
  }

  /** Disabling deactivates and raises the version by one; the last active superadmin stays, a disabled account stays as it is. */
  lemma DisableExactly(p: Plane, who: Principal, t: nat)
    ensures Perform(p, who, DisableAdmin(t)).Ok? <==>
              && MayTouch(p, who, "admin.users.manage", t)
              && (Bound(p, t) && p.admins[t].active ==> AnotherActive(p, t))
    ensures Perform(p, who, DisableAdmin(t)).Ok? ==>
              var p' := Perform(p, who, DisableAdmin(t)).value;
              if p.admins[t].active then WithAdmin(p, p', t, false, p.admins[t].version + 1) else p' == p
  {
    if t < |p.admins| && IsActiveSuperadmin(p, t) {
      CountsAnother(p, t);
    }
  }

  lemma CountsAnother(p: Plane, t: nat)
    requires IsActiveSuperadmin(p, t)
    ensures |ActiveSuperadmins(p)| > 1 <==> AnotherActive(p, t)
  {
    assert (t, SUPER) in p.bindings && t in ActiveSuperadmins(p);
    if AnotherActive(p, t) {
      var a: nat :| a != t && Bound(p, a) && a < |p.admins| && p.admins[a].active;
      assert (a, SUPER) in p.bindings && a in ActiveSuperadmins(p);
      assert {a, t} <= ActiveSuperadmins(p);
      Sets.SubsetSize({a, t}, ActiveSuperadmins(p));
    } else {
      assert forall a :: a in ActiveSuperadmins(p) ==> a == t;
      assert ActiveSuperadmins(p) == {t};
    }
  }

  /** Enabling restores activity and nothing else: the version stays where disabling left it. */
  lemma EnableExactly(p: Plane, who: Principal, t: nat)
    ensures Perform(p, who, EnableAdmin(t)).Ok? <==> Carries(who, "admin.users.manage") && t < |p.admins|
    ensures Perform(p, who, EnableAdmin(t)).Ok? ==>
              WithAdmin(p, Perform(p, who, EnableAdmin(t)).value, t, true, p.admins[t].version)
  {
  }

  /** A new password and a forced logout raise the version by one. */
  lemma ResetExactly(p: Plane, who: Principal, t: nat)
    ensures Perform(p, who, ResetPassword(t)).Ok? <==> MayTouch(p, who, "admin.users.manage", t)
    ensures Perform(p, who, ForceLogout(t)).Ok? <==> MayTouch(p, who, "admin.sessions.manage", t)
    ensures Perform(p, who, ResetPassword(t)).Ok? ==>
              WithAdmin(p, Perform(p, who, ResetPassword(t)).value, t, p.admins[t].active, p.admins[t].version + 1)
    ensures Perform(p, who, ForceLogout(t)).Ok? ==>
              WithAdmin(p, Perform(p, who, ForceLogout(t)).value, t, p.admins[t].active, p.admins[t].version + 1)
  {
  }

  /** New admins are active, at version 0, and hold no role. */
  lemma CreateExactly(p: Plane, who: Principal)
    ensures Perform(p, who, CreateAdmin)
            == if Carries(who, "admin.users.manage") then Ok(p.(admins := p.admins + [AdminRow(true, 0)])) else Err(NotOwner)
    ensures Perform(p, who, CreateRole)
            == if Carries(who, "admin.roles.manage") then Ok(p.(roles := p.roles + [RoleRow(false, true, {})])) else Err(NotOwner)
  {
  }

  // -- roles --

  /** The admin is bound to exactly these roles; superadmin membership moves for wildcard holders only, and never away from the last active one. */
  lemma SetRolesExactly(p: Plane, who: Principal, t: nat, ids: set<nat>)
    requires |p.roles| > 0 && p.roles[0].active
    ensures Perform(p, who, SetAdminRoles(t, ids)).Ok? <==>
              && Carries(who, "admin.roles.manage") && t < |p.admins| && (forall r :: r in ids ==> r < |p.roles|)
              && ("*" in who.permissions || ((t, 0) in p.bindings <==> 0 in ids))
              && ((t, 0) in p.bindings && 0 !in ids && p.admins[t].active ==> AnotherActive(p, t))
    ensures Perform(p, who, SetAdminRoles(t, ids)).Ok? ==>
              var p' := Perform(p, who, SetAdminRoles(t, ids)).value;
              && p' == p.(bindings := p'.bindings)
              && (forall r :: (t, r) in p'.bindings <==> r in ids)
              && (forall a, r :: a != t ==> ((a, r) in p'.bindings <==> (a, r) in p.bindings))
  {
    if 0 !in ids {
      CountsAfterwards(p, t, ids);
    }
  }

  lemma CountsAfterwards(p: Plane, t: nat, ids: set<nat>)
    requires |p.roles| > 0 && p.roles[0].active && 0 !in ids
    ensures |ActiveSuperadmins(Write(p, SetAdminRoles(t, ids)))| >= 1 <==> AnotherActive(p, t)
  {
    var p' := Write(p, SetAdminRoles(t, ids));
    if AnotherActive(p, t) {
      var a: nat :| a != t && Bound(p, a) && a < |p.admins| && p.admins[a].active;
      assert (a, SUPER) in p'.bindings && a in ActiveSuperadmins(p');
    }
    if a :| a in ActiveSuperadmins(p') {
      assert a != t && Bound(p, a) && a < |p.admins| && p.admins[a].active;
    }
  }

  /** Custom roles alone are switched, and take exactly the listed permissions of the catalog, never the wildcard. */
  lemma RolesExactly(p: Plane, who: Principal, r: nat, status: bool, codes: set<string>)
    ensures Perform(p, who, UpdateRole(r, status)).Ok? <==>
              Carries(who, "admin.roles.manage") && r < |p.roles| && !p.roles[r].system
    ensures Perform(p, who, SetRolePermissions(r, codes)).Ok? <==>
              Carries(who, "admin.roles.manage") && r < |p.roles| && !p.roles[r].system && "*" !in codes && codes <= p.catalog
    ensures Perform(p, who, UpdateRole(r, status)).Ok? ==>
              Perform(p, who, UpdateRole(r, status)).value == p.(roles := p.roles[r := RoleRow(false, status, p.roles[r].permissions)])
    ensures Perform(p, who, SetRolePermissions(r, codes)).Ok? ==>
              Perform(p, who, SetRolePermissions(r, codes)).value == p.(roles := p.roles[r := RoleRow(false, p.roles[r].active, codes)])
  {
  }

  /** Permissions are those of the admin's active roles, and no others. */
  lemma PermissionsExactly(p: Plane, a: nat, code: string)
    ensures code in Resolve(p, a).permissions <==>
              exists r :: (a, r) in p.bindings && r < |p.roles| && p.roles[r].active && code in p.roles[r].permissions
  {
    if code in Resolve(p, a).permissions {
      var b :| b in p.bindings && b.0 == a && b.1 < |p.roles| && p.roles[b.1].active && code in p.roles[b.1].permissions;
      assert (a, b.1) in p.bindings;
    }
  }

  /** What a refused request is told: no permission first, then no such row. */
  lemma RefusalsExactly(p: Plane, who: Principal, t: nat, ids: set<nat>, codes: set<string>)
    ensures !Carries(who, "admin.users.manage") ==>
              && Perform(p, who, DisableAdmin(t)) == Err(NotOwner) && Perform(p, who, EnableAdmin(t)) == Err(NotOwner)
              && Perform(p, who, ResetPassword(t)) == Err(NotOwner)
    ensures !Carries(who, "admin.sessions.manage") ==> Perform(p, who, ForceLogout(t)) == Err(NotOwner)
    ensures !Carries(who, "admin.roles.manage") ==>
              && Perform(p, who, SetAdminRoles(t, ids)) == Err(NotOwner) && Perform(p, who, UpdateRole(t, true)) == Err(NotOwner)
              && Perform(p, who, SetRolePermissions(t, codes)) == Err(NotOwner)
    ensures t >= |p.admins| && Carries(who, "*") ==>
              && Perform(p, who, DisableAdmin(t)) == Err(NotFound) && Perform(p, who, EnableAdmin(t)) == Err(NotFound)
              && Perform(p, who, ResetPassword(t)) == Err(NotFound) && Perform(p, who, ForceLogout(t)) == Err(NotFound)
              && Perform(p, who, SetAdminRoles(t, ids)) == Err(NotFound)
    ensures t >= |p.roles| && Carries(who, "*") ==>
              Perform(p, who, UpdateRole(t, true)) == Err(NotFound) && Perform(p, who, SetRolePermissions(t, codes)) == Err(NotFound)
    ensures t < |p.roles| && p.roles[t].system && Carries(who, "*") ==>
              Perform(p, who, UpdateRole(t, true)) == Err(Conflict) && Perform(p, who, SetRolePermissions(t, codes)) == Err(Conflict)
    ensures t < |p.roles| && !p.roles[t].system && Carries(who, "admin.roles.manage") && "*" in codes ==>
              Perform(p, who, SetRolePermissions(t, codes)) == Err(NotOwner)
  {
  }

  // -- a whole request --

  /** A request that meets nobody is answered as if it ran alone: all of its change when it is allowed, nothing when not. */
  lemma RequestRunsThrough(p: Plane, id: nat, actor: nat, op: Op)
    ensures Run(World(p, map[]), [Arrive(id, actor, op), Advance(id), Advance(id), Advance(id), Advance(id)])
            == World(match Perform(p, Resolve(p, actor), op) case Ok(next) => next case Err(_) => p, map[])
  {
    var r := Request(Resolve(p, actor), op, NeedSuper);
    RunFive(World(p, map[]), Arrive(id, actor, op), Advance(id), Advance(id), Advance(id), Advance(id));
    assert Step(World(p, map[]), Arrive(id, actor, op)) == World(p, map[id := r]);
    assert Step(World(p, map[id := r]), Advance(id)) == World(p, map[id := r.(stage := NeedRows)]);
    assert Step(World(p, map[id := r.(stage := NeedRows)]), Advance(id)) == World(p, map[id := r.(stage := Deciding)]);
    var decided := Step(World(p, map[id := r.(stage := Deciding)]), Advance(id));
    if Check(p, r.who, op).Ok? {
      assert decided == World(p, map[id := r.(stage := Ready)]);
    } else {
      assert decided == World(p, map[]);
    }
  }

  lemma RunNext(w: World, moves: seq<Move>, move: Move)
    ensures Run(w, moves + [move]) == Step(Run(w, moves), move)
  {
    assert (moves + [move])[..|moves|] == moves;
  }

  lemma RunFive(w: World, a: Move, b: Move, c: Move, d: Move, e: Move)
    ensures Run(w, [a, b, c, d, e]) == Step(Step(Step(Step(Step(w, a), b), c), d), e)
  {
    var none: seq<Move> := [];
    assert none + [a] == [a] && [a] + [b] == [a, b] && [a, b] + [c] == [a, b, c];
    assert [a, b, c] + [d] == [a, b, c, d] && [a, b, c, d] + [e] == [a, b, c, d, e];
    RunNext(w, none, a);
    RunNext(w, [a], b);
    RunNext(w, [a, b], c);
    RunNext(w, [a, b, c], d);
    RunNext(w, [a, b, c, d], e);
  }

  // -- versions over runs --

  /** Rows stay, versions never fall, and whoever was deactivated has a higher one. */
  ghost predicate VersionsRise(p: Plane, p': Plane) {
    && |p.admins| <= |p'.admins|
    && forall a :: 0 <= a < |p.admins| ==>
         && p.admins[a].version <= p'.admins[a].version
         && (p.admins[a].active && !p'.admins[a].active ==> p.admins[a].version < p'.admins[a].version)
  }

  lemma StepRaises(w: World, move: Move)
    ensures VersionsRise(w.plane, Step(w, move).plane)
  {
  }

  lemma RiseIsTransitive(p: Plane, q: Plane, r: Plane)
    requires VersionsRise(p, q) && VersionsRise(q, r)
    ensures VersionsRise(p, r)
  {
    forall a | 0 <= a < |p.admins|
      ensures && p.admins[a].version <= r.admins[a].version
              && (p.admins[a].active && !r.admins[a].active ==> p.admins[a].version < r.admins[a].version)
    {
      assert p.admins[a].version <= q.admins[a].version && q.admins[a].version <= r.admins[a].version;
    }
  }

  lemma {:induction false} EveryRunRaises(w: World, moves: seq<Move>, n: nat)
    requires n <= |moves|
    ensures VersionsRise(Run(w, moves[..n]).plane, Run(w, moves).plane)
  {
    if n == |moves| {
      assert moves[..n] == moves;
    } else {
      var init := moves[..|moves| - 1];
      assert init[..n] == moves[..n];
      EveryRunRaises(w, init, n);
      StepRaises(Run(w, init), moves[|moves| - 1]);
      RiseIsTransitive(Run(w, moves[..n]).plane, Run(w, init).plane, Run(w, moves).plane);
    }
  }

  /**
   Under every interleaving: an admin active at one moment and disabled at a later one is, from
   then on, at a higher version than at the first, whoever enables it again.
   */
  lemma DisabledNeverReturns(w: World, moves: seq<Move>, first: nat, second: nat, a: nat)
    requires first <= second <= |moves| && a < |Run(w, moves[..first]).plane.admins|
    requires Run(w, moves[..first]).plane.admins[a].active
    requires a < |Run(w, moves[..second]).plane.admins| && !Run(w, moves[..second]).plane.admins[a].active
    ensures a < |Run(w, moves).plane.admins|
    ensures Run(w, moves[..first]).plane.admins[a].version < Run(w, moves).plane.admins[a].version
  {
    assert moves[..second][..first] == moves[..first];
    EveryRunRaises(w, moves[..second], first);
    EveryRunRaises(w, moves, second);
  }
}
