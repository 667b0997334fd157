/** The admin tables as the program updates them, each transaction proved equal to its specification. */
module AdminStore {
  import opened Results
  import A = AdminPlane
  import opened AdminPlane

  ghost predicate Did(before: Plane, after: Plane, failure: Option<Error>, spec: Result<Plane>) {
    match spec
    case Ok(next) => failure.None? && after == next
    case Err(error) => failure == Some(error) && after == before
  }

  ghost predicate Distinct<T>(values: seq<T>) {
    forall i, j :: 0 <= i < j < |values| ==> values[i] != values[j]
  }

  /** Public role ids are positive; id n is row n - 1. */
  function RowOf(id: int): nat {
    if id > 0 then id - 1 else 0
  }

  function RowsOf(ids: seq<int>): set<nat> {
    set id | id in ids :: RowOf(id)
  }

  /** Any id that is not positive fails the whole request; duplicates collapse, first occurrence kept. */
  method CollapseIds(roleIds: seq<int>) returns (ids: Option<seq<int>>)
    ensures ids.None? <==> exists id :: id in roleIds && id <= 0
    ensures ids.Some? ==> Distinct(ids.value) && forall id :: id in ids.value <==> id in roleIds
  {
    var seen: set<int> := {};
    var out: seq<int> := [];
    for i := 0 to |roleIds|
      invariant forall id :: id in seen <==> id in roleIds[..i]
      invariant forall id :: id in out <==> id in seen
      invariant forall id :: id in seen ==> id > 0
      invariant Distinct(out)
    {
      if roleIds[i] <= 0 {
        assert roleIds[i] in roleIds;
        return None;
      }
      assert roleIds[..i + 1] == roleIds[..i] + [roleIds[i]];
      if roleIds[i] !in seen {
        seen := seen + {roleIds[i]};
        out := out + [roleIds[i]];
      }
    }
    assert roleIds[..|roleIds|] == roleIds;
    ids := Some(out);
  }

  class AdminTables {
    var admins: seq<AdminRow>
    var roles: seq<RoleRow>
    var bindings: set<(nat, nat)>
    var catalog: set<string>

    function State(): Plane
      reads this
    {
      Plane(admins, roles, bindings, catalog)
    }

    constructor (catalog: set<string>)
      ensures State() == Plane([AdminRow(true, 0)], [RoleRow(true, true, {WILDCARD})], {(0, SUPER)}, catalog)
    {
      admins, roles, bindings := [AdminRow(true, 0)], [RoleRow(true, true, {WILDCARD})], {(0, SUPER)};
      this.catalog := catalog;
    }

    /** Ends the account and every session opened under its version; an account already disabled stays as it is. */
    method DisableAdmin(who: Principal, t: nat) returns (failure: Option<Error>)
      modifies this`admins
      ensures Did(old(State()), State(), failure, A.Perform(old(State()), who, A.DisableAdmin(t)))
      ensures failure.None? ==> t < |admins| == |old(admins)| && !admins[t].active
      ensures failure.None? && old(admins)[t].active ==> admins[t].version == old(admins)[t].version + 1
      ensures failure.None? && !old(admins)[t].active ==> admins == old(admins)
      ensures |admins| == |old(admins)| && forall a :: 0 <= a < |admins| && a != t ==> admins[a] == old(admins)[a]
    {
      if !who.Has(USERS) {
        return Some(NotOwner);
      }
      if t >= |admins| {
        return Some(NotFound);
      }
      if !who.Has(WILDCARD) && IsSuperadmin(State(), t) {
        return Some(NotOwner);
      }
      failure := None;
      if !admins[t].active {
        return;
      }
      if IsActiveSuperadmin(State(), t) && |ActiveSuperadmins(State())| <= 1 {
        return Some(Conflict);
      }
      admins := admins[t := admins[t].(active := false)];
      BumpAuthVersion(t);
    }

    method BumpAuthVersion(t: nat)
      modifies this`admins
      ensures admins == if t < |old(admins)| then old(admins)[t := Bumped(old(admins)[t])] else old(admins)
    {
      if t < |admins| {
        admins := admins[t := admins[t].(version := admins[t].version + 1)];
      }
    }

    /** Restores the account only: its version stays, so no revoked session comes back. */
    method EnableAdmin(who: Principal, t: nat) returns (failure: Option<Error>)
      modifies this`admins
      ensures Did(old(State()), State(), failure, A.Perform(old(State()), who, A.EnableAdmin(t)))
      ensures failure.None? ==> && t < |admins| && |admins| == |old(admins)|
                                && admins[t].active && admins[t].version == old(admins)[t].version
      ensures ActiveSuperadmins(old(State())) <= ActiveSuperadmins(State())
      ensures SuperSeeded(old(State())) ==> SuperSeeded(State())
    {
      if !who.Has(USERS) {
        return Some(NotOwner);
      }
      if t >= |admins| {
        return Some(NotFound);
      }
      if !admins[t].active {
        admins := admins[t := admins[t].(active := true)];
      }
      failure := None;
    }

    /** Deletes every binding of the admin, then inserts the new ones one by one. */
    method ReplaceAdminUserRoles(a: nat, ids: seq<int>)
      modifies this`bindings
      ensures bindings == Replaced(old(bindings), a, RowsOf(ids))
    {
      bindings := set b | b in bindings && b.0 != a;
      ghost var kept := bindings;
      for i := 0 to |ids|
        invariant bindings == kept + set id | id in ids[..i] :: (a, RowOf(id))
      {
        assert ids[..i + 1] == ids[..i] + [ids[i]];
        bindings := bindings + {(a, RowOf(ids[i]))};
      }
      assert ids[..|ids|] == ids;
      assert (set id | id in ids :: (a, RowOf(id))) == set r | r in RowsOf(ids) :: (a, r);
    }

    /** Validation, membership guard, replacement, and the count afterwards; a count of none rolls back. */
    method SetAdminRoles(who: Principal, t: nat, roleIds: seq<int>) returns (failure: Option<Error>)
      modifies this`bindings
      ensures (exists id :: id in roleIds && id <= 0) ==> failure.Some? && State() == old(State())
      ensures (forall id :: id in roleIds ==> id > 0) ==>
                Did(old(State()), State(), failure, A.Perform(old(State()), who, A.SetAdminRoles(t, RowsOf(roleIds))))
    {
      if !who.Has(ROLES) {
        return Some(NotOwner);
      }
      var collapsed := CollapseIds(roleIds);
      if collapsed.None? {
        return Some(ValidationFailed);
      }
      var ids := collapsed.value;
      assert RowsOf(ids) == RowsOf(roleIds);
      if t >= |admins| {
        return Some(NotFound);
      }
      if id :| id in ids && RowOf(id) >= |roles| {
        assert RowOf(id) in RowsOf(ids);
        return Some(NotFound);
      }
      assert forall r :: r in RowsOf(roleIds) ==> r < |roles|;
      var before, after := (t, SUPER) in bindings, (SUPER + 1) in ids;
      assert after ==> RowOf(SUPER + 1) in RowsOf(ids);
      assert after <==> SUPER in RowsOf(roleIds);
      if before != after && !who.Has(WILDCARD) {
        return Some(NotOwner);
      }
      var saved := bindings;
      ReplaceAdminUserRoles(t, ids);
      if before && !after && admins[t].active && |ActiveSuperadmins(State())| < 1 {
        bindings := saved;
        return Some(Conflict);
      }
      failure := None;
    }

    /** Blank codes are refused before any row is read; duplicates collapse. */
    method SetRolePermissions(who: Principal, r: nat, permissionCodes: seq<string>) returns (failure: Option<Error>)
      modifies this`roles
      ensures "" in permissionCodes ==> failure.Some? && State() == old(State())
      ensures "" !in permissionCodes ==>
                Did(old(State()), State(), failure,
                    A.Perform(old(State()), who, A.SetRolePermissions(r, set c | c in permissionCodes)))
    {
      if !who.Has(ROLES) {
        return Some(NotOwner);
      }
      var normalized: set<string> := {};
      for i := 0 to |permissionCodes|
        invariant normalized == set c | c in permissionCodes[..i]
        invariant "" !in permissionCodes[..i]
      {
        if permissionCodes[i] == "" {
          return Some(ValidationFailed);
        }
        assert permissionCodes[..i + 1] == permissionCodes[..i] + [permissionCodes[i]];
        normalized := normalized + {permissionCodes[i]};
      }
      assert permissionCodes[..|permissionCodes|] == permissionCodes;
      if r >= |roles| {
        return Some(NotFound);
      }
      if roles[r].system {
        return Some(Conflict);
      }
      if WILDCARD in normalized {
        return Some(NotOwner);
      }
      if !(normalized <= catalog) {
        return Some(ValidationFailed);
      }
      roles := roles[r := roles[r].(permissions := normalized)];
      failure := None;
    }

    /** Custom roles only: who holds the wildcard, and who is a superadmin, does not depend on it. */
    method UpdateRole(who: Principal, r: nat, status: bool) returns (failure: Option<Error>)
      modifies this`roles
      ensures Did(old(State()), State(), failure, A.Perform(old(State()), who, A.UpdateRole(r, status)))
      ensures SuperSeeded(old(State())) ==>
                && SuperSeeded(State()) && (r == SUPER ==> failure.Some?)
                && ActiveSuperadmins(State()) == ActiveSuperadmins(old(State()))
                && forall a :: Resolve(State(), a).Has(WILDCARD) <==> Resolve(old(State()), a).Has(WILDCARD)
    {
      ghost var before := State();
      RoleOutcome(before, r, status);
      if !who.Has(ROLES) {
        return Some(NotOwner);
      }
      if r >= |roles| {
        return Some(NotFound);
      }
      if roles[r].system {
        return Some(Conflict);
      }
      roles := roles[r := roles[r].(active := status)];
      failure := None;
    }
  }

  lemma RoleOutcome(p: Plane, r: nat, status: bool)
    ensures var p' := Write(p, A.UpdateRole(r, status));
            SuperSeeded(p) ==>
              && SuperSeeded(p') && ActiveSuperadmins(p') == ActiveSuperadmins(p)
              && forall a :: Resolve(p', a).Has(WILDCARD) <==> Resolve(p, a).Has(WILDCARD)
  {
    var p' := Write(p, A.UpdateRole(r, status));
    if SuperSeeded(p) {
      assert p'.bindings == p.bindings;
      forall a: nat ensures Resolve(p', a).Has(WILDCARD) <==> Resolve(p, a).Has(WILDCARD) {
        WildcardIsMembership(p, a);
        WildcardIsMembership(p', a);
      }
    }
  }
}
