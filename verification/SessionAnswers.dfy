/** When a session admits a request, in numbers, and what no later statement undoes. */
module SessionAnswers {
  import opened Results
  import opened Sessions

  /** Not revoked, inside 12 hours of login, seen in the last 30 minutes, of an active admin still at its version. */
  lemma ResolvesExactly(d: Desk, k: nat, now: int)
    ensures Resolves(d, k, now) <==>
              && k < |d.sessions| && d.sessions[k].admin < |d.admins|
              && !d.sessions[k].revoked && now < d.sessions[k].expiresAt && now < d.sessions[k].lastSeen + 1800
              && d.admins[d.sessions[k].admin].active && d.admins[d.sessions[k].admin].version == d.sessions[k].version
  {
  }

  /** Only an active account's credential is accepted, and its version is the one read then. */
  lemma LoginExactly(d: Desk, a: nat, login: nat, at: int)
    ensures Step(d, CheckCredential(a))
            == if a < |d.admins| && d.admins[a].active
               then d.(pending := d.pending[d.nextLogin := (a, d.admins[a].version)], nextLogin := d.nextLogin + 1) else d
    ensures login in d.pending ==>
              Step(d, InsertSession(login, at))
              == d.(sessions := d.sessions + [Session(d.pending[login].0, d.pending[login].1, login, at, at + 43200, false)],
                    pending := d.pending - {login})
    ensures login !in d.pending ==> Step(d, InsertSession(login, at)) == d
  {
  }

  /** A bump raises the version by one and revokes every session of the account, and of no other. */
  lemma BumpExactly(d: Desk, a: nat, disable: bool)
    requires a < |d.admins|
    ensures var d' := Step(d, Bump(a, disable));
            && d' == d.(admins := d.admins[a := Admin(d.admins[a].active && !disable, d.admins[a].version + 1)], sessions := d'.sessions)
            && |d'.sessions| == |d.sessions|
            && forall k :: 0 <= k < |d.sessions| ==>
                 d'.sessions[k] == d.sessions[k].(revoked := d.sessions[k].revoked || d.sessions[k].admin == a)
  {
  }

  /** A request admitted at least five minutes after the last touch moves it to now; no other request moves it. */
  lemma VisitExactly(d: Desk, k: nat, at: int)
    ensures var d' := Step(d, Visit(k, at));
            if Resolves(d, k, at) && at >= d.sessions[k].lastSeen + 300
            then d' == d.(sessions := d.sessions[k := d.sessions[k].(lastSeen := at)]) else d' == d
  {
    if Resolves(d, k, at) && at < d.sessions[k].lastSeen + 300 {
      assert d.sessions[k := d.sessions[k]] == d.sessions;
    }
  }

  /** Logging out revokes that one session; enabling and creating admins touch no session. */
  lemma RevokeExactly(d: Desk, k: nat, a: nat)
    ensures Step(d, Revoke(k)) == if k < |d.sessions| then d.(sessions := d.sessions[k := d.sessions[k].(revoked := true)]) else d
    ensures Step(d, Enable(a)) == if a < |d.admins| then d.(admins := d.admins[a := Admin(true, d.admins[a].version)]) else d
    ensures Step(d, CreateAdmin) == d.(admins := d.admins + [Admin(true, 0)])
  {
  }

  // -- for good --

  /** A session keeps its admin, version and end; what is revoked stays so; versions never fall. */
  ghost predicate Endures(d: Desk, d': Desk) {
    && |d.sessions| <= |d'.sessions| && |d.admins| <= |d'.admins|
    && (forall k :: 0 <= k < |d.sessions| ==>
          && d'.sessions[k].admin == d.sessions[k].admin && d'.sessions[k].version == d.sessions[k].version
          && d'.sessions[k].expiresAt == d.sessions[k].expiresAt && (d.sessions[k].revoked ==> d'.sessions[k].revoked))
    && (forall a :: 0 <= a < |d.admins| ==> d.admins[a].version <= d'.admins[a].version)
  }

  lemma StepEndures(d: Desk, move: Move)
    ensures Endures(d, Step(d, move))
  {
  }

  lemma EnduresOn(a: Desk, b: Desk, c: Desk)
    requires Endures(a, b) && Endures(b, c)
    ensures Endures(a, c)
  {
    assert forall k :: 0 <= k < |a.sessions| ==> b.sessions[k].admin == a.sessions[k].admin;
    assert forall k :: 0 <= k < |a.admins| ==> a.admins[k].version <= b.admins[k].version;
  }

  lemma {:induction false} RunsEndure(d: Desk, moves: seq<Move>)
    ensures Endures(d, Run(d, moves))
  {
    if moves != [] {
      RunsEndure(d, moves[..|moves| - 1]);
      StepEndures(Run(d, moves[..|moves| - 1]), moves[|moves| - 1]);
      EnduresOn(d, Run(d, moves[..|moves| - 1]), Run(d, moves));
    }
  }

  /** Once revoked, outdated or over, a session never admits a request again, whatever happens next. */
  lemma EndedForGood(d: Desk, moves: seq<Move>, k: nat, now: int)
    requires k < |d.sessions| && d.sessions[k].admin < |d.admins|
    requires d.sessions[k].revoked || d.sessions[k].version < d.admins[d.sessions[k].admin].version || d.sessions[k].expiresAt <= now
    ensures !Resolves(Run(d, moves), k, now)
  {
    RunsEndure(d, moves);
  }
}
