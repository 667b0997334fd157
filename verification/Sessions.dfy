/**
 Admin sessions: a login reads the credential and inserts its session later, and a session
 resolves only while its version is the account's. A bump cuts off every login that began
 before it, in whatever order the statements run.
 */
module Sessions {
  import opened Results

  const MINUTE: int := 60
  const ABSOLUTE_TTL: int := 720 * MINUTE
  const IDLE_TIMEOUT: int := 30 * MINUTE
  const TOUCH_THROTTLE: int := 5 * MINUTE

  datatype Admin = Admin(active: bool, version: nat)

  datatype Session = Session(admin: nat, version: nat, login: nat, lastSeen: int, expiresAt: int, revoked: bool)

  /** Logins whose credential has been checked but whose session is not inserted yet. */
  datatype Desk = Desk(admins: seq<Admin>, sessions: seq<Session>, pending: map<nat, (nat, nat)>, nextLogin: nat)

  datatype Move =
    | CreateAdmin
    | CheckCredential(admin: nat)
    | InsertSession(login: nat, at: int)
    | GiveUp(login: nat)
    | Bump(account: nat, disable: bool)
    | Enable(account: nat)
    | Revoke(session: nat)
    | Visit(session: nat, at: int)

  /** Live at this moment, its account's state aside. */
  predicate Fresh(s: Session, now: int) {
    !s.revoked && now < s.expiresAt && now < s.lastSeen + IDLE_TIMEOUT
  }

  predicate Resolves(d: Desk, k: nat, now: int) {
    && k < |d.sessions| && Fresh(d.sessions[k], now)
    && d.sessions[k].admin < |d.admins|
    && d.admins[d.sessions[k].admin].active
    && d.admins[d.sessions[k].admin].version == d.sessions[k].version
  }

  /** last_seen_at is rewritten only when it is at least five minutes old. */
  function Touched(s: Session, now: int): Session {
    if now >= s.lastSeen + TOUCH_THROTTLE then s.(lastSeen := now) else s
  }

  function RevokedFor(s: Session, admin: nat): Session {
    if s.admin == admin then s.(revoked := true) else s
  }

  function Step(d: Desk, move: Move): Desk {
    match move
    case CreateAdmin => d.(admins := d.admins + [Admin(true, 0)])
    case CheckCredential(a) =>
      if a < |d.admins| && d.admins[a].active
      then d.(pending := d.pending[d.nextLogin := (a, d.admins[a].version)], nextLogin := d.nextLogin + 1) else d
    case InsertSession(login, at) =>
      if login !in d.pending then d
      else
        var (a, version) := d.pending[login];
        d.(sessions := d.sessions + [Session(a, version, login, at, at + ABSOLUTE_TTL, false)], pending := d.pending - {login})
    case GiveUp(login) => d.(pending := d.pending - {login})
    case Bump(a, disable) =>
      if a >= |d.admins| then d
      else
        var row := d.admins[a];
        d.(admins := d.admins[a := Admin(row.active && !disable, row.version + 1)],
           sessions := seq(|d.sessions|, i requires 0 <= i < |d.sessions| => RevokedFor(d.sessions[i], a)))
    case Enable(a) => if a < |d.admins| then d.(admins := d.admins[a := d.admins[a].(active := true)]) else d
    case Revoke(k) => if k < |d.sessions| then d.(sessions := d.sessions[k := d.sessions[k].(revoked := true)]) else d
    case Visit(k, at) => if Resolves(d, k, at) then d.(sessions := d.sessions[k := Touched(d.sessions[k], at)]) else d
  }

  function Run(d: Desk, moves: seq<Move>): Desk {
    if moves == [] then d else Step(Run(d, moves[..|moves| - 1]), moves[|moves| - 1])
  }

  const NOBODY := Desk([], [], map[], 0)

  // -- bumps cut off earlier logins --

  /** Versions read are never ahead, and login numbers are handed out once. */
  ghost predicate Ordered(d: Desk) {
    && (forall i :: 0 <= i < |d.sessions| ==>
          && d.sessions[i].admin < |d.admins| && d.sessions[i].version <= d.admins[d.sessions[i].admin].version
          && d.sessions[i].login < d.nextLogin)
    && (forall l :: l in d.pending ==>
          && l < d.nextLogin && d.pending[l].0 < |d.admins| && d.pending[l].1 <= d.admins[d.pending[l].0].version)
  }

  /** Logins of the account numbered below cut, inserted or still pending, carry an outdated version. */
  ghost predicate CutOff(d: Desk, a: nat, cut: nat) {
    && a < |d.admins| && cut <= d.nextLogin
    && (forall i :: 0 <= i < |d.sessions| && d.sessions[i].admin == a && d.sessions[i].login < cut ==> d.sessions[i].version < d.admins[a].version)
    && (forall l :: l in d.pending && d.pending[l].0 == a && l < cut ==> d.pending[l].1 < d.admins[a].version)
  }

  lemma StepStaysOrdered(d: Desk, move: Move)
    requires Ordered(d)
    ensures Ordered(Step(d, move))
  {
  }

  lemma {:induction false} EveryRunIsOrdered(moves: seq<Move>)
    ensures Ordered(Run(NOBODY, moves))
  {
    if moves != [] {
      EveryRunIsOrdered(moves[..|moves| - 1]);
      StepStaysOrdered(Run(NOBODY, moves[..|moves| - 1]), moves[|moves| - 1]);
    }
  }

  lemma BumpCutsOff(d: Desk, a: nat, disable: bool)
    requires Ordered(d) && a < |d.admins|
    ensures CutOff(Step(d, Bump(a, disable)), a, d.nextLogin)
  {
  }

  lemma StaysCutOff(d: Desk, move: Move, a: nat, cut: nat)
    requires Ordered(d) && CutOff(d, a, cut)
    ensures CutOff(Step(d, move), a, cut)
  {
  }

  lemma {:induction false} CutOffForGood(before: seq<Move>, a: nat, disable: bool, after: seq<Move>)
    requires a < |Run(NOBODY, before).admins|
    ensures CutOff(Run(NOBODY, before + [Bump(a, disable)] + after), a, Run(NOBODY, before).nextLogin)
  {
    var bumped := before + [Bump(a, disable)];
    if after == [] {
      EveryRunIsOrdered(before);
      assert bumped + after == bumped && bumped[..|bumped| - 1] == before;
      BumpCutsOff(Run(NOBODY, before), a, disable);
    } else {
      var init := after[..|after| - 1];
      CutOffForGood(before, a, disable, init);
      EveryRunIsOrdered(bumped + init);
      assert (bumped + after)[..|bumped + after| - 1] == bumped + init;
      StaysCutOff(Run(NOBODY, bumped + init), after[|after| - 1], a, Run(NOBODY, before).nextLogin);
    }
  }

  /**
   A session whose credential check preceded a bump never resolves after it, whether it was
   inserted before the bump or after, and whatever is enabled later.
   */
  lemma StaleNeverResolves(before: seq<Move>, a: nat, disable: bool, after: seq<Move>, k: nat, now: int)
    requires a < |Run(NOBODY, before).admins|
    requires var d := Run(NOBODY, before + [Bump(a, disable)] + after);
             k < |d.sessions| && d.sessions[k].admin == a && d.sessions[k].login < Run(NOBODY, before).nextLogin
    ensures !Resolves(Run(NOBODY, before + [Bump(a, disable)] + after), k, now)
  {
    CutOffForGood(before, a, disable, after);
  }

  // -- idle time --

  function Visited(s: Session, times: seq<int>): Session {
    if times == [] then s else Touched(Visited(s, times[..|times| - 1]), times[|times| - 1])
  }

  /** Every request finds the session live. */
  predicate KeptAlive(s: Session, times: seq<int>) {
    times == [] || (KeptAlive(s, times[..|times| - 1]) && Fresh(Visited(s, times[..|times| - 1]), times[|times| - 1]))
  }

  function Last(s: Session, times: seq<int>): int {
    if times == [] then s.lastSeen else times[|times| - 1]
  }

  /** The throttle makes last_seen_at lag the last request by less than five minutes. */
  lemma {:induction false} LagIsThrottled(s: Session, times: seq<int>)
    requires forall i :: 0 <= i < |times| ==> s.lastSeen <= times[i]
    requires forall i, j :: 0 <= i < j < |times| ==> times[i] <= times[j]
    ensures var v := Visited(s, times);
            && v.lastSeen <= Last(s, times) < v.lastSeen + TOUCH_THROTTLE
            && v.expiresAt == s.expiresAt && v.revoked == s.revoked
  {
    if times != [] {
      LagIsThrottled(s, times[..|times| - 1]);
    }
  }

  function Gap(s: Session, times: seq<int>, i: nat): int
    requires i < |times|
  {
    times[i] - if i == 0 then s.lastSeen else times[i - 1]
  }

  /** Gaps of at most 25 minutes keep an otherwise valid session alive until its absolute expiry. */
  lemma {:induction false} ShortGapsKeepAlive(s: Session, times: seq<int>)
    requires !s.revoked
    requires forall i: nat :: i < |times| ==> 0 <= Gap(s, times, i) <= 25 * MINUTE
    requires forall i :: 0 <= i < |times| ==> times[i] < s.expiresAt
    ensures KeptAlive(s, times)
    ensures forall i :: 0 <= i < |times| ==> s.lastSeen <= times[i]
    ensures forall i, j :: 0 <= i < j < |times| ==> times[i] <= times[j]
  {
    if times != [] {
      var init := times[..|times| - 1];
      forall i: nat | i < |init| ensures 0 <= Gap(s, init, i) <= 25 * MINUTE {
        assert Gap(s, init, i) == Gap(s, times, i);
      }
      ShortGapsKeepAlive(s, init);
      assert 0 <= Gap(s, times, |init|) <= 25 * MINUTE;
      LagIsThrottled(s, init);
    }
  }

  /** A gap of 30 minutes or more always ends it. */
  lemma LongGapEnds(s: Session, times: seq<int>, now: int)
    requires forall i :: 0 <= i < |times| ==> s.lastSeen <= times[i]
    requires forall i, j :: 0 <= i < j < |times| ==> times[i] <= times[j]
    requires now - Last(s, times) >= 30 * MINUTE
    ensures !Fresh(Visited(s, times), now)
  {
    LagIsThrottled(s, times);
  }

  lemma OneVisit(s: Session, at: int)
    ensures Visited(s, [at]) == Touched(s, at)
    ensures KeptAlive(s, [at]) <==> Fresh(s, at)
  {
    assert [at][..0] == [];
    assert Visited(s, []) == s && KeptAlive(s, []);
  }

  /** In between, the gap alone does not decide: the same gap ends one session and not another. */
  lemma MiddleGapsDependOnTheTouch(s: Session, gap: int)
    requires !s.revoked && s.expiresAt == s.lastSeen + ABSOLUTE_TTL
    requires 25 * MINUTE < gap < 30 * MINUTE
    ensures var early := s.lastSeen + IDLE_TIMEOUT - gap;
            KeptAlive(s, [early]) && !Fresh(Visited(s, [early]), early + gap)
    ensures var later := s.lastSeen + TOUCH_THROTTLE;
            KeptAlive(s, [later]) && Fresh(Visited(s, [later]), later + gap)
  {
    var early, later := s.lastSeen + IDLE_TIMEOUT - gap, s.lastSeen + TOUCH_THROTTLE;
    OneVisit(s, early);
    OneVisit(s, later);
  }

  // -- the tables in place --

  class SessionTables {
    var admins: seq<Admin>
    var sessions: seq<Session>
    var pending: map<nat, (nat, nat)>
    var nextLogin: nat

    function State(): Desk
      reads this
    {
      Desk(admins, sessions, pending, nextLogin)
    }

    constructor ()
      ensures State() == NOBODY
    {
      admins, sessions, pending, nextLogin := [], [], map[], 0;
    }

    /** First half of a login: the row as it is now, version included. */
    method ReadCredential(a: nat) returns (login: Option<nat>)
      modifies this`pending, this`nextLogin
      ensures State() == Step(old(State()), CheckCredential(a))
      ensures login.Some? <==> a < |admins| && admins[a].active
      ensures login.Some? ==> login.value == old(nextLogin) && pending[login.value] == (a, admins[a].version)
    {
      if a >= |admins| || !admins[a].active {
        return None;
      }
      pending := pending[nextLogin := (a, admins[a].version)];
      login := Some(nextLogin);
      nextLogin := nextLogin + 1;
    }

    /** Second half: the session is stored with the version read then. */
    method StoreSession(login: nat, now: int)
      modifies this`sessions, this`pending
      ensures State() == Step(old(State()), InsertSession(login, now))
    {
      if login in pending {
        var (a, version) := pending[login];
        sessions := sessions + [Session(a, version, login, now, now + ABSOLUTE_TTL, false)];
        pending := pending - {login};
      }
    }

    method BumpAuthVersionAndRevokeSessions(a: nat, disable: bool)
      modifies this`admins, this`sessions
      ensures State() == Step(old(State()), Bump(a, disable))
    {
      if a < |admins| {
        admins := admins[a := Admin(admins[a].active && !disable, admins[a].version + 1)];
        var was := sessions;
        sessions := seq(|was|, i requires 0 <= i < |was| => RevokedFor(was[i], a));
      }
    }

    method ResolveSession(k: nat, now: int) returns (admitted: bool)
      modifies this`sessions
      ensures admitted <==> Resolves(old(State()), k, now)
      ensures State() == Step(old(State()), Visit(k, now))
    {
      if k >= |sessions| {
        return false;
      }
      var s := sessions[k];
      if s.revoked || s.expiresAt <= now || now >= s.lastSeen + IDLE_TIMEOUT {
        return false;
      }
      if s.admin >= |admins| || !admins[s.admin].active || s.version != admins[s.admin].version {
        return false;
      }
      if now >= s.lastSeen + TOUCH_THROTTLE {
        sessions := sessions[k := s.(lastSeen := now)];
      }
      admitted := true;
    }
  }
}
