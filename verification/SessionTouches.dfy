/**
 The idle clock of one session when reading it and touching it are two statements: requests
 overlap, and a late touch may move the time last seen backwards.
 */
module SessionTouches {
  import opened Sessions

  /** The time last seen, the latest request, the latest moment, and the touches still to be written. */
  datatype Idle = Idle(lastSeen: int, latest: int, clock: int, pending: set<int>)

  datatype Event =
    | Request(at: int)
    | Write(touch: int, at: int)

  predicate Live(s: Idle, at: int) {
    at < s.lastSeen + IDLE_TIMEOUT
  }

  /** A request reads the row and decides on a touch; the touch is written later. */
  function Next(s: Idle, event: Event): Idle {
    match event
    case Request(at) =>
      var touches := if Live(s, at) && at >= s.lastSeen + TOUCH_THROTTLE then {at} else {};
      Idle(s.lastSeen, at, at, s.pending + touches)
    case Write(touch, at) =>
      if touch in s.pending then Idle(touch, s.latest, at, s.pending - {touch}) else s.(clock := at)
  }

  function After(s: Idle, events: seq<Event>): Idle {
    if events == [] then s else Next(After(s, events[..|events| - 1]), events[|events| - 1])
  }

  function Moment(event: Event): int {
    match event case Request(at) => at case Write(_, at) => at
  }

  /** Time passes, no touch is written later than delay after its request, and requests are at most gap apart. */
  predicate Timely(s: Idle, event: Event, gap: int, delay: int) {
    && Moment(event) >= s.clock
    && (forall p :: p in s.pending ==> Moment(event) <= p + delay)
    && (event.Request? ==> event.at <= s.latest + gap)
  }

  ghost predicate AllTimely(s: Idle, events: seq<Event>, gap: int, delay: int) {
    events == [] || (AllTimely(s, events[..|events| - 1], gap, delay)
                     && Timely(After(s, events[..|events| - 1]), events[|events| - 1], gap, delay))
  }

  /** Every request finds the session live. */
  ghost predicate NeverIdle(s: Idle, events: seq<Event>) {
    events == [] || (NeverIdle(s, events[..|events| - 1])
                     && (events[|events| - 1].Request? ==> Live(After(s, events[..|events| - 1]), events[|events| - 1].at)))
  }

  /**
   Either the latest request is hardly ahead of the time last seen, or some pending touch will
   be written before the session can idle out.
   */
  ghost predicate Caught(s: Idle, delay: int) {
    && s.latest <= s.clock
    && (forall p :: p in s.pending ==> p <= s.latest)
    && (|| s.latest < s.lastSeen + TOUCH_THROTTLE
        || s.latest <= s.lastSeen + delay
        || exists p :: p in s.pending && p < s.lastSeen + IDLE_TIMEOUT - delay)
  }

  lemma RequestIsLive(s: Idle, at: int, gap: int, delay: int)
    requires 0 <= delay < TOUCH_THROTTLE && gap <= 25 * MINUTE - delay
    requires Caught(s, delay) && Timely(s, Request(at), gap, delay)
    ensures Live(s, at) && Caught(Next(s, Request(at)), delay)
  {
    var s' := Next(s, Request(at));
    if p :| p in s.pending && p < s.lastSeen + IDLE_TIMEOUT - delay {
      assert p in s'.pending;
    } else {
      assert at >= s.lastSeen + TOUCH_THROTTLE ==> at in s'.pending;
    }
  }

  lemma WriteIsCaught(s: Idle, touch: int, at: int, gap: int, delay: int)
    requires 0 <= delay < TOUCH_THROTTLE
    requires Caught(s, delay) && Timely(s, Write(touch, at), gap, delay)
    ensures Caught(Next(s, Write(touch, at)), delay)
  {
    assert touch in s.pending ==> s.latest <= s.clock <= at <= touch + delay;
  }

  /**
   However requests and touches interleave: when touches are written within delay, gaps of at
   most 25 minutes less the delay keep an otherwise valid session from idling out.
   */
  lemma {:induction false} LateTouchesKeepAlive(s: Idle, events: seq<Event>, gap: int, delay: int)
    requires 0 <= delay < TOUCH_THROTTLE && gap <= 25 * MINUTE - delay
    requires Caught(s, delay) && AllTimely(s, events, gap, delay)
    ensures NeverIdle(s, events) && Caught(After(s, events), delay)
  {
    if events != [] {
      var init, last := events[..|events| - 1], events[|events| - 1];
      LateTouchesKeepAlive(s, init, gap, delay);
      match last
      case Request(at) => RequestIsLive(After(s, init), at, gap, delay);
      case Write(touch, at) => WriteIsCaught(After(s, init), touch, at, gap, delay);
    }
  }

  /** A session just stored has nothing to catch up with. */
  lemma StoredIsCaught(now: int, delay: int)
    requires 0 <= delay
    ensures Caught(Idle(now, now, now, {}), delay)
  {
  }

  lemma AfterOneMore(s: Idle, events: seq<Event>, event: Event, gap: int, delay: int)
    ensures After(s, events + [event]) == Next(After(s, events), event)
    ensures AllTimely(s, events + [event], gap, delay) <==> AllTimely(s, events, gap, delay) && Timely(After(s, events), event, gap, delay)
    ensures NeverIdle(s, events + [event])
            <==> NeverIdle(s, events) && (event.Request? ==> Live(After(s, events), event.at))
  {
    assert (events + [event])[..|events|] == events;
  }

  /** Just before it turns stale; as late as possible; and once more before the touch is written. */
  function TooFar(delay: int): seq<Event> {
    [] + [Request(TOUCH_THROTTLE - 1)] + [Request(IDLE_TIMEOUT - delay)] + [Request(IDLE_TIMEOUT)]
  }

  /** The bound is exact: for every delay, gaps one second longer can end a session in use. */
  lemma OneSecondMoreEnds(delay: int)
    requires 0 <= delay < TOUCH_THROTTLE
    ensures var s := Idle(0, 0, 0, {});
            AllTimely(s, TooFar(delay), 25 * MINUTE - delay + 1, delay) && !NeverIdle(s, TooFar(delay))
  {
    var s := Idle(0, 0, 0, {});
    var gap := 25 * MINUTE - delay + 1;
    var none: seq<Event> := [];
    var first := none + [Request(TOUCH_THROTTLE - 1)];
    AfterOneMore(s, none, Request(TOUCH_THROTTLE - 1), gap, delay);
    AfterOneMore(s, first, Request(IDLE_TIMEOUT - delay), gap, delay);
    AfterOneMore(s, first + [Request(IDLE_TIMEOUT - delay)], Request(IDLE_TIMEOUT), gap, delay);
  }

  /** Two overlapping requests write their touches in the other order, and the time last seen moves back. */
  lemma TouchMovesBack()
    ensures var s := Idle(0, 0, 0, {});
            var read := [] + [Request(400)] + [Request(500)];
            && After(s, read + [Write(500, 500)]).lastSeen == 500
            && After(s, read + [Write(500, 500)] + [Write(400, 500)]).lastSeen == 400
  {
    var s := Idle(0, 0, 0, {});
    var none: seq<Event> := [];
    var one := none + [Request(400)];
    AfterOneMore(s, none, Request(400), 0, 0);
    AfterOneMore(s, one, Request(500), 0, 0);
    AfterOneMore(s, one + [Request(500)], Write(500, 500), 0, 0);
    AfterOneMore(s, one + [Request(500)] + [Write(500, 500)], Write(400, 500), 0, 0);
  }
}
