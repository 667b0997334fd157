/**
 The in-memory sliding-window limiter. It keeps only what its last calls left inside the
 window, and yet decides as if it remembered every request it ever allowed.
 */
module RateLimit {
  const THIRTY_DAYS: nat := 2592000

  datatype Config = Config(window: nat, limit: int, enabled: bool)

  datatype Outcome = Outcome(allowed: bool, retryAfter: int, limit: int, window: int)

  const UNLIMITED := Outcome(true, 0, 0, 0)

  // -- windows --

  /** The timestamps after now - window, in order. */
  function InWindow(ts: seq<int>, now: int, window: int): seq<int> {
    if ts == [] then []
    else
      var rest := InWindow(ts[..|ts| - 1], now, window);
      if ts[|ts| - 1] > now - window then rest + [ts[|ts| - 1]] else rest
  }

  function Least(ts: seq<int>): int
    requires ts != []
  {
    if |ts| == 1 then ts[0]
    else
      var rest := Least(ts[..|ts| - 1]);
      if ts[|ts| - 1] < rest then ts[|ts| - 1] else rest
  }

  /** Seconds until the oldest request in the window leaves it; 0 when allowed or when there is none. */
  function RetryAfter(allowed: bool, ts: seq<int>, window: int, now: int): int {
    if allowed || ts == [] then 0
    else
      var wait := Least(ts) + window - now;
      if wait < 0 then 0 else wait
  }

  // -- one key --

  datatype Op = Check | Inspect | Collect

  /** What is stored for a key, beside every request ever allowed for it. */
  datatype Bucket = Bucket(stored: seq<int>, history: seq<int>)

  function Step(b: Bucket, cfg: Config, op: Op, now: int): Bucket {
    match op
    case Check =>
      var kept := InWindow(b.stored, now, cfg.window);
      if |kept| >= cfg.limit then Bucket(kept, b.history) else Bucket(kept + [now], b.history + [now])
    case Inspect => Bucket(InWindow(b.stored, now, cfg.window), b.history)
    case Collect => Bucket(InWindow(b.stored, now, THIRTY_DAYS), b.history)
  }

  function Run(cfg: Config, ops: seq<(Op, int)>): Bucket {
    if ops == [] then Bucket([], [])
    else Step(Run(cfg, ops[..|ops| - 1]), cfg, ops[|ops| - 1].0, ops[|ops| - 1].1)
  }

  predicate Monotone(ops: seq<(Op, int)>) {
    forall i, j :: 0 <= i < j < |ops| ==> ops[i].1 <= ops[j].1
  }

  predicate Sorted(ts: seq<int>) {
    forall i, j :: 0 <= i < j < |ts| ==> ts[i] <= ts[j]
  }

  lemma {:induction false} WindowSelects(ts: seq<int>, now: int, window: int)
    ensures forall x :: x in InWindow(ts, now, window) <==> x in ts && x > now - window
    ensures |InWindow(ts, now, window)| <= |ts|
  {
    if ts != [] {
      WindowSelects(ts[..|ts| - 1], now, window);
      assert ts == ts[..|ts| - 1] + [ts[|ts| - 1]];
    }
  }

  lemma WindowAppends(ts: seq<int>, t: int, now: int, window: int)
    ensures InWindow(ts + [t], now, window) == InWindow(ts, now, window) + if t > now - window then [t] else []
  {
    assert (ts + [t])[..|ts|] == ts;
  }

  /** Narrowing a window that was already applied gives the narrow window of the original. */
  lemma {:induction false} WindowNarrows(ts: seq<int>, early: int, wide: int, now: int, window: int)
    requires early - wide <= now - window
    ensures InWindow(InWindow(ts, early, wide), now, window) == InWindow(ts, now, window)
  {
    if ts != [] {
      var init, t := ts[..|ts| - 1], ts[|ts| - 1];
      WindowNarrows(init, early, wide, now, window);
      if t > early - wide {
        WindowAppends(InWindow(init, early, wide), t, now, window);
      }
    }
  }

  // -- agreement with the full history --

  /** From time now on, the stored timestamps answer for the whole history. */
  ghost predicate Agrees(b: Bucket, cfg: Config, now: int) {
    forall t :: t >= now ==> InWindow(b.stored, t, cfg.window) == InWindow(b.history, t, cfg.window)
  }

  /** At most limit requests were allowed in the window before any allowed one, itself included. */
  ghost predicate WithinLimit(history: seq<int>, cfg: Config) {
    forall n :: 0 < n <= |history| ==> |InWindow(history[..n], history[n - 1], cfg.window)| <= cfg.limit
  }

  ghost predicate BucketOk(b: Bucket, cfg: Config, now: int) {
    && Agrees(b, cfg, now) && WithinLimit(b.history, cfg) && Sorted(b.history)
    && (forall i :: 0 <= i < |b.history| ==> b.history[i] <= now)
  }

  lemma PruneAgrees(b: Bucket, cfg: Config, early: int, wide: int, now: int)
    requires Agrees(b, cfg, early) && early <= now && cfg.window <= wide
    ensures Agrees(Bucket(InWindow(b.stored, now, wide), b.history), cfg, now)
  {
    forall t | t >= now
      ensures InWindow(InWindow(b.stored, now, wide), t, cfg.window) == InWindow(b.history, t, cfg.window)
    {
      WindowNarrows(b.stored, now, wide, t, cfg.window);
    }
  }

  lemma StepKeeps(b: Bucket, cfg: Config, op: Op, early: int, now: int)
    requires BucketOk(b, cfg, early) && early <= now && cfg.window <= THIRTY_DAYS
    ensures BucketOk(Step(b, cfg, op, now), cfg, now)
  {
    var wide := if op == Collect then THIRTY_DAYS else cfg.window;
    PruneAgrees(b, cfg, early, wide, now);
    var kept := InWindow(b.stored, now, cfg.window);
    if op == Check && |kept| < cfg.limit {
      AdmitKeeps(b, cfg, kept, now);
    }
  }

  lemma AdmitKeeps(b: Bucket, cfg: Config, kept: seq<int>, now: int)
    requires Agrees(Bucket(kept, b.history), cfg, now) && WithinLimit(b.history, cfg) && Sorted(b.history)
    requires forall i :: 0 <= i < |b.history| ==> b.history[i] <= now
    requires kept == InWindow(b.history, now, cfg.window) && |kept| < cfg.limit
    ensures BucketOk(Bucket(kept + [now], b.history + [now]), cfg, now)
  {
    var h := b.history + [now];
    forall t | t >= now ensures InWindow(kept + [now], t, cfg.window) == InWindow(h, t, cfg.window) {
      WindowAppends(kept, now, t, cfg.window);
      WindowAppends(b.history, now, t, cfg.window);
    }
    forall n | 0 < n <= |h| ensures |InWindow(h[..n], h[n - 1], cfg.window)| <= cfg.limit {
      if n <= |b.history| {
        assert h[..n] == b.history[..n];
      } else {
        assert h[..n] == h;
        WindowAppends(b.history, now, now, cfg.window);
      }
    }
  }

  /** Whatever checks, inspections and collections came before, in clock order. */
  lemma {:induction false} EveryRunAgrees(cfg: Config, ops: seq<(Op, int)>, now: int)
    requires Monotone(ops) && cfg.window <= THIRTY_DAYS
    requires ops != [] ==> ops[|ops| - 1].1 <= now
    ensures BucketOk(Run(cfg, ops), cfg, now)
  {
    if ops != [] {
      var init, last := ops[..|ops| - 1], ops[|ops| - 1];
      EveryRunAgrees(cfg, init, last.1);
      StepKeeps(Run(cfg, init), cfg, last.0, last.1, last.1);
    }
  }

  /** A check passes exactly when the full history holds fewer than limit requests in the window. */
  lemma CheckIsExact(cfg: Config, ops: seq<(Op, int)>, now: int)
    requires Monotone(ops) && cfg.window <= THIRTY_DAYS
    requires ops != [] ==> ops[|ops| - 1].1 <= now
    ensures var b := Run(cfg, ops);
            |Step(b, cfg, Check, now).history| > |b.history| <==> |InWindow(b.history, now, cfg.window)| < cfg.limit
  {
    EveryRunAgrees(cfg, ops, now);
  }

  // -- the limit --

  /** Allowed requests in an interval are the last ones up to its end that lie in the window. */
  lemma {:induction false} IntervalIsSmall(history: seq<int>, cfg: Config, n: nat, end: int)
    requires n <= |history| && WithinLimit(history, cfg) && Sorted(history) && cfg.limit >= 0
    requires forall i :: 0 <= i < n ==> history[i] <= end
    ensures |InWindow(history[..n], end, cfg.window)| <= cfg.limit
  {
    if n > 0 {
      assert history[..n][..n - 1] == history[..n - 1];
      if history[n - 1] > end - cfg.window {
        WindowNarrows(history[..n], history[n - 1], cfg.window, end, cfg.window);
        WindowSelects(InWindow(history[..n], history[n - 1], cfg.window), end, cfg.window);
      } else {
        IntervalIsSmall(history, cfg, n - 1, end);
      }
    }
  }

  /** No interval of the window's length ever holds more than limit allowed requests. */
  lemma AtMostLimitPerWindow(cfg: Config, ops: seq<(Op, int)>, n: nat, end: int)
    requires Monotone(ops) && cfg.window <= THIRTY_DAYS && cfg.limit >= 0
    requires n <= |Run(cfg, ops).history|
    requires forall i :: 0 <= i < n ==> Run(cfg, ops).history[i] <= end
    ensures |InWindow(Run(cfg, ops).history[..n], end, cfg.window)| <= cfg.limit
  {
    EveryRunAgrees(cfg, ops, if ops == [] then 0 else ops[|ops| - 1].1);
    IntervalIsSmall(Run(cfg, ops).history, cfg, n, end);
  }

  // -- retry_after --

  lemma {:induction false} LeastIsLeast(ts: seq<int>)
    requires ts != []
    ensures Least(ts) in ts && forall x :: x in ts ==> Least(ts) <= x
  {
    if |ts| > 1 {
      LeastIsLeast(ts[..|ts| - 1]);
      assert ts == ts[..|ts| - 1] + [ts[|ts| - 1]];
    }
  }

  /** A window loses a request exactly when its oldest one is out. */
  lemma {:induction false} ShrinksWithLeast(ts: seq<int>, now: int, window: int)
    requires ts != []
    ensures |InWindow(ts, now, window)| < |ts| <==> Least(ts) <= now - window
  {
    var init := ts[..|ts| - 1];
    assert ts == init + [ts[|ts| - 1]];
    if |ts| > 1 {
      ShrinksWithLeast(init, now, window);
      WindowSelects(init, now, window);
    }
  }

  /** When a check is refused, the window holds exactly limit requests. */
  lemma WindowIsFull(cfg: Config, ops: seq<(Op, int)>, now: int)
    requires Monotone(ops) && cfg.window <= THIRTY_DAYS && cfg.limit >= 1
    requires ops != [] ==> ops[|ops| - 1].1 <= now
    requires |InWindow(Run(cfg, ops).stored, now, cfg.window)| >= cfg.limit
    ensures |InWindow(Run(cfg, ops).stored, now, cfg.window)| == cfg.limit
  {
    EveryRunAgrees(cfg, ops, now);
    var h := Run(cfg, ops).history;
    IntervalIsSmall(h, cfg, |h|, now);
    assert h[..|h|] == h;
  }

  lemma WaitIsExact(kept: seq<int>, window: int, now: int, wait: nat)
    requires kept != [] && forall x :: x in kept ==> x > now - window
    ensures RetryAfter(false, kept, window, now) >= 1
    ensures |InWindow(kept, now + wait, window)| < |kept| <==> wait >= RetryAfter(false, kept, window, now)
  {
    LeastIsLeast(kept);
    ShrinksWithLeast(kept, now + wait, window);
  }

  /**
   A refusal's retry_after is exactly the least wait: a check that much later or any later
   passes, and one any earlier is refused again.
   */
  lemma RetryAfterIsExact(cfg: Config, ops: seq<(Op, int)>, now: int, wait: nat)
    requires Monotone(ops) && cfg.window <= THIRTY_DAYS && cfg.limit >= 1
    requires ops != [] ==> ops[|ops| - 1].1 <= now
    requires |InWindow(Run(cfg, ops).stored, now, cfg.window)| >= cfg.limit
    ensures var kept := InWindow(Run(cfg, ops).stored, now, cfg.window);
            var refused := Step(Run(cfg, ops), cfg, Check, now);
            && RetryAfter(false, kept, cfg.window, now) >= 1
            && (|InWindow(refused.stored, now + wait, cfg.window)| < cfg.limit <==> wait >= RetryAfter(false, kept, cfg.window, now))
  {
    var b := Run(cfg, ops);
    var kept := InWindow(b.stored, now, cfg.window);
    WindowIsFull(cfg, ops, now);
    WindowSelects(b.stored, now, cfg.window);
    WaitIsExact(kept, cfg.window, now, wait);
  }

  /** With a limit of zero or less every check is refused, and an empty window reports no wait at all. */
  lemma ZeroLimitNeverPasses(cfg: Config, ops: seq<(Op, int)>, now: int)
    requires cfg.limit <= 0
    ensures Run(cfg, ops + [(Check, now)]).history == Run(cfg, ops).history
    ensures RetryAfter(false, [], cfg.window, now) == 0
  {
    assert (ops + [(Check, now)])[..|ops|] == ops;
  }

  /** Beyond thirty days the collector forgets requests that the window still counts. */
  lemma CollectorForgetsLongWindows(cfg: Config)
    requires cfg.window > THIRTY_DAYS && cfg.limit >= 1
    ensures var b := Run(cfg, [(Check, 0), (Collect, THIRTY_DAYS)]);
            |InWindow(b.stored, THIRTY_DAYS, cfg.window)| == 0 && |InWindow(b.history, THIRTY_DAYS, cfg.window)| == 1
  {
    var ops := [(Check, 0), (Collect, THIRTY_DAYS)];
    var none: seq<(Op, int)> := [];
    assert ops[..1] == [(Check, 0)] && ops[..1][..0] == none;
    assert Run(cfg, ops[..1]) == Bucket([0], [0]);
    assert Run(cfg, ops).history == [0];
    assert InWindow([0], THIRTY_DAYS, THIRTY_DAYS) == [];
  }

  // -- calls that take the lock out of clock order --

  /** The timestamps after a cutoff, in order. */
  function After(ts: seq<int>, cutoff: int): seq<int> {
    InWindow(ts, cutoff, 0)
  }

  /** Some timestamp lies after low and not after high. */
  predicate Between(ts: seq<int>, low: int, high: int) {
    exists x :: x in ts && low < x <= high
  }

  function Width(cfg: Config, op: Op): int {
    if op == Collect then THIRTY_DAYS else cfg.window
  }

  function Later(a: int, b: int): int {
    if a >= b then a else b
  }

  /** The largest cutoff any call has applied; base when there was none. */
  function Cutoff(cfg: Config, ops: seq<(Op, int)>, base: int): int {
    if ops == [] then base
    else
      var last := ops[|ops| - 1];
      Later(Cutoff(cfg, ops[..|ops| - 1], base), last.1 - Width(cfg, last.0))
  }

  /** Calls may swap, but by less than the window: each reads a time above every cutoff applied before it. */
  predicate Close(cfg: Config, ops: seq<(Op, int)>, base: int) {
    forall i :: 0 <= i < |ops| ==> ops[i].1 > Cutoff(cfg, ops[..i], base)
  }

  lemma {:induction false} AfterTwice(ts: seq<int>, first: int, second: int)
    ensures After(After(ts, first), second) == After(ts, Later(first, second))
  {
    if ts != [] {
      AfterTwice(ts[..|ts| - 1], first, second);
      if ts[|ts| - 1] > first {
        WindowAppends(After(ts[..|ts| - 1], first), ts[|ts| - 1], second, 0);
      }
    }
  }

  lemma {:induction false} WindowIsAfter(ts: seq<int>, now: int, window: int)
    ensures InWindow(ts, now, window) == After(ts, now - window)
  {
    if ts != [] {
      WindowIsAfter(ts[..|ts| - 1], now, window);
    }
  }

  /** In whatever order close calls take the lock, what is stored is the history after the largest cutoff. */
  lemma {:induction false} StoredIsTheTail(cfg: Config, ops: seq<(Op, int)>, base: int)
    requires Close(cfg, ops, base) && cfg.window >= 1
    ensures Run(cfg, ops).stored == After(Run(cfg, ops).history, Cutoff(cfg, ops, base))
  {
    if ops != [] {
      var init, last := ops[..|ops| - 1], ops[|ops| - 1];
      forall i | 0 <= i < |init| ensures init[i].1 > Cutoff(cfg, init[..i], base) {
        assert init[..i] == ops[..i];
      }
      StoredIsTheTail(cfg, init, base);
      assert init == ops[..|init|];
      StepKeepsTail(cfg, Run(cfg, init), last.0, last.1, Cutoff(cfg, init, base));
    }
  }

  lemma StepKeepsTail(cfg: Config, b: Bucket, op: Op, now: int, cutoff: int)
    requires b.stored == After(b.history, cutoff) && now > cutoff && cfg.window >= 1
    ensures var b' := Step(b, cfg, op, now);
            b'.stored == After(b'.history, Later(cutoff, now - Width(cfg, op)))
  {
    var width := Width(cfg, op);
    WindowIsAfter(b.stored, now, width);
    AfterTwice(b.history, cutoff, now - width);
    WindowAppends(b.history, now, Later(cutoff, now - width), 0);
  }

  /**
   What a call reading time now counts, whoever took the lock first: the requests after its own
   cutoff or the largest so far. It is what the full history would count exactly when no
   allowed request lies between the two.
   */
  lemma SwappedCheckCounts(cfg: Config, ops: seq<(Op, int)>, base: int, now: int)
    requires Close(cfg, ops, base) && cfg.window >= 1
    ensures InWindow(Run(cfg, ops).stored, now, cfg.window)
            == After(Run(cfg, ops).history, Later(Cutoff(cfg, ops, base), now - cfg.window))
    ensures InWindow(Run(cfg, ops).stored, now, cfg.window) == InWindow(Run(cfg, ops).history, now, cfg.window)
            <==> !Between(Run(cfg, ops).history, now - cfg.window, Cutoff(cfg, ops, base))
  {
    StoredIsTheTail(cfg, ops, base);
    TailCounts(Run(cfg, ops), Cutoff(cfg, ops, base), now, cfg.window);
  }

  lemma TailCounts(b: Bucket, cutoff: int, now: int, window: int)
    requires b.stored == After(b.history, cutoff)
    ensures InWindow(b.stored, now, window) == After(b.history, Later(cutoff, now - window))
    ensures InWindow(b.stored, now, window) == InWindow(b.history, now, window)
            <==> !Between(b.history, now - window, cutoff)
  {
    WindowIsAfter(b.stored, now, window);
    WindowIsAfter(b.history, now, window);
    AfterTwice(b.history, cutoff, now - window);
    SameTail(b.history, now - window, Later(cutoff, now - window));
  }

  lemma {:induction false} SameTail(ts: seq<int>, low: int, high: int)
    requires low <= high
    ensures |After(ts, high)| <= |After(ts, low)|
    ensures After(ts, high) == After(ts, low) <==> !Between(ts, low, high)
  {
    if ts != [] {
      var init, t := ts[..|ts| - 1], ts[|ts| - 1];
      SameTail(init, low, high);
      assert ts == init + [t];
      BetweenAppends(init, t, low, high);
      if t > high {
        assert After(ts, high)[..|After(init, high)|] == After(init, high);
        assert After(ts, low)[..|After(init, low)|] == After(init, low);
      } else if t > low {
        assert |After(ts, low)| > |After(ts, high)|;
      }
    }
  }

  lemma BetweenAppends(ts: seq<int>, t: int, low: int, high: int)
    ensures Between(ts + [t], low, high) <==> Between(ts, low, high) || low < t <= high
  {
    assert forall x :: x in ts + [t] <==> x in ts || x == t;
    if Between(ts, low, high) {
      var x :| x in ts && low < x <= high;
      assert x in ts + [t];
    }
    if low < t <= high {
      assert t in ts + [t];
    }
  }

  /** Two calls swap across the edge of the window: the earlier reading no longer sees the request. */
  lemma SwapForgets(cfg: Config)
    requires cfg.window >= 2 && cfg.limit >= 1
    ensures var ops := [(Check, 0), (Check, cfg.window)];
            && Close(cfg, ops, -1) && Run(cfg, ops) == Bucket([cfg.window], [0, cfg.window])
            && 0 in InWindow(Run(cfg, ops).history, cfg.window - 1, cfg.window)
            && 0 !in InWindow(Run(cfg, ops).stored, cfg.window - 1, cfg.window)
  {
    TwoChecks(cfg);
    WindowSelects([0, cfg.window], cfg.window - 1, cfg.window);
    WindowSelects([cfg.window], cfg.window - 1, cfg.window);
  }

  lemma TwoChecks(cfg: Config)
    requires cfg.window >= 2 && cfg.limit >= 1
    ensures var ops := [(Check, 0), (Check, cfg.window)];
            Close(cfg, ops, -1) && Run(cfg, ops) == Bucket([cfg.window], [0, cfg.window])
  {
    var ops := [(Check, 0), (Check, cfg.window)];
    var none: seq<(Op, int)> := [];
    assert ops[..0] == none && ops[..1] == [(Check, 0)] && ops[..1][..0] == none;
    assert Run(cfg, ops[..0]) == Bucket([], []);
    assert Run(cfg, ops[..1]) == Bucket([0], [0]);
    SecondCheckPrunes(cfg);
  }

  lemma SecondCheckPrunes(cfg: Config)
    requires cfg.limit >= 1
    ensures Step(Bucket([0], [0]), cfg, Check, cfg.window) == Bucket([cfg.window], [0, cfg.window])
  {
    var none: seq<int> := [];
    assert [0][..0] == none;
    assert InWindow([0], cfg.window, cfg.window) == none;
    assert none + [cfg.window] == [cfg.window] && [0] + [cfg.window] == [0, cfg.window];
  }

  // -- the limiter --

  type Key = (string, string)

  function Look(m: map<Key, seq<int>>, key: Key): seq<int> {
    if key in m then m[key] else []
  }

  function BucketOf(stores: map<Key, seq<int>>, history: map<Key, seq<int>>, key: Key): Bucket {
    Bucket(Look(stores, key), Look(history, key))
  }

  class Limiter {
    var stores: map<Key, seq<int>>
    const configs: map<string, Config>
    ghost var history: map<Key, seq<int>>

    predicate Limits(action: string) {
      action in configs && configs[action].enabled
    }

    constructor (configs: map<string, Config>)
      ensures this.configs == configs
      ensures forall key :: BucketOf(stores, history, key) == Bucket([], [])
    {
      this.configs := configs;
      stores, history := map[], map[];
    }

    method FilterWindow(ts: seq<int>, now: int, window: nat) returns (kept: seq<int>)
      ensures kept == InWindow(ts, now, window)
    {
      kept := [];
      for i := 0 to |ts|
        invariant kept == InWindow(ts[..i], now, window)
      {
        assert ts[..i + 1][..i] == ts[..i];
        if ts[i] > now - window {
          kept := kept + [ts[i]];
        }
      }
      assert ts[..|ts|] == ts;
    }

    method FormatResult(allowed: bool, ts: seq<int>, window: int, limit: int, now: int) returns (r: Outcome)
      ensures r == Outcome(allowed, RetryAfter(allowed, ts, window, now), limit, window)
    {
      var retryAfter := 0;
      if !allowed && |ts| > 0 {
        var least := ts[0];
        for i := 1 to |ts|
          invariant least == Least(ts[..i])
        {
          assert ts[..i + 1][..i] == ts[..i];
          if ts[i] < least {
            least := ts[i];
          }
        }
        assert ts[..|ts|] == ts;
        retryAfter := least + window - now;
        if retryAfter < 0 {
          retryAfter := 0;
        }
      }
      r := Outcome(allowed, retryAfter, limit, window);
    }

    method DoCheck(subject: string, action: string, now: int) returns (r: Outcome)
      modifies this`stores, this`history
      ensures !Limits(action) ==> r == UNLIMITED && stores == old(stores) && history == old(history)
      ensures Limits(action) ==>
                var cfg := configs[action];
                var kept := InWindow(Look(old(stores), (action, subject)), now, cfg.window);
                && r.allowed == (|kept| < cfg.limit)
                && r.retryAfter == RetryAfter(r.allowed, kept, cfg.window, now)
                && BucketOf(stores, history, (action, subject)) == Step(BucketOf(old(stores), old(history), (action, subject)), cfg, Check, now)
                && forall key :: key != (action, subject) ==> BucketOf(stores, history, key) == BucketOf(old(stores), old(history), key)
    {
      if !Limits(action) {
        return UNLIMITED;
      }
      var cfg, key := configs[action], (action, subject);
      var ts := FilterWindow(Look(stores, key), now, cfg.window);
      if |ts| >= cfg.limit {
        stores := stores[key := ts];
        r := FormatResult(false, ts, cfg.window, cfg.limit, now);
      } else {
        ghost var was := Look(history, key);
        stores := stores[key := ts + [now]];
        history := history[key := was + [now]];
        r := FormatResult(true, ts + [now], cfg.window, cfg.limit, now);
      }
    }

    method DoInspect(subject: string, action: string, now: int) returns (r: Outcome)
      modifies this`stores
      ensures !Limits(action) ==> r == UNLIMITED && stores == old(stores) && history == old(history)
      ensures Limits(action) ==>
                var cfg := configs[action];
                var kept := InWindow(Look(old(stores), (action, subject)), now, cfg.window);
                && r.allowed == (|kept| < cfg.limit)
                && r.retryAfter == RetryAfter(r.allowed, kept, cfg.window, now)
                && BucketOf(stores, history, (action, subject)) == Step(BucketOf(old(stores), old(history), (action, subject)), cfg, Inspect, now)
                && forall key :: key != (action, subject) ==> BucketOf(stores, history, key) == BucketOf(old(stores), old(history), key)
    {
      if !Limits(action) {
        return UNLIMITED;
      }
      var cfg, key := configs[action], (action, subject);
      var ts := FilterWindow(Look(stores, key), now, cfg.window);
      stores := stores[key := ts];
      r := FormatResult(|ts| < cfg.limit, ts, cfg.window, cfg.limit, now);
    }

    /** Prunes every key to thirty days and drops the empty ones. */
    method GC(now: int)
      modifies this`stores
      ensures forall key :: BucketOf(stores, history, key) == Step(BucketOf(old(stores), old(history), key), Config(0, 0, true), Collect, now)
      ensures forall key :: key in stores ==> stores[key] != []
    {
      var todo := stores.Keys;
      var was := stores;
      while todo != {}
        invariant todo <= was.Keys
        invariant forall key :: key in todo ==> key in stores && stores[key] == was[key]
        invariant forall key :: key !in todo ==> Look(stores, key) == InWindow(Look(was, key), now, THIRTY_DAYS)
        invariant forall key :: key in stores && key !in todo ==> stores[key] != []
        decreases |todo|
      {
        var key :| key in todo;
        var kept := FilterWindow(stores[key], now, THIRTY_DAYS);
        if |kept| == 0 {
          stores := stores - {key};
        } else {
          stores := stores[key := kept];
        }
        todo := todo - {key};
      }
    }
  }
}
