/**
 Shutdown of the server process: one orchestrator, any number of periodic workers that may
 panic, and triggers that may repeat, interleaved in every order.
 */
module Lifecycle {
  /**
   A worker waits on its ticker, checks the stop channel once more before a pass, runs the
   pass, and on a panic reports once before it leaves. Exited means its done channel is closed.
   */
  datatype Worker = Waiting | Gated | Cleared | Passing | Panicked | Leaving | Exited

  datatype Cause = Signalled | ServeFailed | ContextDone | WorkerFailed

  /** The orchestrator, step by step: stop channels, HTTP drain, joins, closers. */
  datatype Phase = Serving | Stopping(next: nat) | Draining | Joining(next: nat) | Closing(next: nat) | Finished

  datatype System = System(
    workers: seq<Worker>, stopped: seq<bool>, reports: seq<nat>, passes: seq<nat>,
    buffer: nat, capacity: nat,
    phase: Phase, causes: seq<Cause>, closed: seq<nat>)

  datatype Move =
    | Tick(worker: nat)
    | Gate(worker: nat)
    | Start(worker: nat)
    | Return(worker: nat)
    | Panic(worker: nat)
    | Report(worker: nat)
    | SeeStop(worker: nat)
    | Exit(worker: nat)
    | Trigger(cause: Cause)
    | Orchestrate

  function With(s: System, i: nat, w: Worker): System
    requires i < |s.workers|
  {
    s.(workers := s.workers[i := w])
  }

  predicate Shaped(s: System) {
    |s.stopped| == |s.workers| && |s.reports| == |s.workers| && |s.passes| == |s.workers|
  }

  predicate At(s: System, i: nat, w: Worker) {
    i < |s.workers| && s.workers[i] == w
  }

  function StepWorker(s: System, move: Move): System
    requires Shaped(s)
  {
    match move
    case Tick(i) => if At(s, i, Waiting) then With(s, i, Gated) else s
    case Gate(i) => if At(s, i, Gated) then With(s, i, if s.stopped[i] then Leaving else Cleared) else s
    case Start(i) => if At(s, i, Cleared) then With(s, i, Passing).(passes := s.passes[i := s.passes[i] + 1]) else s
    case Return(i) => if At(s, i, Passing) then With(s, i, Waiting) else s
    case Panic(i) => if At(s, i, Passing) then With(s, i, Panicked) else s
    case Report(i) =>
      if At(s, i, Panicked) && s.buffer < s.capacity
      then With(s, i, Leaving).(buffer := s.buffer + 1, reports := s.reports[i := s.reports[i] + 1]) else s
    case SeeStop(i) => if At(s, i, Waiting) && s.stopped[i] then With(s, i, Leaving) else s
    case Exit(i) => if At(s, i, Leaving) then With(s, i, Exited) else s
    case _ => s
  }

  /** Only the first trigger starts the orchestration; a worker's failure is taken from the buffer. */
  function StepTrigger(s: System, cause: Cause): System {
    if s.phase != Serving || (cause == WorkerFailed && s.buffer == 0) then s
    else s.(phase := Stopping(0), causes := s.causes + [cause],
            buffer := if cause == WorkerFailed then s.buffer - 1 else s.buffer)
  }

  function StepMain(s: System): System
    requires Shaped(s)
  {
    match s.phase
    case Stopping(k) => if k < |s.workers| then s.(stopped := s.stopped[k := true], phase := Stopping(k + 1)) else s.(phase := Draining)
    case Draining => s.(phase := Joining(0))
    case Joining(k) =>
      if k >= |s.workers| then s.(phase := Closing(0))
      else if s.workers[k] == Exited then s.(phase := Joining(k + 1)) else s
    case Closing(k) => if k < |s.closed| then s.(closed := s.closed[k := s.closed[k] + 1], phase := Closing(k + 1)) else s.(phase := Finished)
    case _ => s
  }

  function Step(s: System, move: Move): System
    requires Shaped(s)
    ensures Shaped(Step(s, move))
  {
    match move
    case Trigger(cause) => StepTrigger(s, cause)
    case Orchestrate => StepMain(s)
    case _ => StepWorker(s, move)
  }

  function Run(s: System, moves: seq<Move>): (r: System)
    requires Shaped(s)
    ensures Shaped(r)
  {
    if moves == [] then s else Step(Run(s, moves[..|moves| - 1]), moves[|moves| - 1])
  }

  function Started(workers: nat, closers: nat, capacity: nat): System {
    System(seq(workers, _ => Waiting), seq(workers, _ => false), seq(workers, _ => 0), seq(workers, _ => 0),
           0, capacity, Serving, [], seq(closers, _ => 0))
  }

  // -- invariant --

  function Total(counts: seq<nat>): nat {
    if counts == [] then 0 else Total(counts[..|counts| - 1]) + counts[|counts| - 1]
  }

  /** How far the orchestration has come, worker by worker and closer by closer. */
  predicate StoppedUpTo(s: System, k: nat) {
    |s.stopped| == |s.workers| && k <= |s.workers| && forall i :: 0 <= i < k ==> s.stopped[i]
  }

  predicate JoinedUpTo(s: System, k: nat) {
    k <= |s.workers| && forall i :: 0 <= i < k ==> s.workers[i] == Exited
  }

  predicate ClosedUpTo(s: System, k: nat) {
    k <= |s.closed| && forall i :: 0 <= i < |s.closed| ==> s.closed[i] == if i < k then 1 else 0
  }

  ghost predicate Reached(s: System) {
    match s.phase
    case Serving => ClosedUpTo(s, 0)
    case Stopping(k) => StoppedUpTo(s, k) && ClosedUpTo(s, 0)
    case Draining => StoppedUpTo(s, |s.workers|) && ClosedUpTo(s, 0)
    case Joining(k) => StoppedUpTo(s, |s.workers|) && JoinedUpTo(s, k) && ClosedUpTo(s, 0)
    case Closing(k) => StoppedUpTo(s, |s.workers|) && JoinedUpTo(s, |s.workers|) && ClosedUpTo(s, k)
    case Finished => StoppedUpTo(s, |s.workers|) && JoinedUpTo(s, |s.workers|) && ClosedUpTo(s, |s.closed|)
  }

  /** A worker reports at most once, and only as it leaves. */
  predicate ReportsOk(s: System) {
    |s.reports| == |s.workers| &&
    forall i :: 0 <= i < |s.workers| ==> s.reports[i] <= (if s.workers[i] in {Leaving, Exited} then 1 else 0)
  }

  ghost predicate Invariant(s: System) {
    && Shaped(s) && Reached(s) && ReportsOk(s) && |s.workers| <= s.capacity
    && s.buffer <= Total(s.reports)
    && (s.phase == Serving <==> s.causes == []) && |s.causes| <= 1
  }

  lemma {:induction false} TotalUpdate(counts: seq<nat>, i: nat, x: nat)
    requires i < |counts|
    ensures Total(counts[i := x]) == Total(counts) - counts[i] + x
  {
    var last := |counts| - 1;
    if i == last {
      assert counts[i := x][..last] == counts[..last];
    } else {
      assert counts[i := x][..last] == counts[..last][i := x];
      TotalUpdate(counts[..last], i, x);
    }
  }

  /** Workers that have not reported leave room in a buffer with one slot each. */
  lemma {:induction false} TotalBelow(counts: seq<nat>, i: nat)
    requires forall k :: 0 <= k < |counts| ==> counts[k] <= 1
    requires i < |counts| ==> counts[i] == 0
    ensures Total(counts) <= |counts| - (if i < |counts| then 1 else 0)
  {
    if counts != [] {
      TotalBelow(counts[..|counts| - 1], i);
    }
  }

  /** A worker that has not exited moves on, keeping to its report. */
  lemma MovingKeeps(s: System, i: nat, w: Worker, passes: seq<nat>)
    requires Invariant(s) && i < |s.workers| && s.workers[i] != Exited && |passes| == |s.workers|
    requires s.reports[i] == 0 || w == Leaving || w == Exited
    ensures Invariant(With(s, i, w).(passes := passes))
  {
  }

  lemma ReportKeeps(s: System, i: nat)
    requires Invariant(s) && At(s, i, Panicked)
    ensures Invariant(StepWorker(s, Report(i)))
  {
    TotalUpdate(s.reports, i, s.reports[i] + 1);
  }

  lemma WorkerStepKeeps(s: System, move: Move)
    requires Invariant(s)
    ensures Invariant(StepWorker(s, move))
  {
    var s' := StepWorker(s, move);
    if s' != s {
      if move.Report? {
        ReportKeeps(s, move.worker);
      } else {
        MovingKeeps(s, move.worker, s'.workers[move.worker], s'.passes);
        assert s' == With(s, move.worker, s'.workers[move.worker]).(passes := s'.passes);
      }
    }
  }

  lemma StepKeeps(s: System, move: Move)
    requires Invariant(s)
    ensures Invariant(Step(s, move))
  {
    match move
    case Trigger(cause) => TriggerKeeps(s, cause);
    case Orchestrate => MainKeeps(s);
    case _ => WorkerStepKeeps(s, move);
  }

  lemma TriggerKeeps(s: System, cause: Cause)
    requires Invariant(s)
    ensures Invariant(StepTrigger(s, cause))
  {
  }

  lemma MainKeeps(s: System)
    requires Invariant(s)
    ensures Invariant(StepMain(s))
  {
    if s.phase.Closing? {
      ClosingKeeps(s);
    }
  }

  lemma ClosingKeeps(s: System)
    requires Invariant(s) && s.phase.Closing?
    ensures Invariant(StepMain(s))
  {
  }

  lemma {:induction false} EveryRunKeeps(s: System, moves: seq<Move>)
    requires Invariant(s)
    ensures Invariant(Run(s, moves))
  {
    if moves != [] {
      EveryRunKeeps(s, moves[..|moves| - 1]);
      StepKeeps(Run(s, moves[..|moves| - 1]), moves[|moves| - 1]);
    }
  }

  lemma {:induction false} ZeroTotal(counts: seq<nat>)
    requires forall k :: 0 <= k < |counts| ==> counts[k] == 0
    ensures Total(counts) == 0
  {
    if counts != [] {
      ZeroTotal(counts[..|counts| - 1]);
    }
  }

  lemma StartIsOk(workers: nat, closers: nat, capacity: nat)
    requires workers <= capacity
    ensures Invariant(Started(workers, closers, capacity))
  {
    ZeroTotal(Started(workers, closers, capacity).reports);
  }

  // -- what shutdown guarantees --

  /**
   In every reachable state a closer has run at most once, none has run unless every worker
   has exited, all have run exactly once when shutdown is over, and one cause started it.
   */
  lemma ClosersRunOnceAndLast(workers: nat, closers: nat, capacity: nat, moves: seq<Move>)
    requires workers <= capacity
    ensures Shaped(Started(workers, closers, capacity))
    ensures var s := Run(Started(workers, closers, capacity), moves);
            && (forall k :: 0 <= k < |s.closed| ==> s.closed[k] <= 1)
            && ((exists k :: 0 <= k < |s.closed| && s.closed[k] > 0) ==> forall i :: 0 <= i < |s.workers| ==> s.workers[i] == Exited)
            && (s.phase == Finished ==> forall k :: 0 <= k < |s.closed| ==> s.closed[k] == 1)
            && |s.causes| <= 1
  {
    StartIsOk(workers, closers, capacity);
    EveryRunKeeps(Started(workers, closers, capacity), moves);
  }

  /** A panicked worker never blocks: the buffer has room for its one report. */
  lemma ReportsNeverBlock(workers: nat, closers: nat, capacity: nat, moves: seq<Move>, i: nat)
    requires workers <= capacity
    requires At(Run(Started(workers, closers, capacity), moves), i, Panicked)
    ensures var s := Run(Started(workers, closers, capacity), moves);
            s.buffer < s.capacity && At(Step(s, Report(i)), i, Leaving)
  {
    StartIsOk(workers, closers, capacity);
    EveryRunKeeps(Started(workers, closers, capacity), moves);
    TotalBelow(Run(Started(workers, closers, capacity), moves).reports, i);
  }

  lemma {:induction false} RunConcat(s: System, first: seq<Move>, later: seq<Move>)
    requires Shaped(s)
    ensures Run(s, first + later) == Run(Run(s, first), later)
  {
    if later == [] {
      assert first + later == first;
    } else {
      var init := later[..|later| - 1];
      assert (first + later)[..|first + later| - 1] == first + init;
      RunConcat(s, first, init);
    }
  }

  lemma RunNext(s: System, moves: seq<Move>, move: Move)
    requires Shaped(s)
    ensures Run(s, moves + [move]) == Step(Run(s, moves), move)
  {
    assert (moves + [move])[..|moves|] == moves;
  }

  lemma RunThree(s: System, a: Move, b: Move, c: Move)
    requires Shaped(s)
    ensures Run(s, [a, b, c]) == Step(Step(Step(s, a), b), c)
  {
    RunNext(s, [], a);
    RunNext(s, [a], b);
    RunNext(s, [a, b], c);
    assert [] + [a] == [a] && [a] + [b] == [a, b] && [a, b] + [c] == [a, b, c];
  }

  /** Both workers panic in a pass; one reports into the only slot. */
  const BOTH_PANIC: seq<Move> :=
    [Tick(0), Gate(0), Start(0)] + [Tick(1), Gate(1), Start(1)] + [Panic(0), Panic(1), Report(1)]

  /** A signal arrives, both stop channels close, and the orchestrator joins. */
  const SHUT_DOWN: seq<Move> :=
    [Trigger(Signalled), Exit(1), Orchestrate] + [Orchestrate, Orchestrate, Orchestrate]

  const HANGING := System([Panicked, Exited], [true, true], [0, 1], [1, 1], 1, 1, Joining(0), [Signalled], [0])

  const IDLE := System([Waiting, Waiting], [false, false], [0, 0], [0, 0], 0, 1, Serving, [], [0])
  const ONE_PASSING := System([Passing, Waiting], [false, false], [0, 0], [1, 0], 0, 1, Serving, [], [0])
  const BOTH_PASSING := System([Passing, Passing], [false, false], [0, 0], [1, 1], 0, 1, Serving, [], [0])
  const ONE_REPORTED := System([Panicked, Leaving], [false, false], [0, 1], [1, 1], 1, 1, Serving, [], [0])

  lemma FirstPasses()
    ensures Run(IDLE, [Tick(0), Gate(0), Start(0)]) == ONE_PASSING
  {
    RunThree(IDLE, Tick(0), Gate(0), Start(0));
  }

  lemma SecondPasses()
    ensures Run(ONE_PASSING, [Tick(1), Gate(1), Start(1)]) == BOTH_PASSING
  {
    RunThree(ONE_PASSING, Tick(1), Gate(1), Start(1));
  }

  lemma BothPanicOneReports()
    ensures Run(BOTH_PASSING, [Panic(0), Panic(1), Report(1)]) == ONE_REPORTED
  {
    RunThree(BOTH_PASSING, Panic(0), Panic(1), Report(1));
  }

  lemma BothPanicked()
    ensures Shaped(Started(2, 1, 1)) && Run(Started(2, 1, 1), BOTH_PANIC) == ONE_REPORTED
  {
    assert Started(2, 1, 1) == IDLE;
    FirstPasses();
    SecondPasses();
    BothPanicOneReports();
    RunConcat(IDLE, [Tick(0), Gate(0), Start(0)], [Tick(1), Gate(1), Start(1)]);
    RunConcat(IDLE, [Tick(0), Gate(0), Start(0)] + [Tick(1), Gate(1), Start(1)], [Panic(0), Panic(1), Report(1)]);
  }

  lemma ShutDownHangs()
    ensures Run(ONE_REPORTED, SHUT_DOWN) == HANGING
  {
    var w := System([Panicked, Exited], [true, false], [0, 1], [1, 1], 1, 1, Stopping(1), [Signalled], [0]);
    RunThree(ONE_REPORTED, Trigger(Signalled), Exit(1), Orchestrate);
    assert Run(ONE_REPORTED, [Trigger(Signalled), Exit(1), Orchestrate]) == w;
    RunThree(w, Orchestrate, Orchestrate, Orchestrate);
    assert Run(w, [Orchestrate, Orchestrate, Orchestrate]) == HANGING;
    RunConcat(ONE_REPORTED, [Trigger(Signalled), Exit(1), Orchestrate], [Orchestrate, Orchestrate, Orchestrate]);
  }

  lemma NothingMoves(move: Move)
    ensures Step(HANGING, move) == HANGING
  {
  }

  lemma {:induction false} HangingForGood(moves: seq<Move>)
    ensures Run(HANGING, moves) == HANGING
  {
    if moves != [] {
      HangingForGood(moves[..|moves| - 1]);
      NothingMoves(moves[|moves| - 1]);
    }
  }

  /** With one slot fewer than workers, a run exists whose last report blocks: shutdown hangs on its join for good. */
  lemma SmallerBufferHangs(moves: seq<Move>)
    ensures Shaped(Started(2, 1, 1))
    ensures Run(Started(2, 1, 1), BOTH_PANIC + SHUT_DOWN + moves) == HANGING && HANGING.phase != Finished
  {
    BothPanicked();
    ShutDownHangs();
    HangingForGood(moves);
    RunConcat(Started(2, 1, 1), BOTH_PANIC, SHUT_DOWN);
    RunConcat(Started(2, 1, 1), BOTH_PANIC + SHUT_DOWN, moves);
  }

  /** Passes a worker can still begin: one, if it was already past its stop check. */
  function Owed(w: Worker): nat {
    if w == Cleared then 1 else 0
  }

  /** Once its stop channel is closed a worker claims no new work. */
  lemma {:induction false} NoNewPassAfterStop(s: System, moves: seq<Move>, i: nat)
    requires Shaped(s) && i < |s.workers| && s.stopped[i]
    ensures var s' := Run(s, moves);
            && |s'.workers| == |s.workers| && s'.stopped[i]
            && s'.passes[i] + Owed(s'.workers[i]) <= s.passes[i] + Owed(s.workers[i])
  {
    if moves != [] {
      NoNewPassAfterStop(s, moves[..|moves| - 1], i);
    }
  }

  /** Exactly which worker can still begin a pass once its stop channel is closed: the one already past its check. */
  lemma LatePassExactly(s: System, i: nat)
    requires Shaped(s) && i < |s.workers| && s.stopped[i]
    ensures (exists moves :: |Run(s, moves).passes| > i && Run(s, moves).passes[i] > s.passes[i]) <==> s.workers[i] == Cleared
  {
    if s.workers[i] == Cleared {
      RunNext(s, [], Start(i));
      assert [] + [Start(i)] == [Start(i)];
      assert Run(s, [Start(i)]).passes[i] > s.passes[i];
    } else {
      forall moves ensures !(|Run(s, moves).passes| > i && Run(s, moves).passes[i] > s.passes[i]) {
        NoNewPassAfterStop(s, moves, i);
      }
    }
  }

  /** One worker passes its check, then the stop channel closes. */
  const STOP_AFTER_CHECK: seq<Move> := [Tick(0), Gate(0), Trigger(Signalled)] + [Orchestrate]

  const CLEARED_AND_STOPPED := System([Cleared], [true], [0], [0], 0, 1, Stopping(1), [Signalled], [0])

  /** From the start, a run whose only pass begins after stop was closed. */
  lemma PassBeginsAfterStop()
    ensures Run(Started(1, 1, 1), STOP_AFTER_CHECK) == CLEARED_AND_STOPPED
    ensures Run(Started(1, 1, 1), STOP_AFTER_CHECK + [Start(0)]).passes == [1]
  {
    var s := System([Waiting], [false], [0], [0], 0, 1, Serving, [], [0]);
    assert Started(1, 1, 1) == s;
    var w := System([Cleared], [false], [0], [0], 0, 1, Stopping(0), [Signalled], [0]);
    RunThree(s, Tick(0), Gate(0), Trigger(Signalled));
    assert Run(s, [Tick(0), Gate(0), Trigger(Signalled)]) == w;
    RunNext(s, [Tick(0), Gate(0), Trigger(Signalled)], Orchestrate);
    RunNext(s, STOP_AFTER_CHECK, Start(0));
  }

  // -- shutdown ends --

  function Remaining(w: Worker): nat {
    match w case Cleared => 6 case Passing => 5 case Waiting => 4 case Gated => 3 case Panicked => 2 case Leaving => 1 case Exited => 0
  }

  function Left(workers: seq<Worker>): nat {
    if workers == [] then 0 else Left(workers[..|workers| - 1]) + Remaining(workers[|workers| - 1])
  }

  /** Steps the orchestrator still has to take. */
  function Ahead(s: System): int {
    var n, m := |s.workers|, |s.closed|;
    match s.phase
    case Serving => 2 * n + m + 5
    case Stopping(k) => 2 * n + m + 4 - k
    case Draining => n + m + 3
    case Joining(k) => n + m + 2 - k
    case Closing(k) => m + 1 - k
    case Finished => 0
  }

  function Measure(s: System): int {
    Left(s.workers) + Ahead(s)
  }

  lemma {:induction false} LeftUpdate(workers: seq<Worker>, i: nat, w: Worker)
    requires i < |workers|
    ensures Left(workers[i := w]) == Left(workers) - Remaining(workers[i]) + Remaining(w)
  {
    var last := |workers| - 1;
    if i == last {
      assert workers[i := w][..last] == workers[..last];
    } else {
      assert workers[i := w][..last] == workers[..last][i := w];
      LeftUpdate(workers[..last], i, w);
    }
  }

  lemma WorkerStepFalls(s: System, move: Move)
    requires Shaped(s) && StoppedUpTo(s, |s.workers|)
    ensures var s' := StepWorker(s, move);
            s' == s || (Left(s'.workers) < Left(s.workers) && Ahead(s') == Ahead(s))
  {
    var s' := StepWorker(s, move);
    if s' != s {
      LeftUpdate(s.workers, move.worker, s'.workers[move.worker]);
    }
  }

  lemma MainStepFalls(s: System)
    requires Shaped(s) && Reached(s) && !s.phase.Serving? && !s.phase.Stopping?
    ensures var s' := StepMain(s);
            s' == s || (s'.workers == s.workers && 0 <= Ahead(s') < Ahead(s))
  {
  }

  /** Once every stop channel is closed, whatever happens brings the end nearer. */
  lemma EveryStepCounts(s: System, move: Move)
    requires Invariant(s) && StoppedUpTo(s, |s.workers|) && !s.phase.Serving? && !s.phase.Stopping?
    ensures Step(s, move) == s || 0 <= Measure(Step(s, move)) < Measure(s)
  {
    match move
    case Trigger(cause) =>
    case Orchestrate => MainStepFalls(s);
    case _ => WorkerStepFalls(s, move);
  }

  /** What the worker at hand can do next. */
  function NextOf(w: Worker, i: nat): Move {
    match w
    case Waiting => SeeStop(i)
    case Gated => Gate(i)
    case Cleared => Start(i)
    case Passing => Return(i)
    case Panicked => Report(i)
    case _ => Exit(i)
  }

  lemma WorkerCanMove(s: System, i: nat)
    requires Shaped(s) && i < |s.workers| && s.workers[i] != Exited && s.stopped[i]
    requires s.workers[i] == Panicked ==> s.buffer < s.capacity
    ensures Step(s, NextOf(s.workers[i], i)) != s
  {
    assert Step(s, NextOf(s.workers[i], i)).workers[i] != s.workers[i];
  }

  lemma MainCanMove(s: System)
    requires Shaped(s) && s.phase != Serving && s.phase != Finished
    requires s.phase.Joining? && s.phase.next < |s.workers| ==> s.workers[s.phase.next] == Exited
    ensures Step(s, Orchestrate) != s
  {
    assert Step(s, Orchestrate).phase != s.phase;
  }

  /** And until it is over, someone can always move: shutdown neither hangs nor runs forever. */
  lemma SomeoneCanMove(workers: nat, closers: nat, capacity: nat, moves: seq<Move>)
    requires workers <= capacity
    requires var s := Run(Started(workers, closers, capacity), moves); s.phase != Serving && s.phase != Finished
    ensures var s := Run(Started(workers, closers, capacity), moves);
            exists move :: Step(s, move) != s
  {
    StartIsOk(workers, closers, capacity);
    EveryRunKeeps(Started(workers, closers, capacity), moves);
    var s := Run(Started(workers, closers, capacity), moves);
    if s.phase.Joining? && s.phase.next < |s.workers| && s.workers[s.phase.next] != Exited {
      var i := s.phase.next;
      if s.workers[i] == Panicked {
        ReportsNeverBlock(workers, closers, capacity, moves, i);
      }
      WorkerCanMove(s, i);
    } else {
      MainCanMove(s);
    }
  }
}
