/**
  The pipeline together with the thread pool that runs its inference loops.  Module Pipeline
  takes the pool's join as one step that waits for every loop; here the loops are the pool's
  tasks, start() submits them one by one, and stop() goes through the pool's own shutdown,
  wakeups and all.
 */
module PipelineOnPool {
  import opened InferenceWorker
  import P = Pipeline
  import opened PipelineShutdown
  import T = ThreadPool
  import opened Wrappers

  datatype State = State(p: P.State, pool: T.State<nat>)

  datatype Step = PipeStep(pipe: P.Step) | PoolStep(pool: T.Step<nat>)

  function Init(cfg: Config): State {
    State(P.Init(cfg), T.Init(cfg.workers))
  }

  /** start() has submitted every loop and returned. */
  predicate Started(cfg: Config, s: State) {
    |s.pool.q.submitted| == cfg.workers && s.pool.posting == 0
  }

  ghost predicate RunByPool(s: State, loop: nat) {
    exists w :: T.Runs(s.pool, w, loop)
  }

  ghost predicate PipeEnabled(cfg: Config, s: State, step: P.Step) {
    if step.StopJoinPool? then s.p.stop == P.CaptureJoined && s.pool.shutdown == T.Joined
    else
      && P.Enabled(s.p, step)
      && (IsWorkerStep(step) ==> RunByPool(s, step.w))
      && (step.StopCall? ==> Started(cfg, s))
  }

  ghost predicate PoolEnabled(cfg: Config, s: State, step: T.Step<nat>) {
    && T.Enabled(s.pool, step)
    && match step
       case SubmitPush(loop) => loop == |s.pool.q.submitted| < cfg.workers && s.pool.posting == 0
       case Finish(w) =>
         var loop := s.pool.workers[w].task;
         P.At(s.p, loop) && s.p.workers[loop].pc == P.Done
       case ShutdownFlag => s.p.stop == P.CaptureJoined
       case _ => true
  }

  ghost predicate Enabled(cfg: Config, s: State, step: Step) {
    match step
    case PipeStep(st) => PipeEnabled(cfg, s, st)
    case PoolStep(st) => PoolEnabled(cfg, s, st)
  }

  ghost function Next(cfg: Config, s: State, step: Step): State
    requires s.p.frames.capacity >= 1
    requires Enabled(cfg, s, step)
  {
    match step
    case PipeStep(StopJoinPool) => s.(p := s.p.(stop := P.InSourceClose))
    case PipeStep(st) => s.(p := P.Next(cfg, s.p, st))
    case PoolStep(st) => s.(pool := T.Next(s.pool, st))
  }

  // ── How the two machines fit together ───────────────────────────────────────

  /** The pool hands out exactly the loops: task number i is loop number i. */
  ghost predicate InOrder(s: State) {
    forall i :: 0 <= i < |s.pool.q.submitted| ==> s.pool.q.submitted[i] == i
  }

  ghost predicate Linked(cfg: Config, s: State) {
    && T.Inv(s.pool) && ShutdownSound(s.p)
    && |s.pool.workers| == |s.p.workers| == cfg.workers
    && |s.pool.q.submitted| <= cfg.workers && InOrder(s)
    && (s.p.stop != P.NotCalled ==> Started(cfg, s))
    && (s.pool.shutdown != T.NotCalled ==> s.p.stop in {P.CaptureJoined, P.InSourceClose, P.Returned})
    && (s.pool.shutdown != T.NotCalled ==> s.pool.atStop == cfg.workers)
    && (s.p.stop in {P.InSourceClose, P.Returned} ==> s.pool.shutdown == T.Joined)
    && (forall i: nat :: i in s.pool.finished && i < cfg.workers ==> s.p.workers[i].pc == P.Done)
  }

  /** When the pool's shutdown has joined its workers, every inference loop has returned: the
      one-step join of the pipeline model is what the pool really guarantees. */
  lemma PoolJoinMeansLoopsReturned(cfg: Config, s: State)
    requires Linked(cfg, s) && s.pool.shutdown == T.Joined
    ensures forall i :: 0 <= i < cfg.workers ==> s.p.workers[i].pc == P.Done
  {
    forall i: nat | i < cfg.workers ensures s.p.workers[i].pc == P.Done {
      assert s.pool.workers[0] == T.Exited;
      assert i < s.pool.q.started;
      assert forall w :: !T.Runs(s.pool, w, i);
    }
  }

  lemma PipeStepIsPipelineStep(cfg: Config, s: State, step: P.Step)
    requires s.p.frames.capacity >= 1
    requires Linked(cfg, s) && PipeEnabled(cfg, s, step)
    ensures P.Enabled(s.p, step)
    ensures Next(cfg, s, PipeStep(step)).p == P.Next(cfg, s.p, step)
  {
    if step.StopJoinPool? {
      PoolJoinMeansLoopsReturned(cfg, s);
    }
  }

  lemma PipelineStepFrame(cfg: Config, p: P.State, step: P.Step)
    requires p.frames.capacity >= 1 && P.Enabled(p, step)
    ensures var p' := P.Next(cfg, p, step);
      && |p'.workers| == |p.workers|
      && (forall i :: 0 <= i < |p.workers| && p.workers[i].pc == P.Done ==> p'.workers[i].pc == P.Done)
      && (p'.stop == p.stop || step.StopCall? || step.StopCloseQueue? || step.StopJoinCapture? || step.StopJoinPool?
          || step.StopSourceClosed?)
  {
    if IsWorkerStep(step) {
      WorkerStepFrame(cfg, p, step);
    }
  }

  lemma PipeStepKeepsLinked(cfg: Config, s: State, step: P.Step)
    requires s.p.frames.capacity >= 1
    requires Linked(cfg, s) && PipeEnabled(cfg, s, step)
    ensures Linked(cfg, Next(cfg, s, PipeStep(step)))
  {
    PipeStepIsPipelineStep(cfg, s, step);
    StepKeepsShutdown(cfg, s.p, step);
    PipelineStepFrame(cfg, s.p, step);
  }

  /** What of the pool the pipeline depends on, and which steps change it. */
  ghost predicate PoolChanges(pool: T.State<nat>, step: T.Step<nat>, pool': T.State<nat>)
    requires T.Enabled(pool, step)
  {
    && |pool'.workers| == |pool.workers|
    && pool'.q.submitted == (if step.SubmitPush? then pool.q.submitted + [step.task] else pool.q.submitted)
    && (pool'.posting != pool.posting ==> step.SubmitPush? || pool.posting > 0)
    && pool'.finished == (if step.Finish? then pool.finished + {pool.workers[step.w].task} else pool.finished)
    && (pool.shutdown != T.NotCalled ==> pool'.shutdown != T.NotCalled && pool'.atStop == pool.atStop)
    && (pool.shutdown == T.NotCalled && pool'.shutdown != T.NotCalled ==>
          step.ShutdownFlag? && pool'.atStop == |pool.q.submitted|)
    && (pool.shutdown == T.Joined ==> pool'.shutdown == T.Joined)
  }

  lemma PoolStepChanges(pool: T.State<nat>, step: T.Step<nat>)
    requires T.Enabled(pool, step)
    ensures PoolChanges(pool, step, T.Next(pool, step))
  {
  }

  lemma PoolChangeKeepsLinked(cfg: Config, s: State, step: T.Step<nat>, pool': T.State<nat>)
    requires Linked(cfg, s) && PoolEnabled(cfg, s, step)
    requires T.Inv(pool') && PoolChanges(s.pool, step, pool')
    ensures Linked(cfg, s.(pool := pool'))
  {
    assert InOrder(s.(pool := pool'));
  }

  lemma PoolStepKeepsLinked(cfg: Config, s: State, step: T.Step<nat>)
    requires Linked(cfg, s) && PoolEnabled(cfg, s, step)
    ensures Linked(cfg, s.(pool := T.Next(s.pool, step)))
  {
    T.StepKeepsInv(s.pool, step);
    PoolStepChanges(s.pool, step);
    PoolChangeKeepsLinked(cfg, s, step, T.Next(s.pool, step));
  }

  // ── Runs ────────────────────────────────────────────────────────────────────

  ghost predicate Moves(cfg: Config, s: State, step: Step, s': State) {
    s.p.frames.capacity >= 1 && Enabled(cfg, s, step) && s' == Next(cfg, s, step)
  }

  ghost predicate Trace(cfg: Config, trace: seq<State>, steps: seq<Step>) {
    && cfg.queueCapacity >= 1
    && |trace| == |steps| + 1
    && trace[0] == Init(cfg)
    && forall i {:trigger steps[i]} :: 0 <= i < |steps| ==> Moves(cfg, trace[i], steps[i], trace[i + 1])
  }

  lemma StepKeepsLinked(cfg: Config, s: State, step: Step)
    requires s.p.frames.capacity >= 1
    requires Linked(cfg, s) && Enabled(cfg, s, step)
    ensures Linked(cfg, Next(cfg, s, step))
  {
    match step
    case PipeStep(st) => PipeStepKeepsLinked(cfg, s, st);
    case PoolStep(st) => PoolStepKeepsLinked(cfg, s, st);
  }

  lemma InitIsLinked(cfg: Config)
    ensures Linked(cfg, Init(cfg))
  {
    T.InitIsInv<nat>(cfg.workers);
  }

  lemma {:induction false} EveryRunIsLinked(cfg: Config, trace: seq<State>, steps: seq<Step>, i: nat)
    requires Trace(cfg, trace, steps) && i < |trace|
    ensures Linked(cfg, trace[i])
  {
    if i == 0 {
      InitIsLinked(cfg);
    } else {
      EveryRunIsLinked(cfg, trace, steps, i - 1);
      StepKeepsLinked(cfg, trace[i - 1], steps[i - 1]);
    }
  }

  lemma PipeAdvances(cfg: Config, pipe: seq<P.State>, pipeSteps: seq<P.Step>, s: State, step: Step)
    returns (pipe': seq<P.State>, pipeSteps': seq<P.Step>)
    requires s.p.frames.capacity >= 1 && Linked(cfg, s) && Enabled(cfg, s, step)
    requires P.Trace(cfg, pipe, pipeSteps) && pipe[|pipeSteps|] == s.p
    ensures P.Trace(cfg, pipe', pipeSteps') && pipe'[|pipeSteps'|] == Next(cfg, s, step).p
  {
    match step
    case PoolStep(_) =>
      pipe', pipeSteps' := pipe, pipeSteps;
    case PipeStep(st) =>
      PipeStepIsPipelineStep(cfg, s, st);
      P.TraceExtends(cfg, pipe, pipeSteps, st, P.Next(cfg, s.p, st));
      pipe', pipeSteps' := pipe + [P.Next(cfg, s.p, st)], pipeSteps + [st];
  }

  /** Leaving the pool's own steps out, every run is a run of the pipeline model: whatever is
      proved of those (frame accounting, cooldown, unique ids, orderly shutdown) holds here. */
  lemma {:induction false} EveryRunRefinesPipeline(cfg: Config, trace: seq<State>, steps: seq<Step>, i: nat)
    returns (pipe: seq<P.State>, pipeSteps: seq<P.Step>)
    requires Trace(cfg, trace, steps) && i < |trace|
    ensures P.Trace(cfg, pipe, pipeSteps) && pipe[|pipeSteps|] == trace[i].p
  {
    if i == 0 {
      pipe, pipeSteps := [P.Init(cfg)], [];
    } else {
      pipe, pipeSteps := EveryRunRefinesPipeline(cfg, trace, steps, i - 1);
      EveryRunIsLinked(cfg, trace, steps, i - 1);
      pipe, pipeSteps := PipeAdvances(cfg, pipe, pipeSteps, trace[i - 1], steps[i - 1]);
    }
  }

  // ── Does stop() return? ─────────────────────────────────────────────────────

  ghost predicate IsSpurious(step: Step) {
    step.PoolStep? && step.pool.Spurious?
  }

  /** Nothing more happens, unless a sleeping pool worker is woken for no reason. */
  ghost predicate AtRest(cfg: Config, s: State) {
    forall step :: Enabled(cfg, s, step) ==> IsSpurious(step)
  }

  lemma LoopMove(cfg: Config, s: State, w: nat) returns (step: Step)
    requires Linked(cfg, s) && s.p.frames.closed
    requires w < cfg.workers && s.pool.workers[w].Busy?
    ensures Enabled(cfg, s, step) && !IsSpurious(step)
  {
    var loop := s.pool.workers[w].task;
    assert T.Runs(s.pool, w, loop);
    if s.p.workers[loop].pc == P.Done {
      step := PoolStep(T.Finish(w));
    } else {
      WorkerCanMove(s.p, loop);
      var st :| P.Enabled(s.p, st) && IsWorkerStep(st) && st.w == loop;
      step := PipeStep(st);
    }
  }

  /** While stop() waits in the pool's join, a worker that is neither asleep nor gone can move. */
  lemma JoinMove(cfg: Config, s: State) returns (step: Step)
    requires Linked(cfg, s) && s.p.stop == P.CaptureJoined && s.pool.shutdown == T.Notified
    requires T.Sleeping !in s.pool.workers
    ensures Enabled(cfg, s, step) && !IsSpurious(step)
  {
    if w: nat :| w < cfg.workers && s.pool.workers[w] == T.Window {
      step := PoolStep(T.FallAsleep(w));
    } else if w: nat :| w < cfg.workers && s.pool.workers[w].Busy? {
      step := LoopMove(cfg, s, w);
    } else if w: nat :| w < cfg.workers && s.pool.workers[w] in {T.Free, T.Woken} {
      step := PoolStep(T.Test(w));
    } else {
      forall w: nat | w < cfg.workers ensures s.pool.workers[w] == T.Exited {
        assert s.pool.workers[w] in s.pool.workers;
      }
      step := PoolStep(T.ShutdownJoin);
    }
  }

  /** Until stop() returns there is always somebody to move, unless the pool has been notified
      and one of its workers sleeps. */
  lemma StopMove(cfg: Config, s: State) returns (step: Step)
    requires Linked(cfg, s) && s.p.stop !in {P.NotCalled, P.Returned}
    requires s.pool.shutdown == T.Notified ==> T.Sleeping !in s.pool.workers
    ensures Enabled(cfg, s, step) && !IsSpurious(step)
  {
    match s.p.stop
    case FlagDown => step := PipeStep(P.StopCloseQueue);
    case QueueClosed =>
      if s.p.capture == P.Ended {
        step := PipeStep(P.StopJoinCapture);
      } else {
        CaptureCanMove(s.p);
        var st :| P.Enabled(s.p, st) && IsCaptureStep(st);
        step := PipeStep(st);
      }
    case CaptureJoined =>
      match s.pool.shutdown {
        case NotCalled => step := PoolStep(T.ShutdownFlag);
        case Flagged => step := PoolStep(T.ShutdownNotify);
        case Notified => step := JoinMove(cfg, s);
        case Joined => step := PipeStep(P.StopJoinPool);
      }
    case InSourceClose => step := PipeStep(P.StopSourceClosed);
  }

  /** How far a pool worker is from its end, given that each queued loop counts for two. */
  function PoolRank(w: T.Worker): nat {
    match w
    case Exited => 0
    case Sleeping => 1
    case Window => 2
    case Free => 3
    case Woken => 3
    case Busy(_) => 4
  }

  function SumPoolRanks(ws: seq<T.Worker>): nat {
    if ws == [] then 0 else SumPoolRanks(ws[..|ws| - 1]) + PoolRank(ws[|ws| - 1])
  }

  /** Notifying may wake every worker once more. */
  function PhaseRank(phase: T.Shutdown, workers: nat): nat {
    match phase
    case NotCalled => 2 * workers + 3
    case Flagged => 2 * workers + 2
    case Notified => 1
    case Joined => 0
  }

  function PoolMeasure(pool: T.State<nat>): nat {
    2 * |pool.q.queue| + SumPoolRanks(pool.workers) + PhaseRank(pool.shutdown, |pool.workers|)
  }

  function StopMeasure(s: State): (nat, nat) {
    (Measure(s.p).0 + PoolMeasure(s.pool), Measure(s.p).1)
  }

  lemma {:induction false} SumPoolUpdate(ws: seq<T.Worker>, w: nat, x: T.Worker)
    requires w < |ws|
    ensures SumPoolRanks(ws[w := x]) + PoolRank(ws[w]) == SumPoolRanks(ws) + PoolRank(x)
  {
    var n := |ws| - 1;
    if w < n {
      SumPoolUpdate(ws[..n], w, x);
      assert ws[w := x][..n] == ws[..n][w := x];
    } else {
      assert ws[w := x][..n] == ws[..n];
    }
  }

  lemma {:induction false} WakingCosts(ws: seq<T.Worker>)
    ensures SumPoolRanks(T.WakeAll(ws)) <= SumPoolRanks(ws) + 2 * |ws|
  {
    if ws != [] {
      var n := |ws| - 1;
      WakingCosts(ws[..n]);
      assert T.WakeAll(ws)[..n] == T.WakeAll(ws[..n]);
    }
  }

  lemma MoveWindsDown(pool: T.State<nat>, pool': T.State<nat>, w: nat, x: T.Worker)
    requires w < |pool.workers| && pool'.workers == pool.workers[w := x] && pool'.shutdown == pool.shutdown
    requires 2 * |pool'.q.queue| + PoolRank(x) < 2 * |pool.q.queue| + PoolRank(pool.workers[w])
    ensures PoolMeasure(pool') < PoolMeasure(pool)
  {
    SumPoolUpdate(pool.workers, w, x);
  }

  lemma PoolWindsDown(cfg: Config, s: State, step: T.Step<nat>)
    requires Linked(cfg, s) && !s.p.running && PoolEnabled(cfg, s, step) && !step.Spurious?
    ensures PoolMeasure(T.Next(s.pool, step)) < PoolMeasure(s.pool)
  {
    var pool, pool' := s.pool, T.Next(s.pool, step);
    match step
    case Test(w) => MoveWindsDown(pool, pool', w, T.AfterTest(pool, w).workers[w]);
    case FallAsleep(w) => MoveWindsDown(pool, pool', w, T.Sleeping);
    case Finish(w) => MoveWindsDown(pool, pool', w, T.Free);
    case ShutdownFlag =>
    case ShutdownNotify => WakingCosts(pool.workers);
    case ShutdownJoin =>
  }

  /** From the moment stop() is called every step of every thread, bar a spurious wakeup, brings
      pipeline and pool together closer to rest, so no run puts it off for ever. */
  lemma StoppingWindsDown(cfg: Config, s: State, step: Step)
    requires s.p.frames.capacity >= 1
    requires Linked(cfg, s) && !s.p.running && Enabled(cfg, s, step) && !IsSpurious(step)
    ensures !Next(cfg, s, step).p.running
    ensures Less(StopMeasure(Next(cfg, s, step)), StopMeasure(s))
  {
    match step
    case PipeStep(st) =>
      PipeStepIsPipelineStep(cfg, s, st);
      ShutdownOnlyWindsDown(cfg, s.p, st);
    case PoolStep(st) => PoolWindsDown(cfg, s, st);
  }

  /** Once everything is at rest after the call of stop(), stop() has returned exactly if no pool
      worker is asleep; and only the worker that shutdown() caught can be. */
  lemma RestExactly(cfg: Config, s: State)
    requires Linked(cfg, s) && s.p.stop != P.NotCalled && AtRest(cfg, s)
    ensures s.p.stop == P.Returned <==> T.Sleeping !in s.pool.workers
    ensures forall w: nat :: w < |s.pool.workers| && s.pool.workers[w] == T.Sleeping ==> s.pool.late == Some(w)
  {
    if s.p.stop != P.Returned && !(s.pool.shutdown == T.Notified && T.Sleeping in s.pool.workers) {
      var step := StopMove(cfg, s);
    }
  }

  /** No spurious wakeup comes to the rescue. */
  ghost predicate Calm(steps: seq<Step>) {
    forall i {:trigger steps[i]} :: 0 <= i < |steps| ==> !IsSpurious(steps[i])
  }

  lemma StepKeepsCaught(cfg: Config, s: State, step: Step)
    requires s.p.frames.capacity >= 1
    requires Linked(cfg, s) && T.Caught(s.pool) && Enabled(cfg, s, step) && !IsSpurious(step)
    ensures T.Caught(Next(cfg, s, step).pool)
  {
    if step.PoolStep? {
      T.StepKeepsCaught(s.pool, step.pool);
    }
  }

  lemma {:induction false} CalmRunStaysCaught(cfg: Config, trace: seq<State>, steps: seq<Step>, i: nat)
    requires Trace(cfg, trace, steps) && Calm(steps) && i < |trace|
    ensures T.Caught(trace[i].pool)
  {
    if i > 0 {
      CalmRunStaysCaught(cfg, trace, steps, i - 1);
      EveryRunIsLinked(cfg, trace, steps, i - 1);
      StepKeepsCaught(cfg, trace[i - 1], steps[i - 1]);
    }
  }

  lemma LateStep(cfg: Config, s: State, step: Step)
    requires s.p.frames.capacity >= 1
    requires Enabled(cfg, s, step) && s.pool.shutdown in {T.Notified, T.Joined}
    ensures Next(cfg, s, step).pool.late == s.pool.late && Next(cfg, s, step).pool.shutdown in {T.Notified, T.Joined}
  {
    if step.PoolStep? {
      T.LateStep(s.pool, step.pool);
    }
  }

  lemma {:induction false} LateIsSettled(cfg: Config, trace: seq<State>, steps: seq<Step>, j: nat, i: nat)
    requires Trace(cfg, trace, steps) && j < |steps| && steps[j] == PoolStep(T.ShutdownNotify) && j < i < |trace|
    ensures trace[i].pool.shutdown in {T.Notified, T.Joined}
    ensures trace[i].pool.late == None <==> T.MutexFree(trace[j].pool)
  {
    if i == j + 1 {
      assert trace[i] == Next(cfg, trace[j], steps[j]);
      EveryRunIsLinked(cfg, trace, steps, j);
      T.NotifyCatches(trace[j].pool);
    } else {
      LateIsSettled(cfg, trace, steps, j, i - 1);
      LateStep(cfg, trace[i - 1], steps[i - 1]);
    }
  }

  /** When a run without spurious wakeups has come to rest after the call of stop(), stop() has
      returned exactly if, at the moment shutdown() notified, no worker had tested its predicate
      without yet being asleep.  Such a worker is what `late` records. */
  lemma StopReturnsExactly(cfg: Config, trace: seq<State>, steps: seq<Step>)
    requires Trace(cfg, trace, steps) && Calm(steps)
    requires trace[|steps|].p.stop != P.NotCalled && AtRest(cfg, trace[|steps|])
    ensures var s := trace[|steps|];
      && (s.p.stop == P.Returned <==> s.pool.late == None)
      && forall j :: 0 <= j < |steps| && steps[j] == PoolStep(T.ShutdownNotify) ==>
           (s.p.stop == P.Returned <==> T.MutexFree(trace[j].pool))
  {
    var s := trace[|steps|];
    EveryRunIsLinked(cfg, trace, steps, |steps|);
    CalmRunStaysCaught(cfg, trace, steps, |steps|);
    RestExactly(cfg, s);
    CaughtDecides(cfg, s);
    forall j | 0 <= j < |steps| && steps[j] == PoolStep(T.ShutdownNotify)
      ensures s.p.stop == P.Returned <==> T.MutexFree(trace[j].pool)
    {
      LateIsSettled(cfg, trace, steps, j, |steps|);
    }
  }

  lemma CaughtDecides(cfg: Config, s: State)
    requires Linked(cfg, s) && T.Caught(s.pool)
    requires s.p.stop == P.Returned <==> T.Sleeping !in s.pool.workers
    requires forall w: nat :: w < |s.pool.workers| && s.pool.workers[w] == T.Sleeping ==> s.pool.late == Some(w)
    ensures s.p.stop == P.Returned <==> s.pool.late == None
  {
    if s.p.stop != P.Returned {
      var w: nat :| w < |s.pool.workers| && s.pool.workers[w] == T.Sleeping;
    }
  }

  // ── And it need not ─────────────────────────────────────────────────────────

  /** Some run without spurious wakeups leads to `s`. */
  ghost predicate Reachable(cfg: Config, s: State) {
    exists trace, steps :: Trace(cfg, trace, steps) && Calm(steps) && trace[|steps|] == s
  }

  lemma RunExtends(cfg: Config, trace: seq<State>, steps: seq<Step>, step: Step, s: State)
    requires Trace(cfg, trace, steps) && Moves(cfg, trace[|steps|], step, s)
    ensures Trace(cfg, trace + [s], steps + [step])
  {
    var trace', steps' := trace + [s], steps + [step];
    forall i {:trigger steps'[i]} | 0 <= i < |steps'| ensures Moves(cfg, trace'[i], steps'[i], trace'[i + 1]) {
      if i < |steps| {
        assert Moves(cfg, trace[i], steps[i], trace[i + 1]);
      }
    }
  }

  lemma Advance(cfg: Config, s: State, step: Step, s': State)
    requires Reachable(cfg, s) && s.p.frames.capacity >= 1
    requires Enabled(cfg, s, step) && !IsSpurious(step) && s' == Next(cfg, s, step)
    ensures Reachable(cfg, s')
  {
    var trace, steps :| Trace(cfg, trace, steps) && Calm(steps) && trace[|steps|] == s;
    RunExtends(cfg, trace, steps, step, s');
    assert Calm(steps + [step]) by {
      assert forall i :: 0 <= i < |steps| ==> (steps + [step])[i] == steps[i];
    }
    assert (trace + [s'])[|steps + [step]|] == s';
  }

  lemma ReachableIsSound(cfg: Config, s: State)
    requires Reachable(cfg, s)
    ensures Linked(cfg, s) && s.p.frames.capacity >= 1
  {
    var trace, steps :| Trace(cfg, trace, steps) && Calm(steps) && trace[|steps|] == s;
    EveryRunIsLinked(cfg, trace, steps, |steps|);
    var pipe, pipeSteps := EveryRunRefinesPipeline(cfg, trace, steps, |steps|);
    P.EveryRunKeepsFrames(cfg, pipe, pipeSteps, |pipeSteps|);
  }

  /** A run in which shutdown() has notified can be continued until it comes to rest. */
  lemma RunToRest(cfg: Config, s: State) returns (s': State)
    requires Reachable(cfg, s) && !s.p.running && s.pool.shutdown in {T.Notified, T.Joined}
    ensures Reachable(cfg, s') && AtRest(cfg, s') && s'.pool.late == s.pool.late
    ensures s'.pool.shutdown in {T.Notified, T.Joined}
    decreases StopMeasure(s).0, StopMeasure(s).1
  {
    if AtRest(cfg, s) {
      s' := s;
    } else {
      var step :| Enabled(cfg, s, step) && !IsSpurious(step);
      ReachableIsSound(cfg, s);
      StoppingWindsDown(cfg, s, step);
      LateStep(cfg, s, step);
      var next := Next(cfg, s, step);
      Advance(cfg, s, step, next);
      s' := RunToRest(cfg, next);
    }
  }

  /** A pool of `n` workers whose first `k` have each taken a loop. */
  function Taken(n: nat, k: nat): seq<T.Worker> {
    seq(n, i requires 0 <= i < n => if i < k then T.Busy(i) else T.Free)
  }

  function Loops(k: nat): seq<nat> {
    seq(k, i requires 0 <= i < k => i)
  }

  function StartPool(n: nat, k: nat): T.State<nat> {
    T.State(T.Tasks([], false, Loops(k), k), Taken(n, k), 0, T.NotCalled, {}, 0, None)
  }

  /** start() submits the next loop, and the next worker takes it. */
  lemma NextLoopTaken(cfg: Config, k: nat)
    requires k < cfg.workers && cfg.queueCapacity >= 1
    requires Reachable(cfg, State(P.Init(cfg), StartPool(cfg.workers, k)))
    ensures Reachable(cfg, State(P.Init(cfg), StartPool(cfg.workers, k + 1)))
  {
    var n, p := cfg.workers, P.Init(cfg);
    var pool0, pool3 := StartPool(n, k), StartPool(n, k + 1);
    var pushed := T.Tasks([k], false, Loops(k + 1), k);
    var pool1 := pool0.(q := pushed, posting := 1);
    var pool2 := pool0.(q := pushed);
    assert Loops(k + 1) == Loops(k) + [k];
    assert Taken(n, k)[k := T.Busy(k)] == Taken(n, k + 1);
    assert Reachable(cfg, State(p, pool1)) by {
      Advance(cfg, State(p, pool0), PoolStep(T.SubmitPush(k)), State(p, pool1));
    }
    assert Reachable(cfg, State(p, pool2)) by {
      Advance(cfg, State(p, pool1), PoolStep(T.SubmitNotify(None)), State(p, pool2));
    }
    assert pool2.workers[k] == T.Free;
    Advance(cfg, State(p, pool2), PoolStep(T.Test(k)), State(p, pool3));
  }

  lemma {:induction false} LoopsTaken(cfg: Config, k: nat)
    requires k <= cfg.workers && cfg.queueCapacity >= 1
    ensures Reachable(cfg, State(P.Init(cfg), StartPool(cfg.workers, k)))
  {
    if k == 0 {
      var s, none: seq<Step> := Init(cfg), [];
      assert Trace(cfg, [s], none) && [s][|none|] == s;
      assert s.pool.workers == Taken(cfg.workers, 0) && Loops(0) == [];
    } else {
      LoopsTaken(cfg, k - 1);
      NextLoopTaken(cfg, k - 1);
    }
  }

  /** The camera has seen no frame, and only its first loop has moved. */
  function FirstLoop(cfg: Config, pc: P.WorkerPc, capture: P.Capture, stop: P.Stop): P.State
    requires cfg.workers >= 1
  {
    var p := P.Init(cfg);
    p.(running := stop == P.NotCalled, frames := p.frames.(closed := stop !in {P.NotCalled, P.FlagDown}),
       capture := capture, workers := p.workers[0 := P.Thread(pc, map[])], stop := stop)
  }

  /** All loops have been taken; the first worker has done what `finished` says. */
  function FirstWorker(n: nat, worker: T.Worker, finished: set<nat>, phase: T.Shutdown, late: Option<nat>): T.State<nat>
    requires n >= 1
  {
    var flagged := phase != T.NotCalled;
    T.State(T.Tasks([], flagged, Loops(n), n), Taken(n, n)[0 := worker], 0, phase, finished,
            if flagged then n else 0, late)
  }

  lemma LoopReturns(cfg: Config)
    requires cfg.workers >= 1 && cfg.queueCapacity >= 1
    ensures Reachable(cfg, State(FirstLoop(cfg, P.Done, P.FirstOpen, P.FlagDown),
                                 FirstWorker(cfg.workers, T.Free, {0}, T.NotCalled, None)))
  {
    var n := cfg.workers;
    LoopsTaken(cfg, n);
    var pool := FirstWorker(n, T.Busy(0), {}, T.NotCalled, None);
    assert pool == StartPool(n, n) by {
      assert Taken(n, n)[0] == T.Busy(0);
    }
    assert T.Runs(pool, 0, 0);
    var s0 := State(P.Init(cfg), pool);
    var s1 := State(FirstLoop(cfg, P.AtTop, P.FirstOpen, P.NotCalled), pool);
    var s2 := State(FirstLoop(cfg, P.AtTop, P.FirstOpen, P.FlagDown), pool);
    var s3 := State(FirstLoop(cfg, P.Done, P.FirstOpen, P.FlagDown), pool);
    assert Reachable(cfg, s1) by { Advance(cfg, s0, PipeStep(P.WorkerStart(0)), s1); }
    assert Reachable(cfg, s2) by { Advance(cfg, s1, PipeStep(P.StopCall), s2); }
    assert Reachable(cfg, s3) by { Advance(cfg, s2, PipeStep(P.WorkerCheck(0)), s3); }
    Advance(cfg, s3, PoolStep(T.Finish(0)), s3.(pool := FirstWorker(n, T.Free, {0}, T.NotCalled, None)));
  }

  lemma CaptureReturns(cfg: Config)
    requires cfg.workers >= 1 && cfg.queueCapacity >= 1
    ensures Reachable(cfg, State(FirstLoop(cfg, P.Done, P.Ended, P.CaptureJoined),
                                 FirstWorker(cfg.workers, T.Free, {0}, T.NotCalled, None)))
  {
    LoopReturns(cfg);
    var pool := FirstWorker(cfg.workers, T.Free, {0}, T.NotCalled, None);
    var s0 := State(FirstLoop(cfg, P.Done, P.FirstOpen, P.FlagDown), pool);
    var s1 := State(FirstLoop(cfg, P.Done, P.FirstOpen, P.QueueClosed), pool);
    var s2 := State(FirstLoop(cfg, P.Done, P.CheckRunning, P.QueueClosed), pool);
    var s3 := State(FirstLoop(cfg, P.Done, P.Ended, P.QueueClosed), pool);
    var s4 := State(FirstLoop(cfg, P.Done, P.Ended, P.CaptureJoined), pool);
    assert Reachable(cfg, s1) by { Advance(cfg, s0, PipeStep(P.StopCloseQueue), s1); }
    assert Reachable(cfg, s2) by { Advance(cfg, s1, PipeStep(P.CaptureOpened(false)), s2); }
    assert Reachable(cfg, s3) by { Advance(cfg, s2, PipeStep(P.CaptureCheck), s3); }
    Advance(cfg, s3, PipeStep(P.StopJoinCapture), s4);
  }

  lemma WakeupIsLost(cfg: Config)
    requires cfg.workers >= 1 && cfg.queueCapacity >= 1
    ensures Reachable(cfg, State(FirstLoop(cfg, P.Done, P.Ended, P.CaptureJoined),
                                 FirstWorker(cfg.workers, T.Window, {0}, T.Notified, Some(0))))
  {
    CaptureReturns(cfg);
    var n, p := cfg.workers, FirstLoop(cfg, P.Done, P.Ended, P.CaptureJoined);
    var s0 := State(p, FirstWorker(n, T.Free, {0}, T.NotCalled, None));
    var s1 := State(p, FirstWorker(n, T.Window, {0}, T.NotCalled, None));
    var s2 := State(p, FirstWorker(n, T.Window, {0}, T.Flagged, None));
    var s3 := State(p, FirstWorker(n, T.Window, {0}, T.Notified, Some(0)));
    assert Reachable(cfg, s1) by { Advance(cfg, s0, PoolStep(T.Test(0)), s1); }
    assert Reachable(cfg, s2) by { Advance(cfg, s1, PoolStep(T.ShutdownFlag), s2); }
    assert T.WindowOf(s2.pool) == Some(0) by {
      assert s2.pool.workers[0] == T.Window;
    }
    assert T.WakeAll(s2.pool.workers) == s2.pool.workers;
    Advance(cfg, s2, PoolStep(T.ShutdownNotify), s3);
  }

  /** Some run without spurious wakeups comes to rest with stop() called and not returned. */
  ghost predicate CanHang(cfg: Config) {
    exists s :: Reachable(cfg, s) && s.p.stop !in {P.NotCalled, P.Returned} && AtRest(cfg, s)
  }

  /** A camera can hang in stop() exactly if it has a worker at all: a loop has returned, its
      worker finds no further task, and shutdown() notifies just before it falls asleep. */
  lemma StopCanHangExactly(cfg: Config)
    requires cfg.queueCapacity >= 1
    ensures CanHang(cfg) <==> cfg.workers >= 1
  {
    if cfg.workers >= 1 {
      WakeupIsLost(cfg);
      var s := State(FirstLoop(cfg, P.Done, P.Ended, P.CaptureJoined),
                     FirstWorker(cfg.workers, T.Window, {0}, T.Notified, Some(0)));
      var s' := RunToRest(cfg, s);
      StaysHung(cfg, s');
    } else {
      forall s | Reachable(cfg, s) && s.p.stop != P.NotCalled && AtRest(cfg, s) ensures s.p.stop == P.Returned {
        ReachableIsSound(cfg, s);
        RestExactly(cfg, s);
      }
    }
  }

  lemma StaysHung(cfg: Config, s: State)
    requires Reachable(cfg, s) && AtRest(cfg, s) && s.pool.late.Some? && s.pool.shutdown in {T.Notified, T.Joined}
    ensures s.p.stop !in {P.NotCalled, P.Returned}
  {
    ReachableIsSound(cfg, s);
    var trace, steps :| Trace(cfg, trace, steps) && Calm(steps) && trace[|steps|] == s;
    StopReturnsExactly(cfg, trace, steps);
  }

  /** When the winning stop() has returned the run is over: no thread, the pool's included, can
      take another step, so in particular no alert is published. */
  lemma NothingAfterStop(cfg: Config, trace: seq<State>, steps: seq<Step>, i: nat)
    requires Trace(cfg, trace, steps) && i < |trace| && trace[i].p.stop == P.Returned
    ensures forall step :: !Enabled(cfg, trace[i], step)
  {
    EveryRunIsLinked(cfg, trace, steps, i);
    var s := trace[i];
    forall step ensures !Enabled(cfg, s, step) {
      if step.PipeStep? && Enabled(cfg, s, step) {
        PipeStepIsPipelineStep(cfg, s, step.pipe);
      }
    }
  }
}
