/**
  A whole camera: pipeline, thread pool and the frame queue with its waits and wakeups.  Module
  Pipeline lets a worker take as soon as the queue's wait predicate holds; here the worker goes
  through the queue's own protocol, may sleep in it, and depends on being woken.
 */
module Camera {
  import opened Domain
  import opened InferenceWorker
  import M = PipelineOnPool
  import P = Pipeline
  import opened PipelineShutdown
  import Q = QueueProtocol
  import opened QueueLog
  import T = ThreadPool
  import opened Wrappers

  datatype State = State(m: M.State, q: Q.State<Frame>)

  datatype Step =
    | Elsewhere(m: M.Step)                  // a step that does not touch the queue
    | Push(wake: Option<nat>)               // the capture thread
    | Take(w: nat, wake: Option<nat>)       // worker `w` gets the lock, on arrival or after a wakeup
    | WokenForNothing(t: nat)
    | CloseFlag                             // the thread in stop()
    | CloseNotifyConsumers
    | CloseNotifyProducers

  /** The queue knows threads by number: worker `w` is `w`, and these two come after them. */
  function CaptureThread(cfg: Config): nat {
    cfg.workers
  }

  function StopThread(cfg: Config): nat {
    cfg.workers + 1
  }

  function Init(cfg: Config): State {
    State(M.Init(cfg), Q.Init(cfg.queueCapacity, DropOldestWhenFull))
  }

  predicate UsesQueue(step: M.Step) {
    step.PipeStep? && (step.pipe.CapturePush? || step.pipe.WorkerTake? || step.pipe.StopCloseQueue?)
  }

  /** close() has set the flag and not yet returned. */
  predicate Closing(s: State) {
    s.q.flagged != {} || s.q.halfway != {}
  }

  /** What worker `w` does at the queue: enter it, or try again after a wakeup. */
  function TakeStep(s: State, w: nat, wake: Option<nat>): Q.Step<Frame> {
    Q.PassStep(s.q, w, Q.PopLatestCall, wake)
  }

  ghost predicate Enabled(cfg: Config, s: State, step: Step) {
    match step
    case Elsewhere(st) =>
      M.Enabled(cfg, s.m, st) && !UsesQueue(st) && (st == M.PipeStep(P.StopJoinCapture) ==> !Closing(s))
    case Push(wake) =>
      && M.Enabled(cfg, s.m, M.PipeStep(P.CapturePush))
      && Q.Enabled(s.q, Q.Enter(CaptureThread(cfg), Q.PushCall(s.m.p.capture.frame), wake))
    case Take(w, wake) =>
      && P.At(s.m.p, w) && s.m.p.workers[w].pc == P.Taking && M.RunByPool(s.m, w)
      && Q.Enabled(s.q, TakeStep(s, w, wake))
    case WokenForNothing(t) => Q.Enabled(s.q, Q.Spurious(t))
    case CloseFlag =>
      M.Enabled(cfg, s.m, M.PipeStep(P.StopCloseQueue)) && Q.Enabled(s.q, Q.CloseFlag(StopThread(cfg)))
    case CloseNotifyConsumers => Q.Enabled(s.q, Q.CloseNotifyConsumers(StopThread(cfg)))
    case CloseNotifyProducers => Q.Enabled(s.q, Q.CloseNotifyProducers(StopThread(cfg)))
  }

  /** The worker finds nothing and falls asleep in the queue. */
  predicate Sleeps(s: State, step: Step)
    requires s.q.q.capacity >= 1
  {
    step.Take? && Q.Outcome(s.q.q, Q.PopLatestCall).0 == Q.Sleeps
  }

  /** What the camera's step is to the pipeline and its pool, if anything. */
  function Projection(s: State, step: Step): Option<M.Step>
    requires s.q.q.capacity >= 1
  {
    match step
    case Elsewhere(st) => Some(st)
    case Push(_) => Some(M.PipeStep(P.CapturePush))
    case Take(w, _) => if Sleeps(s, step) then None else Some(M.PipeStep(P.WorkerTake(w)))
    case CloseFlag => Some(M.PipeStep(P.StopCloseQueue))
    case _ => None
  }

  /** And what it is to the queue. */
  function QueueStep(cfg: Config, s: State, step: Step): Option<Q.Step<Frame>> {
    match step
    case Elsewhere(_) => None
    case Push(wake) =>
      if s.m.p.capture.PushIt? then Some(Q.Enter(CaptureThread(cfg), Q.PushCall(s.m.p.capture.frame), wake)) else None
    case Take(w, wake) => Some(TakeStep(s, w, wake))
    case WokenForNothing(t) => Some(Q.Spurious(t))
    case CloseFlag => Some(Q.CloseFlag(StopThread(cfg)))
    case CloseNotifyConsumers => Some(Q.CloseNotifyConsumers(StopThread(cfg)))
    case CloseNotifyProducers => Some(Q.CloseNotifyProducers(StopThread(cfg)))
  }

  // ── How the machines fit together ───────────────────────────────────────────

  /** A thread inside the queue is a running worker that is trying to take. */
  ghost predicate Waits(s: State, t: nat) {
    && P.At(s.m.p, t) && s.m.p.workers[t].pc == P.Taking && M.RunByPool(s.m, t)
    && t in s.q.calls && s.q.calls[t] == Q.PopLatestCall
  }

  /** Both machines are in order and mean the same queue. */
  ghost predicate Machines(cfg: Config, s: State) {
    && M.Linked(cfg, s.m) && Q.Safe(s.q)
    && s.q.q == s.m.p.frames && s.q.q.policy == DropOldestWhenFull
  }

  ghost predicate AllWait(s: State) {
    forall t :: t in s.q.calls ==> Waits(s, t)
  }

  /** Only stop() closes the queue, and it does not go on before close() has returned. */
  ghost predicate CloseInOrder(cfg: Config, s: State) {
    && s.q.flagged <= {StopThread(cfg)} && s.q.halfway <= {StopThread(cfg)}
    && (s.q.flagged == {} || s.q.halfway == {})
    && (Closing(s) ==> s.m.p.stop == P.QueueClosed)
  }

  ghost predicate Linked(cfg: Config, s: State) {
    Machines(cfg, s) && AllWait(s) && CloseInOrder(cfg, s)
  }

  lemma InitIsLinked(cfg: Config)
    requires cfg.queueCapacity >= 1
    ensures Linked(cfg, Init(cfg))
  {
    M.InitIsLinked(cfg);
    Q.InitIsSafe<Frame>(cfg.queueCapacity, DropOldestWhenFull);
  }

  /** Whatever the camera does is a step of pipeline and pool, or none. */
  lemma ProjectionIsEnabled(cfg: Config, s: State, step: Step)
    requires Linked(cfg, s) && Enabled(cfg, s, step) && Projection(s, step).Some?
    ensures M.Enabled(cfg, s.m, Projection(s, step).value)
  {
  }

  ghost predicate Moves(cfg: Config, s: State, step: Step, s': State) {
    && s.q.q.capacity >= 1 && s.m.p.frames.capacity >= 1 && Enabled(cfg, s, step)
    && (match Projection(s, step)
        case None => s'.m == s.m
        case Some(st) => M.Enabled(cfg, s.m, st) && s'.m == M.Next(cfg, s.m, st))
    && (match QueueStep(cfg, s, step)
        case None => s'.q == s.q
        case Some(st) => Q.Enabled(s.q, st) && s'.q == Q.Next(s.q, st))
  }

  lemma ElsewhereLeavesQueue(cfg: Config, m: M.State, st: M.Step)
    requires m.p.frames.capacity >= 1 && M.Linked(cfg, m) && M.Enabled(cfg, m, st) && !UsesQueue(st)
    ensures M.Next(cfg, m, st).p.frames == m.p.frames
  {
    if st.PipeStep? {
      M.PipeStepIsPipelineStep(cfg, m, st.pipe);
      if !st.pipe.CaptureReadDone? {
        P.OtherStepLeavesFrames(cfg, m.p, st.pipe);
      }
      if IsWorkerStep(st.pipe) {
        WorkerStepFrame(cfg, m.p, st.pipe);
      }
    }
  }

  /** A worker waiting to take stays there, run by its pool worker, until it takes. */
  lemma TakerStays(cfg: Config, m: M.State, st: M.Step, t: nat)
    requires m.p.frames.capacity >= 1 && M.Linked(cfg, m) && M.Enabled(cfg, m, st)
    requires P.At(m.p, t) && m.p.workers[t].pc == P.Taking && M.RunByPool(m, t)
    requires st != M.PipeStep(P.WorkerTake(t))
    ensures var m' := M.Next(cfg, m, st);
      P.At(m'.p, t) && m'.p.workers[t].pc == P.Taking && M.RunByPool(m', t)
  {
    if st.PipeStep? {
      M.PipeStepIsPipelineStep(cfg, m, st.pipe);
      if IsWorkerStep(st.pipe) {
        WorkerStepFrame(cfg, m.p, st.pipe);
      }
    }
    var w :| T.Runs(m.pool, w, t);
    assert T.Runs(M.Next(cfg, m, st).pool, w, t);
  }

  lemma WaiterStays(cfg: Config, s: State, step: Step, s': State, t: nat)
    requires Linked(cfg, s) && Moves(cfg, s, step, s') && Waits(s, t)
    requires t in s'.q.calls && s'.q.calls[t] == s.q.calls[t]
    requires Projection(s, step) != Some(M.PipeStep(P.WorkerTake(t)))
    ensures Waits(s', t)
  {
    match Projection(s, step)
    case None =>
    case Some(st) => TakerStays(cfg, s.m, st, t);
  }

  lemma MachinesStayInOrder(cfg: Config, s: State, step: Step, s': State)
    requires Linked(cfg, s) && Moves(cfg, s, step, s')
    ensures M.Linked(cfg, s'.m) && Q.Safe(s'.q) && s'.q.q.policy == DropOldestWhenFull
  {
    if Projection(s, step).Some? {
      M.StepKeepsLinked(cfg, s.m, Projection(s, step).value);
    }
    if QueueStep(cfg, s, step).Some? {
      var st := QueueStep(cfg, s, step).value;
      Q.StepKeepsSafe(s.q, st);
      Q.StepKeepsKind(s.q, st);
    }
  }

  lemma TakeAgrees(cfg: Config, s: State, w: nat, wake: Option<nat>, s': State)
    requires Linked(cfg, s) && Moves(cfg, s, Take(w, wake), s')
    ensures s'.q.q == s'.m.p.frames && s'.m.p.stop == s.m.p.stop
    ensures s'.q.flagged == s.q.flagged && s'.q.halfway == s.q.halfway
    ensures s'.q.calls == if Sleeps(s, Take(w, wake)) then s.q.calls[w := Q.PopLatestCall] else s.q.calls - {w}
  {
    assert w in s.q.calls ==> Waits(s, w);
    Q.PassLeaves(s.q, w, Q.PopLatestCall, wake);
  }

  lemma PushAgrees(cfg: Config, s: State, wake: Option<nat>, s': State)
    requires Linked(cfg, s) && Moves(cfg, s, Push(wake), s')
    ensures s'.q.q == s'.m.p.frames && s'.m.p.stop == s.m.p.stop
    ensures s'.q.calls == s.q.calls && s'.q.flagged == s.q.flagged && s'.q.halfway == s.q.halfway
  {
    Q.EnterLeaves(s.q, CaptureThread(cfg), Q.PushCall(s.m.p.capture.frame), wake);
    Q.OutcomeFacts(s.q.q, Q.PushCall(s.m.p.capture.frame));
  }

  lemma ElsewhereAgrees(cfg: Config, s: State, st: M.Step, s': State)
    requires Linked(cfg, s) && Moves(cfg, s, Elsewhere(st), s')
    ensures s'.q.q == s'.m.p.frames && CloseInOrder(cfg, s')
  {
    ElsewhereLeavesQueue(cfg, s.m, st);
    if st.PipeStep? {
      M.PipeStepIsPipelineStep(cfg, s.m, st.pipe);
      M.PipelineStepFrame(cfg, s.m.p, st.pipe);
    }
  }

  /** The queue and the pipeline's frames agree after every step, and close() is in order. */
  lemma StepAgrees(cfg: Config, s: State, step: Step, s': State)
    requires Linked(cfg, s) && Moves(cfg, s, step, s')
    ensures s'.q.q == s'.m.p.frames && CloseInOrder(cfg, s')
  {
    match step
    case Elsewhere(st) => ElsewhereAgrees(cfg, s, st, s');
    case Push(wake) => PushAgrees(cfg, s, wake, s');
    case Take(w, wake) => TakeAgrees(cfg, s, w, wake, s');
    case WokenForNothing(t) =>
    case CloseFlag =>
    case CloseNotifyConsumers =>
    case CloseNotifyProducers =>
  }

  /** Whoever is in the queue after the step was in it before, with the same call, or has just
      gone to sleep in it. */
  lemma CallsAfter(cfg: Config, s: State, step: Step, s': State, t: nat)
    requires Linked(cfg, s) && Moves(cfg, s, step, s') && t in s'.q.calls
    ensures (step.Take? && step.w == t && Sleeps(s, step) && s'.q.calls[t] == Q.PopLatestCall)
            || (t in s.q.calls && s'.q.calls[t] == s.q.calls[t] && !(step.Take? && step.w == t))
  {
    match step
    case Elsewhere(st) =>
    case Push(wake) => PushAgrees(cfg, s, wake, s');
    case Take(w, wake) => TakeAgrees(cfg, s, w, wake, s');
    case WokenForNothing(u) =>
    case CloseFlag =>
    case CloseNotifyConsumers =>
    case CloseNotifyProducers =>
  }

  lemma StepKeepsWaits(cfg: Config, s: State, step: Step, s': State)
    requires Linked(cfg, s) && Moves(cfg, s, step, s')
    ensures AllWait(s')
  {
    forall t | t in s'.q.calls ensures Waits(s', t) {
      CallsAfter(cfg, s, step, s', t);
      if t in s.q.calls && !(step.Take? && step.w == t) {
        WaiterStays(cfg, s, step, s', t);
      }
    }
  }

  lemma StepKeepsLinked(cfg: Config, s: State, step: Step, s': State)
    requires Linked(cfg, s) && Moves(cfg, s, step, s')
    ensures Linked(cfg, s')
  {
    MachinesStayInOrder(cfg, s, step, s');
    StepAgrees(cfg, s, step, s');
    StepKeepsWaits(cfg, s, step, s');
  }

  // ── Runs ────────────────────────────────────────────────────────────────────

  ghost predicate Trace(cfg: Config, trace: seq<State>, steps: seq<Step>) {
    && cfg.queueCapacity >= 1
    && |trace| == |steps| + 1
    && trace[0] == Init(cfg)
    && forall i {:trigger steps[i]} :: 0 <= i < |steps| ==> Moves(cfg, trace[i], steps[i], trace[i + 1])
  }

  lemma {:induction false} EveryRunIsLinked(cfg: Config, trace: seq<State>, steps: seq<Step>, i: nat)
    requires Trace(cfg, trace, steps) && i < |trace|
    ensures Linked(cfg, trace[i])
  {
    if i == 0 {
      InitIsLinked(cfg);
    } else {
      var s, step, s' := trace[i - 1], steps[i - 1], trace[i];
      assert Linked(cfg, s) by {
        EveryRunIsLinked(cfg, trace, steps, i - 1);
      }
      StepKeepsLinked(cfg, s, step, s');
    }
  }

  predicate IsSpurious(step: Step) {
    step.WokenForNothing? || (step.Elsewhere? && step.m.PoolStep? && step.m.pool.Spurious?)
  }

  /** No spurious wakeup, neither in the pool nor in the queue. */
  ghost predicate Calm(steps: seq<Step>) {
    forall i {:trigger steps[i]} :: 0 <= i < |steps| ==> !IsSpurious(steps[i])
  }

  lemma AppendCalm(steps: seq<M.Step>, step: M.Step)
    requires M.Calm(steps) && !M.IsSpurious(step)
    ensures M.Calm(steps + [step])
  {
    forall i {:trigger (steps + [step])[i]} | 0 <= i < |steps + [step]| ensures !M.IsSpurious((steps + [step])[i]) {
      if i < |steps| {
        assert !M.IsSpurious(steps[i]);
      }
    }
  }

  lemma RunRefinesStep(cfg: Config, ms: seq<M.State>, msteps: seq<M.Step>, s: State, step: Step, s': State)
    returns (ms': seq<M.State>, msteps': seq<M.Step>)
    requires M.Trace(cfg, ms, msteps) && ms[|msteps|] == s.m
    requires Linked(cfg, s) && Moves(cfg, s, step, s')
    ensures M.Trace(cfg, ms', msteps') && ms'[|msteps'|] == s'.m
    ensures M.Calm(msteps) && !IsSpurious(step) ==> M.Calm(msteps')
  {
    match Projection(s, step)
    case None =>
      ms', msteps' := ms, msteps;
    case Some(st) =>
      M.RunExtends(cfg, ms, msteps, st, s'.m);
      if M.Calm(msteps) && !IsSpurious(step) {
        AppendCalm(msteps, st);
      }
      ms', msteps' := ms + [s'.m], msteps + [st];
  }

  /** Every run of the camera is a run of pipeline and pool, in which a worker takes as soon as the
      wait predicate holds: what is proved of those runs holds of the camera with its real queue. */
  lemma {:induction false} EveryRunRefines(cfg: Config, trace: seq<State>, steps: seq<Step>, i: nat)
    returns (ms: seq<M.State>, msteps: seq<M.Step>)
    requires Trace(cfg, trace, steps) && i < |trace|
    ensures M.Trace(cfg, ms, msteps) && ms[|msteps|] == trace[i].m
    ensures Calm(steps) ==> M.Calm(msteps)
  {
    if i == 0 {
      ms, msteps := [M.Init(cfg)], [];
    } else {
      var s, step, s' := trace[i - 1], steps[i - 1], trace[i];
      assert Linked(cfg, s) by {
        EveryRunIsLinked(cfg, trace, steps, i - 1);
      }
      ms, msteps := EveryRunRefines(cfg, trace, steps, i - 1);
      ms, msteps := RunRefinesStep(cfg, ms, msteps, s, step, s');
    }
  }

  // ── Nobody is kept waiting by the queue ─────────────────────────────────────

  lemma PickWake(sleepers: set<nat>) returns (wake: Option<nat>)
    ensures Q.Chosen(sleepers, wake)
  {
    if sleepers == {} {
      wake := None;
    } else {
      var t :| t in sleepers;
      wake := Some(t);
    }
  }

  /** A worker that is not asleep in the queue can go for the lock. */
  lemma AwakeTakes(cfg: Config, s: State, w: nat) returns (step: Step)
    requires Linked(cfg, s) && P.At(s.m.p, w) && s.m.p.workers[w].pc == P.Taking && M.RunByPool(s.m, w)
    requires w !in s.q.cSleep
    ensures Enabled(cfg, s, step) && step.Take? && step.w == w
  {
    assert Q.Placed(s.q, w);
    if w in s.q.calls {
      assert Waits(s, w);
    }
    var wake := PickWake(Q.Notified(s.q, Q.PopLatestCall));
    step := Take(w, wake);
  }

  /** If some worker waits beside a frame, some worker, it or one already notified, can take it
      now: no frame is left to a sleeper that nobody will wake. */
  lemma WaitingFrameIsTaken(cfg: Config, s: State, w: nat) returns (step: Step)
    requires Linked(cfg, s) && s.q.q.items != []
    requires P.At(s.m.p, w) && s.m.p.workers[w].pc == P.Taking && M.RunByPool(s.m, w)
    ensures Enabled(cfg, s, step) && step.Take? && !Sleeps(s, step)
  {
    Q.OutcomeFacts(s.q.q, Q.PopLatestCall);
    if w !in s.q.cSleep {
      step := AwakeTakes(cfg, s, w);
    } else {
      assert s.q.cWoken != {};
      var t := Q.SomeMember(s.q.cWoken);
      assert Q.Placed(s.q, t);
      assert Waits(s, t);
      step := AwakeTakes(cfg, s, t);
    }
  }

  lemma ClosingMove(cfg: Config, s: State) returns (step: Step)
    requires Linked(cfg, s) && Closing(s)
    ensures Enabled(cfg, s, step) && !IsSpurious(step) && !step.Elsewhere?
  {
    if s.q.flagged != {} {
      assert StopThread(cfg) in s.q.flagged;
      step := CloseNotifyConsumers;
    } else {
      assert StopThread(cfg) in s.q.halfway;
      step := CloseNotifyProducers;
    }
  }

  /** Once the queue is closed, a waiting worker can go on, or close() has still to notify. */
  lemma ClosedMove(cfg: Config, s: State, w: nat) returns (step: Step)
    requires Linked(cfg, s) && s.q.q.closed
    requires P.At(s.m.p, w) && s.m.p.workers[w].pc == P.Taking && M.RunByPool(s.m, w)
    ensures Enabled(cfg, s, step) && !IsSpurious(step)
  {
    if w in s.q.cSleep {
      step := ClosingMove(cfg, s);
    } else {
      step := AwakeTakes(cfg, s, w);
    }
  }

  /** The queue never holds the camera up: whenever pipeline or pool could move, the camera can. */
  lemma CameraMove(cfg: Config, s: State, st: M.Step) returns (step: Step)
    requires Linked(cfg, s) && M.Enabled(cfg, s.m, st) && !M.IsSpurious(st)
    ensures Enabled(cfg, s, step) && !IsSpurious(step)
  {
    if !UsesQueue(st) {
      if Closing(s) && st == M.PipeStep(P.StopJoinCapture) {
        step := ClosingMove(cfg, s);
      } else {
        step := Elsewhere(st);
      }
    } else if st.pipe.CapturePush? {
      assert CaptureThread(cfg) in s.q.calls ==> Waits(s, CaptureThread(cfg));
      var wake := PickWake(Q.Notified(s.q, Q.PushCall(s.m.p.capture.frame)));
      step := Push(wake);
    } else if st.pipe.WorkerTake? {
      if s.q.q.items != [] {
        step := WaitingFrameIsTaken(cfg, s, st.pipe.w);
      } else {
        step := ClosedMove(cfg, s, st.pipe.w);
      }
    } else {
      assert StopThread(cfg) in s.q.calls ==> Waits(s, StopThread(cfg));
      assert !Closing(s);
      step := CloseFlag;
    }
  }

  /** Nothing more happens, unless a sleeper is woken for no reason. */
  ghost predicate AtRest(cfg: Config, s: State) {
    forall step :: Enabled(cfg, s, step) ==> IsSpurious(step)
  }

  lemma RestIsRest(cfg: Config, s: State)
    requires Linked(cfg, s) && AtRest(cfg, s)
    ensures M.AtRest(cfg, s.m)
  {
    forall st | M.Enabled(cfg, s.m, st) ensures M.IsSpurious(st) {
      if !M.IsSpurious(st) {
        var step := CameraMove(cfg, s, st);
      }
    }
  }

  /** The whole camera: when a run without spurious wakeups has come to rest after the call of
      stop(), stop() has returned exactly if the pool's shutdown() caught no worker between its
      test and its sleep.  The frame queue is never to blame. */
  lemma StopReturnsExactly(cfg: Config, trace: seq<State>, steps: seq<Step>)
    requires Trace(cfg, trace, steps) && Calm(steps)
    requires trace[|steps|].m.p.stop != P.NotCalled && AtRest(cfg, trace[|steps|])
    ensures trace[|steps|].m.p.stop == P.Returned <==> trace[|steps|].m.pool.late == None
  {
    EveryRunIsLinked(cfg, trace, steps, |steps|);
    RestIsRest(cfg, trace[|steps|]);
    var ms, msteps := EveryRunRefines(cfg, trace, steps, |steps|);
    M.StopReturnsExactly(cfg, ms, msteps);
  }

  // ── Stopping comes to rest ──────────────────────────────────────────────────

  lemma {:induction false} SetBelow(s: set<nat>, n: nat)
    requires forall x :: x in s ==> x < n
    ensures |s| <= n
  {
    if n == 0 {
      assert s == {};
    } else {
      SetBelow(s - {n - 1}, n - 1);
      assert n - 1 in s ==> s == (s - {n - 1}) + {n - 1};
    }
  }

  /** Workers that may still go for the lock before they sleep, and the notifications that close()
      owes. */
  function QueueMeasure(cfg: Config, q: Q.State<Frame>): int {
    cfg.workers - |q.cSleep| + (if q.flagged != {} then cfg.workers + 2 else if q.halfway != {} then 1 else 0)
  }

  lemma SleepersAreWorkers(cfg: Config, s: State)
    requires Linked(cfg, s)
    ensures |s.q.cSleep| <= cfg.workers
  {
    forall t | t in s.q.cSleep ensures t < cfg.workers {
      assert Q.Placed(s.q, t);
      assert Waits(s, t);
    }
    SetBelow(s.q.cSleep, cfg.workers);
  }

  /** A worker that goes for the lock in vain is one more asleep. */
  lemma VainTakeCounts(cfg: Config, s: State, step: Step, s': State)
    requires Linked(cfg, s) && Moves(cfg, s, step, s') && step.Take? && Sleeps(s, step)
    ensures QueueMeasure(cfg, s'.q) < QueueMeasure(cfg, s.q)
  {
    var w := step.w;
    assert Q.Placed(s.q, w);
    assert w !in s.q.cSleep;
    assert s'.q.cSleep == s.q.cSleep + {w};
    Q.AddOne(s.q.cSleep, w);
  }

  lemma ConsumersNotified(cfg: Config, s: State, s': State)
    requires CloseInOrder(cfg, s) && Q.Enabled(s.q, Q.CloseNotifyConsumers(StopThread(cfg)))
    requires s'.q == Q.Next(s.q, Q.CloseNotifyConsumers(StopThread(cfg))) && |s.q.cSleep| <= cfg.workers
    ensures QueueMeasure(cfg, s'.q) < QueueMeasure(cfg, s.q)
  {
    assert StopThread(cfg) in s'.q.halfway && s'.q.flagged == {};
  }

  lemma ProducersNotified(cfg: Config, s: State, s': State)
    requires CloseInOrder(cfg, s) && Q.Enabled(s.q, Q.CloseNotifyProducers(StopThread(cfg)))
    requires s'.q == Q.Next(s.q, Q.CloseNotifyProducers(StopThread(cfg)))
    ensures QueueMeasure(cfg, s'.q) < QueueMeasure(cfg, s.q)
  {
    assert StopThread(cfg) in s.q.halfway && s'.q.halfway == {};
  }

  lemma QueueWindsDown(cfg: Config, s: State, step: Step, s': State)
    requires Linked(cfg, s) && Moves(cfg, s, step, s') && !IsSpurious(step) && Projection(s, step).None?
    ensures 0 <= QueueMeasure(cfg, s'.q) < QueueMeasure(cfg, s.q)
  {
    StepKeepsLinked(cfg, s, step, s');
    SleepersAreWorkers(cfg, s);
    SleepersAreWorkers(cfg, s');
    match step
    case Take(w, wake) => VainTakeCounts(cfg, s, step, s');
    case CloseNotifyConsumers => ConsumersNotified(cfg, s, s');
    case CloseNotifyProducers => ProducersNotified(cfg, s, s');
  }

  /** From the call of stop() on every step, spurious wakeups aside, brings the camera closer to
      rest: the pipeline and pool do, or they stand still and the queue does. */
  lemma StoppingWindsDown(cfg: Config, s: State, step: Step, s': State)
    requires Linked(cfg, s) && Moves(cfg, s, step, s') && !s.m.p.running && !IsSpurious(step)
    ensures !s'.m.p.running
    ensures PipelineShutdown.Less(M.StopMeasure(s'.m), M.StopMeasure(s.m))
            || (M.StopMeasure(s'.m) == M.StopMeasure(s.m)
                && 0 <= QueueMeasure(cfg, s'.q) < QueueMeasure(cfg, s.q))
  {
    if Projection(s, step).Some? {
      M.StoppingWindsDown(cfg, s.m, Projection(s, step).value);
    } else {
      QueueWindsDown(cfg, s, step, s');
    }
  }

  // ── And every run of pipeline and pool is one of the camera ─────────────────

  /** Some run without spurious wakeups leads to `s`. */
  ghost predicate Reachable(cfg: Config, s: State) {
    exists trace, steps :: Trace(cfg, trace, steps) && Calm(steps) && trace[|steps|] == s
  }

  lemma Advance(cfg: Config, s: State, step: Step, s': State)
    requires Reachable(cfg, s) && Moves(cfg, s, step, s') && !IsSpurious(step)
    ensures Reachable(cfg, s')
  {
    var trace, steps :| Trace(cfg, trace, steps) && Calm(steps) && trace[|steps|] == s;
    var trace', steps' := trace + [s'], steps + [step];
    forall i {:trigger steps'[i]} | 0 <= i < |steps'|
      ensures Moves(cfg, trace'[i], steps'[i], trace'[i + 1]) && !IsSpurious(steps'[i])
    {
      if i < |steps| {
        assert Moves(cfg, trace[i], steps[i], trace[i + 1]) && !IsSpurious(steps[i]);
      }
    }
    assert Trace(cfg, trace', steps') && Calm(steps') && trace'[|steps'|] == s';
  }

  /** Nobody is in the queue. */
  function Deserted(m: M.State): State {
    State(m, Q.State(m.p.frames, map[], {}, {}, {}, {}, {}, {}))
  }

  lemma InitIsReachable(cfg: Config)
    requires cfg.queueCapacity >= 1
    ensures Reachable(cfg, Deserted(M.Init(cfg)))
  {
    var none: seq<Step> := [];
    assert Deserted(M.Init(cfg)) == Init(cfg);
    assert Trace(cfg, [Init(cfg)], none) && Calm(none) && [Init(cfg)][|none|] == Init(cfg);
  }

  /** close() without anybody to wake. */
  lemma CloseGoesThrough(cfg: Config, m: M.State, m': M.State)
    requires Reachable(cfg, Deserted(m)) && m.p.frames.capacity >= 1
    requires M.Moves(cfg, m, M.PipeStep(P.StopCloseQueue), m')
    ensures Reachable(cfg, Deserted(m'))
  {
    var s, s' := Deserted(m), Deserted(m');
    var s1 := s'.(q := s'.q.(flagged := {StopThread(cfg)}));
    var s2 := s'.(q := s'.q.(halfway := {StopThread(cfg)}));
    assert Reachable(cfg, s1) by {
      assert s1.q == Q.Next(s.q, Q.CloseFlag(StopThread(cfg)));
      Advance(cfg, s, CloseFlag, s1);
    }
    assert Reachable(cfg, s2) by {
      assert s2.q == Q.Next(s1.q, Q.CloseNotifyConsumers(StopThread(cfg)));
      Advance(cfg, s1, CloseNotifyConsumers, s2);
    }
    assert s'.q == Q.Next(s2.q, Q.CloseNotifyProducers(StopThread(cfg)));
    Advance(cfg, s2, CloseNotifyProducers, s');
  }

  lemma StepLifts(cfg: Config, m: M.State, st: M.Step, m': M.State)
    requires Reachable(cfg, Deserted(m)) && M.Linked(cfg, m) && P.FramesSound(m.p)
    requires M.Moves(cfg, m, st, m') && !M.IsSpurious(st)
    ensures Reachable(cfg, Deserted(m'))
  {
    var s, s' := Deserted(m), Deserted(m');
    if !UsesQueue(st) {
      ElsewhereLeavesQueue(cfg, m, st);
      Advance(cfg, s, Elsewhere(st), s');
    } else if st.pipe.StopCloseQueue? {
      CloseGoesThrough(cfg, m, m');
    } else if st.pipe.CapturePush? {
      PassLeavesDeserted(m, Q.Enter(CaptureThread(cfg), Q.PushCall(m.p.capture.frame), None));
      Advance(cfg, s, Push(None), s');
    } else {
      PassLeavesDeserted(m, Q.Enter(st.pipe.w, Q.PopLatestCall, None));
      Advance(cfg, s, Take(st.pipe.w, None), s');
    }
  }

  lemma PassLeavesDeserted(m: M.State, step: Q.Step<Frame>)
    requires Inv(m.p.frames) && step.Enter? && step.wake == None
    requires Q.Outcome(m.p.frames, step.call).0 != Q.Sleeps
    ensures Q.Enabled(Deserted(m).q, step)
    ensures Q.Next(Deserted(m).q, step) == Deserted(m).q.(q := Q.Outcome(m.p.frames, step.call).1)
  {
  }

  lemma RunIsSound(cfg: Config, ms: seq<M.State>, msteps: seq<M.Step>, i: nat)
    requires M.Trace(cfg, ms, msteps) && i < |ms|
    ensures M.Linked(cfg, ms[i]) && P.FramesSound(ms[i].p)
  {
    M.EveryRunIsLinked(cfg, ms, msteps, i);
    var pipe, pipeSteps := M.EveryRunRefinesPipeline(cfg, ms, msteps, i);
    P.EveryRunKeepsFrames(cfg, pipe, pipeSteps, |pipeSteps|);
  }

  lemma {:induction false} RunLifts(cfg: Config, ms: seq<M.State>, msteps: seq<M.Step>, i: nat)
    requires M.Trace(cfg, ms, msteps) && M.Calm(msteps) && i < |ms|
    ensures Reachable(cfg, Deserted(ms[i]))
  {
    if i == 0 {
      InitIsReachable(cfg);
    } else {
      RunLifts(cfg, ms, msteps, i - 1);
      RunIsSound(cfg, ms, msteps, i - 1);
      StepLifts(cfg, ms[i - 1], msteps[i - 1], ms[i]);
    }
  }

  /** Some run without spurious wakeups comes to rest with stop() called and not returned. */
  ghost predicate CanHang(cfg: Config) {
    exists s :: Reachable(cfg, s) && s.m.p.stop !in {P.NotCalled, P.Returned} && AtRest(cfg, s)
  }

  lemma DesertedRests(cfg: Config, m: M.State)
    requires Linked(cfg, Deserted(m)) && M.AtRest(cfg, m) && m.p.frames.closed
    ensures AtRest(cfg, Deserted(m))
  {
    var s := Deserted(m);
    forall step | Enabled(cfg, s, step) ensures IsSpurious(step) {
      Q.OutcomeFacts(s.q.q, Q.PopLatestCall);
      assert !Sleeps(s, step);
      if Projection(s, step).Some? {
        ProjectionIsEnabled(cfg, s, step);
        assert M.IsSpurious(Projection(s, step).value);
      }
    }
  }

  /** A camera, its real queue included, can hang in stop() exactly if it has a worker. */
  lemma StopCanHangExactly(cfg: Config)
    requires cfg.queueCapacity >= 1
    ensures CanHang(cfg) <==> cfg.workers >= 1
  {
    M.StopCanHangExactly(cfg);
    if cfg.workers >= 1 {
      var m :| M.Reachable(cfg, m) && m.p.stop !in {P.NotCalled, P.Returned} && M.AtRest(cfg, m);
      HangLifts(cfg, m);
    } else {
      forall s | Reachable(cfg, s) && AtRest(cfg, s) ensures s.m.p.stop in {P.NotCalled, P.Returned} {
        HangProjects(cfg, s);
      }
    }
  }

  lemma ReachableIsLinked(cfg: Config, s: State)
    requires Reachable(cfg, s)
    ensures Linked(cfg, s)
  {
    var trace, steps :| Trace(cfg, trace, steps) && Calm(steps) && trace[|steps|] == s;
    EveryRunIsLinked(cfg, trace, steps, |steps|);
  }

  lemma RestIsClosed(cfg: Config, m: M.State)
    requires M.Linked(cfg, m) && m.p.stop !in {P.NotCalled, P.Returned} && M.AtRest(cfg, m)
    ensures m.p.frames.closed
  {
    if m.p.stop == P.FlagDown {
      assert M.Enabled(cfg, m, M.PipeStep(P.StopCloseQueue));
    }
  }

  lemma HangLifts(cfg: Config, m: M.State)
    requires M.Reachable(cfg, m) && m.p.stop !in {P.NotCalled, P.Returned} && M.AtRest(cfg, m)
    ensures Reachable(cfg, Deserted(m)) && AtRest(cfg, Deserted(m))
  {
    var ms, msteps :| M.Trace(cfg, ms, msteps) && M.Calm(msteps) && ms[|msteps|] == m;
    RunLifts(cfg, ms, msteps, |msteps|);
    ReachableIsLinked(cfg, Deserted(m));
    RestIsClosed(cfg, m);
    DesertedRests(cfg, m);
  }

  lemma HangProjects(cfg: Config, s: State)
    requires Reachable(cfg, s) && AtRest(cfg, s)
    ensures M.Reachable(cfg, s.m) && M.AtRest(cfg, s.m)
  {
    var trace, steps :| Trace(cfg, trace, steps) && Calm(steps) && trace[|steps|] == s;
    EveryRunIsLinked(cfg, trace, steps, |steps|);
    RestIsRest(cfg, s);
    var ms, msteps := EveryRunRefines(cfg, trace, steps, |steps|);
    assert M.Trace(cfg, ms, msteps) && M.Calm(msteps) && ms[|msteps|] == s.m;
  }
}
