/**
  One camera's pipeline: a capture thread, a bounded frame queue, a pool of inference workers
  that publish alerts through their own cooldown map, and stop().  A step is one thread's
  passage through one line of its loop; threads interleave freely.
 */
module Pipeline {
  import opened Cooldown
  import opened Domain
  import opened InferenceWorker
  import opened QueueLog
  import opened RiskDetection
  import opened Wrappers

  /** Where the capture thread is.  In `FirstOpen`, `Reopen`, `TestOpen`, `Read` and `CloseIt` it
      is inside a call on the source. */
  datatype Capture = FirstOpen | CheckRunning | TestOpen | Backoff | Reopen | Read | CloseIt | PushIt(frame: Frame) | Ended

  /** Where a worker is; `NotStarted` is its loop still queued in the thread pool. */
  datatype WorkerPc = NotStarted | AtTop | Taking | Holding(frame: Frame) | Alerting(todo: seq<Alert>) | Done

  datatype Thread = Thread(pc: WorkerPc, last: map<int, int>)

  /** The stop() call that wins the compare-exchange. */
  datatype Stop = NotCalled | FlagDown | QueueClosed | CaptureJoined | InSourceClose | Returned

  datatype Published = Published(worker: nat, alert: Alert)

  datatype State = State(
    running: bool,
    frames: Log<Frame>,
    sourceOpen: bool,
    sequence: nat,
    capture: Capture,
    workers: seq<Thread>,
    stop: Stop,
    raws: seq<PoolRaw>,            // every raw alert, with the worker that raised it
    published: seq<Published>)

  datatype Step =
    | CaptureOpened(ok: bool)
    | CaptureCheck
    | CaptureTest
    | CaptureSlept
    | CaptureReadDone(ok: bool)
    | CaptureClosed
    | CapturePush
    | WorkerStart(w: nat)
    | WorkerCheck(w: nat)
    | WorkerTake(w: nat)
    | WorkerInfer(w: nat, result: Option<seq<Detection>>, ts: int)
    | WorkerAlert(w: nat)
    | StopCall
    | StopCloseQueue
    | StopJoinCapture
    | StopJoinPool
    | StopSourceClosed

  function Init(cfg: Config): State {
    State(true, New(cfg.queueCapacity, DropOldestWhenFull), false, 0, FirstOpen,
          seq(cfg.workers, _ => Thread(NotStarted, map[])), NotCalled, [], [])
  }

  predicate At(s: State, w: nat) {
    w < |s.workers|
  }

  ghost predicate Enabled(s: State, step: Step) {
    match step
    case CaptureOpened(ok) => s.capture in {FirstOpen, Reopen}
    case CaptureCheck => s.capture == CheckRunning
    case CaptureTest => s.capture == TestOpen
    case CaptureSlept => s.capture == Backoff
    case CaptureReadDone(ok) => s.capture == Read
    case CaptureClosed => s.capture == CloseIt
    case CapturePush => s.capture.PushIt?
    case WorkerStart(w) => At(s, w) && s.workers[w].pc == NotStarted
    case WorkerCheck(w) => At(s, w) && s.workers[w].pc == AtTop
    case WorkerTake(w) => At(s, w) && s.workers[w].pc == Taking && !PopLatest(s.frames).0.MustSleep?
    case WorkerInfer(w, result, ts) => At(s, w) && s.workers[w].pc.Holding?
    case WorkerAlert(w) => At(s, w) && s.workers[w].pc.Alerting?
    case StopCall => s.stop == NotCalled && s.running
    case StopCloseQueue => s.stop == FlagDown
    case StopJoinCapture => s.stop == QueueClosed && s.capture == Ended
    case StopJoinPool => s.stop == CaptureJoined && forall w :: 0 <= w < |s.workers| ==> s.workers[w].pc == Done
    case StopSourceClosed => s.stop == InSourceClose
  }

  function Move(s: State, w: nat, pc: WorkerPc): State
    requires At(s, w)
  {
    s.(workers := s.workers[w := s.workers[w].(pc := pc)])
  }

  function Take(s: State, w: nat): State
    requires At(s, w)
  {
    match PopLatest(s.frames)
    case (Got(frame), q) =>
      s.(frames := q, workers := s.workers[w := s.workers[w].(pc := if frame.empty then AtTop else Holding(frame))])
    case (_, q) => Move(s, w, Done)
  }

  /** One turn of the loop over the frame's alerts. */
  function AlertTurn(cfg: Config, s: State, w: nat): State
    requires At(s, w) && s.workers[w].pc.Alerting?
  {
    var todo, last := s.workers[w].pc.todo, s.workers[w].last;
    if todo == [] then Move(s, w, AtTop)
    else
      var a := todo[0];
      var s' := s.(raws := s.raws + [Raw((w, a.forkliftTrackId), a.timestamp)]);
      if Suppressed(last, a.forkliftTrackId, a.timestamp, cfg.cooldownMs) then Move(s', w, Alerting(todo[1..]))
      else
        s'.(published := s.published + [Published(w, a)],
            workers := s.workers[w := s.workers[w].(pc := Alerting(todo[1..]),
                                                    last := last[a.forkliftTrackId := a.timestamp])])
  }

  function Next(cfg: Config, s: State, step: Step): State
    requires s.frames.capacity >= 1
    requires Enabled(s, step)
  {
    match step
    case CaptureOpened(ok) => s.(sourceOpen := ok, capture := CheckRunning)
    case CaptureCheck => s.(capture := if s.running then TestOpen else Ended)
    case CaptureTest => s.(capture := if s.sourceOpen then Read else Backoff)
    case CaptureSlept => s.(capture := Reopen)
    case CaptureReadDone(ok) =>
      if ok then s.(sequence := s.sequence + 1, capture := PushIt(Frame(s.sequence + 1, false)))
      else s.(capture := CloseIt)
    case CaptureClosed => s.(sourceOpen := false, capture := CheckRunning)
    case CapturePush =>
      s.(frames := Push(s.frames, s.capture.frame).1, capture := CheckRunning)
    case WorkerStart(w) => Move(s, w, AtTop)
    case WorkerCheck(w) => Move(s, w, if s.running then Taking else Done)
    case WorkerTake(w) => Take(s, w)
    case WorkerInfer(w, result, ts) =>
      (match result
       case None => Move(s, w, AtTop)
       case Some(ds) => Move(s, w, Alerting(Alerts(cfg.zones, cfg.camera, ds, ts))))
    case WorkerAlert(w) => AlertTurn(cfg, s, w)
    case StopCall => s.(running := false, stop := FlagDown)
    case StopCloseQueue => s.(frames := Close(s.frames), stop := QueueClosed)
    case StopJoinCapture => s.(stop := CaptureJoined)
    case StopJoinPool => s.(stop := InSourceClose)
    case StopSourceClosed => s.(sourceOpen := false, stop := Returned)
  }

  ghost predicate Moves(cfg: Config, s: State, step: Step, s': State) {
    s.frames.capacity >= 1 && Enabled(s, step) && s' == Next(cfg, s, step)
  }

  ghost predicate Trace(cfg: Config, trace: seq<State>, steps: seq<Step>) {
    && cfg.queueCapacity >= 1
    && |trace| == |steps| + 1
    && trace[0] == Init(cfg)
    && forall i {:trigger steps[i]} :: 0 <= i < |steps| ==> Moves(cfg, trace[i], steps[i], trace[i + 1])
  }

  lemma TraceExtends(cfg: Config, trace: seq<State>, steps: seq<Step>, step: Step, s: State)
    requires Trace(cfg, trace, steps) && Moves(cfg, trace[|steps|], step, s)
    ensures Trace(cfg, trace + [s], steps + [step])
  {
    var trace', steps' := trace + [s], steps + [step];
    forall i {:trigger steps'[i]} | 0 <= i < |steps'| ensures Moves(cfg, trace'[i], steps'[i], trace'[i + 1]) {
      if i < |steps| {
        assert Moves(cfg, trace[i], steps[i], trace[i + 1]);
      }
    }
  }

  /** Some run leads to `s`. */
  ghost predicate Reachable(cfg: Config, s: State) {
    exists trace, steps :: Trace(cfg, trace, steps) && trace[|steps|] == s
  }

  lemma InitIsReachable(cfg: Config)
    requires cfg.queueCapacity >= 1
    ensures Reachable(cfg, Init(cfg))
  {
    var none: seq<Step> := [];
    assert Trace(cfg, [Init(cfg)], none) && [Init(cfg)][|none|] == Init(cfg);
  }

  lemma Advance(cfg: Config, s: State, step: Step, s': State)
    requires Reachable(cfg, s) && s.frames.capacity >= 1
    requires Enabled(s, step) && s' == Next(cfg, s, step)
    ensures Reachable(cfg, s')
  {
    var trace, steps :| Trace(cfg, trace, steps) && trace[|steps|] == s;
    TraceExtends(cfg, trace, steps, step, s');
    assert (trace + [s'])[|steps + [step]|] == s';
  }

  // ── Frames: drop accounting by sequence number ──────────────────────────────

  /** Frames were accepted in the order 1, 2, 3, ..., and every hand-out was the newest. */
  ghost predicate FramesSound(s: State) {
    && Inv(s.frames)
    && s.frames.policy == DropOldestWhenFull
    && (forall i :: 0 <= i < |s.frames.accepted| ==> s.frames.accepted[i].sequence == i + 1)
    && s.sequence == |s.frames.accepted| + (if s.capture.PushIt? then 1 else 0)
    && (s.capture.PushIt? ==> s.capture.frame.sequence == s.sequence)
    && (forall k :: 0 <= k < |s.frames.taken| ==> s.frames.taken[k].index + 1 == s.frames.taken[k].accepted)
  }

  lemma PushKeepsFrames(cfg: Config, s: State)
    requires FramesSound(s) && Enabled(s, CapturePush)
    ensures FramesSound(Next(cfg, s, CapturePush))
  {
    PushKeeps(s.frames, s.capture.frame);
    var q := Push(s.frames, s.capture.frame).1;
    assert q.taken == s.frames.taken && q.accepted == s.frames.accepted + [s.capture.frame];
  }

  lemma TakeKeepsFrames(cfg: Config, s: State, w: nat)
    requires FramesSound(s) && Enabled(s, WorkerTake(w))
    ensures FramesSound(Next(cfg, s, WorkerTake(w)))
  {
    PopLatestTakesNewest(s.frames);
    var q := PopLatest(s.frames).1;
    assert q.accepted == s.frames.accepted;
  }

  lemma SameFramesKeeps(s: State, s': State)
    requires FramesSound(s)
    requires s'.frames == s.frames.(closed := s'.frames.closed) && s'.sequence == s.sequence
    requires s'.capture == s.capture || (!s'.capture.PushIt? && !s.capture.PushIt?)
    ensures FramesSound(s')
  {
  }

  ghost predicate MovesFrames(step: Step) {
    step.CapturePush? || step.WorkerTake? || step.CaptureReadDone?
  }

  /** All other steps leave the queue's contents, the numbering and a frame in hand alone. */
  lemma OtherStepLeavesFrames(cfg: Config, s: State, step: Step)
    requires s.frames.capacity >= 1 && Enabled(s, step) && !MovesFrames(step)
    ensures var s' := Next(cfg, s, step);
      && s'.frames == s.frames.(closed := s'.frames.closed) && s'.sequence == s.sequence
      && (s'.capture == s.capture || (!s'.capture.PushIt? && !s.capture.PushIt?))
  {
    match step
    case CaptureOpened(ok) =>
    case CaptureCheck =>
    case CaptureTest =>
    case CaptureSlept =>
    case CaptureClosed =>
    case WorkerAlert(w) => AlertTurnLeavesFrames(cfg, s, w);
    case WorkerStart(w) =>
    case WorkerCheck(w) =>
    case WorkerInfer(w, result, ts) =>
    case StopCall =>
    case StopCloseQueue =>
    case StopJoinCapture =>
    case StopJoinPool =>
    case StopSourceClosed =>
  }

  lemma AlertTurnLeavesFrames(cfg: Config, s: State, w: nat)
    requires At(s, w) && s.workers[w].pc.Alerting?
    ensures var s' := AlertTurn(cfg, s, w);
      s'.frames == s.frames && s'.sequence == s.sequence && s'.capture == s.capture
  {
  }

  lemma StepKeepsFrames(cfg: Config, s: State, step: Step)
    requires FramesSound(s) && Enabled(s, step)
    ensures FramesSound(Next(cfg, s, step))
  {
    match step
    case CapturePush => PushKeepsFrames(cfg, s);
    case WorkerTake(w) => TakeKeepsFrames(cfg, s, w);
    case CaptureReadDone(ok) =>
    case _ =>
      OtherStepLeavesFrames(cfg, s, step);
      SameFramesKeeps(s, Next(cfg, s, step));
  }

  lemma {:induction false} EveryRunKeepsFrames(cfg: Config, trace: seq<State>, steps: seq<Step>, i: nat)
    requires Trace(cfg, trace, steps) && i < |trace|
    ensures FramesSound(trace[i])
  {
    if i > 0 {
      EveryRunKeepsFrames(cfg, trace, steps, i - 1);
      StepKeepsFrames(cfg, trace[i - 1], steps[i - 1]);
    }
  }

  /** In every run a worker that takes gets the newest frame pushed so far into its hands, unless
      its image is empty; with nothing queued the loop ends. */
  lemma WorkerGetsNewest(cfg: Config, trace: seq<State>, steps: seq<Step>, i: nat, w: nat)
    requires Trace(cfg, trace, steps) && i < |steps| && steps[i] == WorkerTake(w)
    ensures w < |trace[i].workers| == |trace[i + 1].workers|
    ensures var q := trace[i].frames;
      if q.items == [] then trace[i + 1].workers[w].pc == Done
      else
        && |q.accepted| > 0
        && var newest := q.accepted[|q.accepted| - 1];
           trace[i + 1].workers[w].pc == if newest.empty then AtTop else Holding(newest)
  {
    EveryRunKeepsFrames(cfg, trace, steps, i);
    assert Moves(cfg, trace[i], steps[i], trace[i + 1]);
    PopLatestTakesNewest(trace[i].frames);
  }

  function SequenceOf(s: State, k: nat): nat
    requires k < |s.frames.taken| && s.frames.taken[k].index < |s.frames.accepted|
  {
    s.frames.accepted[s.frames.taken[k].index].sequence
  }

  /** Across reconnects and for any number of workers, the k-th frame handed to a worker has
      sequence number k plus dropped() at that moment (counting from 1); it is the newest frame
      pushed so far, so the numbers workers see strictly increase. */
  lemma DropAccounting(cfg: Config, trace: seq<State>, steps: seq<Step>, i: nat)
    requires Trace(cfg, trace, steps) && i < |trace|
    ensures var s := trace[i];
      && (forall k :: 0 <= k < |s.frames.taken| ==>
            && s.frames.taken[k].index < |s.frames.accepted|
            && SequenceOf(s, k) == (k + 1) + s.frames.taken[k].dropped
            && SequenceOf(s, k) == s.frames.taken[k].accepted)
      && (forall j, k :: 0 <= j < k < |s.frames.taken| ==>
            && s.frames.taken[j].index < |s.frames.accepted| && s.frames.taken[k].index < |s.frames.accepted|
            && SequenceOf(s, j) < SequenceOf(s, k))
      && |s.frames.accepted| == |s.frames.taken| + s.frames.dropped + |s.frames.items|
  {
    EveryRunKeepsFrames(cfg, trace, steps, i);
  }
}
