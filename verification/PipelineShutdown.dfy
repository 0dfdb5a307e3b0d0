/** Stopping a pipeline: order and bounded work, whatever the interleaving. */
module PipelineShutdown {
  import opened Domain
  import opened InferenceWorker
  import opened Pipeline
  import opened QueueLog
  import opened Wrappers

  ghost predicate InSource(c: Capture) {
    c in {FirstOpen, TestOpen, Reopen, Read, CloseIt}
  }

  ghost predicate ShutdownSound(s: State) {
    && (s.running <==> s.stop == NotCalled)
    && (s.frames.closed <==> s.stop !in {NotCalled, FlagDown})
    && (s.stop in {CaptureJoined, InSourceClose, Returned} ==> s.capture == Ended)
    && (s.stop in {InSourceClose, Returned} ==> forall w :: 0 <= w < |s.workers| ==> s.workers[w].pc == Done)
    && (s.capture == Ended ==> !s.running)
    && forall w :: 0 <= w < |s.workers| ==> WorkerSound(s, s.workers[w])
  }

  ghost predicate WorkerSound(s: State, worker: Thread) {
    worker.pc == Done ==> !s.running
  }

  lemma WorkerMoveKeepsShutdown(s: State, s': State, w: nat)
    requires ShutdownSound(s) && At(s, w) && s.workers[w].pc != Done
    requires s'.running == s.running && s'.stop == s.stop && s'.capture == s.capture
    requires s'.frames.closed == s.frames.closed
    requires |s'.workers| == |s.workers| && WorkerSound(s', s'.workers[w])
    requires forall v :: 0 <= v < |s.workers| && v != w ==> s'.workers[v] == s.workers[v]
    ensures ShutdownSound(s')
  {
    forall v | 0 <= v < |s'.workers| ensures WorkerSound(s', s'.workers[v]) {
      assert WorkerSound(s, s.workers[v]);
    }
  }

  lemma OtherMoveKeepsShutdown(s: State, s': State)
    requires ShutdownSound(s) && s'.workers == s.workers
    requires s'.running == s.running || (s.running && !s'.running)
    requires s'.running <==> s'.stop == NotCalled
    requires s'.frames.closed <==> s'.stop !in {NotCalled, FlagDown}
    requires s'.stop in {CaptureJoined, InSourceClose, Returned} ==> s'.capture == Ended
    requires s'.stop in {InSourceClose, Returned} ==> forall w :: 0 <= w < |s.workers| ==> s.workers[w].pc == Done
    requires s'.capture == Ended ==> !s'.running
    ensures ShutdownSound(s')
  {
    forall v | 0 <= v < |s'.workers| ensures WorkerSound(s', s'.workers[v]) {
      assert WorkerSound(s, s.workers[v]);
    }
  }

  lemma ClosedIsOnlySetByClose(q: Log<Frame>, f: Frame)
    requires q.capacity >= 1
    ensures Push(q, f).1.closed == q.closed && PopLatest(q).1.closed == q.closed
  {
  }

  ghost predicate IsWorkerStep(step: Step) {
    step.WorkerStart? || step.WorkerCheck? || step.WorkerTake? || step.WorkerInfer? || step.WorkerAlert?
  }

  /** A worker's step changes that worker, the queue's contents and the alert history only. */
  lemma WorkerStepFrame(cfg: Config, s: State, step: Step)
    requires s.frames.capacity >= 1 && Enabled(s, step) && IsWorkerStep(step)
    ensures At(s, step.w) && s.workers[step.w].pc != Done
    ensures var s' := Next(cfg, s, step);
      && s' == s.(frames := s'.frames, workers := s'.workers, raws := s'.raws, published := s'.published)
      && s'.frames.closed == s.frames.closed && s'.frames.capacity == s.frames.capacity
      && s'.workers == s.workers[step.w := s'.workers[step.w]]
  {
  }

  lemma WorkerStepSound(cfg: Config, s: State, step: Step)
    requires s.frames.capacity >= 1 && Enabled(s, step) && IsWorkerStep(step)
    requires At(s, step.w) && WorkerSound(s, s.workers[step.w])
    requires s.running ==> !s.frames.closed
    ensures At(Next(cfg, s, step), step.w) && WorkerSound(Next(cfg, s, step), Next(cfg, s, step).workers[step.w])
  {
  }

  lemma StepKeepsShutdown(cfg: Config, s: State, step: Step)
    requires s.frames.capacity >= 1
    requires ShutdownSound(s) && Enabled(s, step)
    ensures ShutdownSound(Next(cfg, s, step))
  {
    if IsWorkerStep(step) {
      WorkerStepFrame(cfg, s, step);
      assert WorkerSound(s, s.workers[step.w]);
      WorkerStepSound(cfg, s, step);
      WorkerMoveKeepsShutdown(s, Next(cfg, s, step), step.w);
    } else {
      if s.capture.PushIt? {
        ClosedIsOnlySetByClose(s.frames, s.capture.frame);
      }
      OtherMoveKeepsShutdown(s, Next(cfg, s, step));
    }
  }

  lemma {:induction false} EveryRunShutsDownSoundly(cfg: Config, trace: seq<State>, steps: seq<Step>, i: nat)
    requires Trace(cfg, trace, steps) && i < |trace|
    ensures ShutdownSound(trace[i])
  {
    if i > 0 {
      EveryRunShutsDownSoundly(cfg, trace, steps, i - 1);
      StepKeepsShutdown(cfg, trace[i - 1], steps[i - 1]);
    }
  }

  // ── What still happens after stop() has been called ─────────────────────────

  /** Where the capture thread can be after a push that running_ being false has not stopped. */
  ghost predicate PastPush(s: State) {
    !s.running && s.capture in {CheckRunning, Ended}
  }

  ghost predicate PastTake(s: State, w: nat) {
    !s.running && At(s, w) && s.workers[w].pc != NotStarted && s.workers[w].pc != Taking
  }

  lemma StepKeepsPast(cfg: Config, s: State, step: Step, w: nat)
    requires s.frames.capacity >= 1 && Enabled(s, step) && !s.running
    ensures !Next(cfg, s, step).running
    ensures PastPush(s) || step == CapturePush ==> PastPush(Next(cfg, s, step))
    ensures PastTake(s, w) || step == WorkerTake(w) ==> PastTake(Next(cfg, s, step), w)
  {
    if IsWorkerStep(step) {
      WorkerStepFrame(cfg, s, step);
    }
  }

  lemma {:induction false} NotRunningAfterStop(cfg: Config, trace: seq<State>, steps: seq<Step>, h: nat, i: nat)
    requires Trace(cfg, trace, steps) && h < i < |trace| && steps[h] == StopCall
    ensures !trace[i].running
  {
    assert Moves(cfg, trace[i - 1], steps[i - 1], trace[i]);
    if i > h + 1 {
      NotRunningAfterStop(cfg, trace, steps, h, i - 1);
      StepKeepsPast(cfg, trace[i - 1], steps[i - 1], 0);
    }
  }

  lemma {:induction false} PastStays(cfg: Config, trace: seq<State>, steps: seq<Step>, j: nat, i: nat, w: nat)
    requires Trace(cfg, trace, steps) && j < i < |trace| && !trace[j].running
    ensures !trace[i].running
    ensures steps[j] == CapturePush ==> PastPush(trace[i])
    ensures steps[j] == WorkerTake(w) ==> PastTake(trace[i], w)
  {
    assert Moves(cfg, trace[i - 1], steps[i - 1], trace[i]);
    if i > j + 1 {
      PastStays(cfg, trace, steps, j, i - 1, w);
    }
    StepKeepsPast(cfg, trace[i - 1], steps[i - 1], w);
  }

  /** Two pushes, or two visits of one worker to the queue. */
  predicate Repeats(first: Step, second: Step) {
    (first == CapturePush && second == CapturePush) || (first.WorkerTake? && second == first)
  }

  lemma OnceAfterStop(cfg: Config, trace: seq<State>, steps: seq<Step>, h: nat, j: nat, k: nat)
    requires Trace(cfg, trace, steps) && h < j < k < |steps| && steps[h] == StopCall
    ensures !Repeats(steps[j], steps[k])
  {
    NotRunningAfterStop(cfg, trace, steps, h, j);
    PastStays(cfg, trace, steps, j, k, if steps[j].WorkerTake? then steps[j].w else 0);
    assert Moves(cfg, trace[k], steps[k], trace[k + 1]);
  }

  /** At every moment the stopping thread and the capture thread are not both inside a call on the
      source; after the call of stop() each worker goes to the queue at most once more and the
      capture thread pushes at most once more. */
  lemma ShutdownIsOrderly(cfg: Config, trace: seq<State>, steps: seq<Step>, i: nat)
    requires Trace(cfg, trace, steps) && i < |trace|
    ensures trace[i].stop == InSourceClose ==> !InSource(trace[i].capture) && trace[i].capture == Ended
    ensures forall h: nat, j: nat, k: nat {:trigger steps[h], steps[j], steps[k]} ::
              h < j < k < |steps| && steps[h] == StopCall ==> !Repeats(steps[j], steps[k])
  {
    EveryRunShutsDownSoundly(cfg, trace, steps, i);
    forall h: nat, j: nat, k: nat {:trigger steps[h], steps[j], steps[k]} | h < j < k < |steps| && steps[h] == StopCall
      ensures !Repeats(steps[j], steps[k])
    {
      OnceAfterStop(cfg, trace, steps, h, j, k);
    }
  }

  /** How far a thread is from the end of its loop once running_ is false. */
  function CaptureRank(c: Capture): nat {
    match c
    case Ended => 0
    case CheckRunning => 1
    case CloseIt => 2
    case PushIt(_) => 2
    case FirstOpen => 2
    case Reopen => 2
    case Read => 3
    case Backoff => 3
    case TestOpen => 4
  }

  function WorkerRank(pc: WorkerPc): (nat, nat) {
    match pc
    case Done => (0, 0)
    case AtTop => (1, 0)
    case NotStarted => (2, 0)
    case Alerting(todo) => (2, |todo|)
    case Holding(_) => (3, 0)
    case Taking => (4, 0)
  }

  function StopRank(stop: Stop): nat {
    match stop
    case NotCalled => 5
    case FlagDown => 4
    case QueueClosed => 3
    case CaptureJoined => 2
    case InSourceClose => 1
    case Returned => 0
  }

  ghost predicate Less(a: (nat, nat), b: (nat, nat)) {
    a.0 < b.0 || (a.0 == b.0 && a.1 < b.1)
  }

  function SumRanks(ws: seq<Thread>): (nat, nat) {
    if ws == [] then (0, 0)
    else
      var (stage, alerts) := SumRanks(ws[..|ws| - 1]);
      var last := WorkerRank(ws[|ws| - 1].pc);
      (stage + last.0, alerts + last.1)
  }

  /** All threads together: first the stages, then the alerts still to be looked at. */
  function Measure(s: State): (nat, nat) {
    var (stage, alerts) := SumRanks(s.workers);
    (stage + CaptureRank(s.capture) + StopRank(s.stop), alerts)
  }

  lemma {:induction false} SumRanksUpdate(ws: seq<Thread>, w: nat, x: Thread)
    requires w < |ws|
    ensures SumRanks(ws[w := x]).0 + WorkerRank(ws[w].pc).0 == SumRanks(ws).0 + WorkerRank(x.pc).0
    ensures SumRanks(ws[w := x]).1 + WorkerRank(ws[w].pc).1 == SumRanks(ws).1 + WorkerRank(x.pc).1
  {
    var n := |ws| - 1;
    if w < n {
      SumRanksUpdate(ws[..n], w, x);
      assert ws[w := x][..n] == ws[..n][w := x];
    } else {
      assert ws[w := x][..n] == ws[..n];
    }
  }

  lemma WorkerStepWindsDown(cfg: Config, s: State, step: Step)
    requires s.frames.capacity >= 1 && Enabled(s, step) && IsWorkerStep(step) && !s.running
    ensures At(s, step.w) && At(Next(cfg, s, step), step.w)
    ensures Less(WorkerRank(Next(cfg, s, step).workers[step.w].pc), WorkerRank(s.workers[step.w].pc))
  {
  }

  lemma OtherStepWindsDown(cfg: Config, s: State, step: Step)
    requires s.frames.capacity >= 1 && Enabled(s, step) && !IsWorkerStep(step) && !s.running
    ensures var s' := Next(cfg, s, step);
      s'.workers == s.workers && CaptureRank(s'.capture) + StopRank(s'.stop) < CaptureRank(s.capture) + StopRank(s.stop)
  {
  }

  /** Once running_ is false every step of every thread brings the whole pipeline closer to its
      end, whatever the interleaving, so no run goes on for ever. */
  lemma ShutdownOnlyWindsDown(cfg: Config, s: State, step: Step)
    requires s.frames.capacity >= 1
    requires !s.running && Enabled(s, step)
    ensures !Next(cfg, s, step).running
    ensures Less(Measure(Next(cfg, s, step)), Measure(s))
  {
    if IsWorkerStep(step) {
      WorkerStepFrame(cfg, s, step);
      WorkerStepWindsDown(cfg, s, step);
      SumRanksUpdate(s.workers, step.w, Next(cfg, s, step).workers[step.w]);
    } else {
      OtherStepWindsDown(cfg, s, step);
    }
  }

  ghost predicate IsCaptureStep(step: Step) {
    || step.CaptureOpened? || step.CaptureCheck? || step.CaptureTest? || step.CaptureSlept?
    || step.CaptureReadDone? || step.CaptureClosed? || step.CapturePush?
  }

  /** Neither kind of thread is ever stuck inside its loop. */
  lemma CaptureCanMove(s: State)
    requires s.capture != Ended
    ensures exists step :: Enabled(s, step) && IsCaptureStep(step)
  {
    var step := match s.capture
      case FirstOpen => CaptureOpened(true)
      case Reopen => CaptureOpened(true)
      case CheckRunning => CaptureCheck
      case TestOpen => CaptureTest
      case Backoff => CaptureSlept
      case Read => CaptureReadDone(true)
      case CloseIt => CaptureClosed
      case PushIt(_) => CapturePush;
    assert Enabled(s, step) && IsCaptureStep(step);
  }

  lemma WorkerCanMove(s: State, w: nat)
    requires At(s, w) && s.workers[w].pc != Done && s.frames.closed
    ensures exists step :: Enabled(s, step) && IsWorkerStep(step) && step.w == w
  {
    var step := match s.workers[w].pc
      case NotStarted => WorkerStart(w)
      case AtTop => WorkerCheck(w)
      case Taking => WorkerTake(w)
      case Holding(_) => WorkerInfer(w, None, 0)
      case Alerting(_) => WorkerAlert(w);
    assert Enabled(s, step) && IsWorkerStep(step) && step.w == w;
  }
}
