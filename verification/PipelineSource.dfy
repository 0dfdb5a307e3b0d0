/**
  The capture thread and its source over whole runs: what is read is read from an open source, a
  failed read closes the source, and it is read again only after it has been reopened.
 */
module PipelineSource {
  import opened Domain
  import opened InferenceWorker
  import opened Pipeline
  import opened PipelineShutdown

  // ── Whether the source is open ──────────────────────────────────────────────

  /** The steps that open or close the source. */
  predicate SetsSource(step: Step) {
    step.CaptureOpened? || step.CaptureClosed? || step.StopSourceClosed?
  }

  /** Step `k` is the last before moment `i` that opened or closed the source. */
  ghost predicate LastSet(steps: seq<Step>, k: int, i: nat)
    requires i <= |steps|
  {
    && 0 <= k < i && SetsSource(steps[k])
    && forall m {:trigger steps[m]} :: k < m < i ==> !SetsSource(steps[m])
  }

  ghost predicate OpenedLast(steps: seq<Step>, i: nat)
    requires i <= |steps|
  {
    exists k :: LastSet(steps, k, i) && steps[k] == CaptureOpened(true)
  }

  lemma OpenedLastStep(steps: seq<Step>, i: nat)
    requires 0 < i <= |steps|
    ensures OpenedLast(steps, i)
            <==> steps[i - 1] == CaptureOpened(true) || (!SetsSource(steps[i - 1]) && OpenedLast(steps, i - 1))
  {
    if steps[i - 1] == CaptureOpened(true) {
      assert LastSet(steps, i - 1, i);
    } else if !SetsSource(steps[i - 1]) && OpenedLast(steps, i - 1) {
      var k :| LastSet(steps, k, i - 1) && steps[k] == CaptureOpened(true);
      assert LastSet(steps, k, i);
    }
  }

  lemma StepSetsSource(cfg: Config, s: State, step: Step)
    requires s.frames.capacity >= 1 && Enabled(s, step)
    ensures Next(cfg, s, step).sourceOpen
            <==> step == CaptureOpened(true) || (!SetsSource(step) && s.sourceOpen)
  {
    if IsWorkerStep(step) {
      WorkerStepFrame(cfg, s, step);
    }
  }

  /** In every run the source is open exactly if the last call that opened or closed it was an
      open() that succeeded. */
  lemma {:induction false} SourceOpenExactly(cfg: Config, trace: seq<State>, steps: seq<Step>, i: nat)
    requires Trace(cfg, trace, steps) && i < |trace|
    ensures trace[i].sourceOpen <==> OpenedLast(steps, i)
  {
    if i > 0 {
      SourceOpenExactly(cfg, trace, steps, i - 1);
      StepSetsSource(cfg, trace[i - 1], steps[i - 1]);
      OpenedLastStep(steps, i);
    }
  }

  // ── What the capture loop keeps ─────────────────────────────────────────────

  ghost predicate SourceSound(s: State) {
    && (s.capture in {Read, CloseIt} || s.capture.PushIt? ==> s.sourceOpen)
    && (s.capture in {FirstOpen, Backoff, Reopen} ==> !s.sourceOpen)
    && (s.stop == Returned ==> !s.sourceOpen)
  }

  lemma StepKeepsSource(cfg: Config, s: State, step: Step)
    requires s.frames.capacity >= 1
    requires SourceSound(s) && ShutdownSound(s) && Enabled(s, step)
    ensures SourceSound(Next(cfg, s, step))
  {
    if IsWorkerStep(step) {
      WorkerStepFrame(cfg, s, step);
    }
  }

  /** In every run: what is read, closed after a failed read or pushed comes from an open source,
      open() is only called on a closed one, and once stop() has returned the source is closed. */
  lemma {:induction false} EveryRunKeepsSource(cfg: Config, trace: seq<State>, steps: seq<Step>, i: nat)
    requires Trace(cfg, trace, steps) && i < |trace|
    ensures SourceSound(trace[i])
  {
    if i > 0 {
      EveryRunKeepsSource(cfg, trace, steps, i - 1);
      EveryRunShutsDownSoundly(cfg, trace, steps, i - 1);
      StepKeepsSource(cfg, trace[i - 1], steps[i - 1]);
    }
  }

  // ── Reconnecting ────────────────────────────────────────────────────────────

  /** On the way from a failed read to the next successful open(), or at its end. */
  ghost predicate Disconnected(s: State) {
    || s.capture == CloseIt || s.capture == Ended
    || (s.capture in {CheckRunning, TestOpen, Backoff, Reopen} && !s.sourceOpen)
  }

  lemma StepKeepsDisconnected(cfg: Config, s: State, step: Step)
    requires s.frames.capacity >= 1 && Enabled(s, step)
    requires Disconnected(s) && step != CaptureOpened(true)
    ensures Disconnected(Next(cfg, s, step)) && Next(cfg, s, step).sequence == s.sequence
  {
    if IsWorkerStep(step) {
      WorkerStepFrame(cfg, s, step);
    }
  }

  /** After a failed read no frame is read or pushed until open() has succeeded again. */
  lemma {:induction false} NoReadUntilReopened(cfg: Config, trace: seq<State>, steps: seq<Step>, r: nat, i: nat)
    requires Trace(cfg, trace, steps) && r < i < |trace| && steps[r] == CaptureReadDone(false)
    requires forall k {:trigger steps[k]} :: r < k < i ==> steps[k] != CaptureOpened(true)
    ensures Disconnected(trace[i])
    ensures trace[i].capture != Read && !trace[i].capture.PushIt? && trace[i].sequence == trace[r].sequence
  {
    assert Moves(cfg, trace[i - 1], steps[i - 1], trace[i]);
    if i > r + 1 {
      NoReadUntilReopened(cfg, trace, steps, r, i - 1);
      StepKeepsDisconnected(cfg, trace[i - 1], steps[i - 1]);
    }
  }

  /** The way out of the failed read: the source is closed before it is asked whether it is open. */
  lemma {:induction false} ClosedBeforeNextTest(cfg: Config, trace: seq<State>, steps: seq<Step>, r: nat, i: nat)
    requires Trace(cfg, trace, steps) && r < i < |trace| && steps[r] == CaptureReadDone(false)
    ensures trace[i].capture == CloseIt || exists k :: r < k < i && steps[k] == CaptureClosed
  {
    assert Moves(cfg, trace[i - 1], steps[i - 1], trace[i]);
    if i > r + 1 {
      ClosedBeforeNextTest(cfg, trace, steps, r, i - 1);
      if trace[i - 1].capture == CloseIt && steps[i - 1] != CaptureClosed {
        CaptureWaits(cfg, trace[i - 1], steps[i - 1]);
      }
    }
  }

  /** And every wait for a closed source is followed by another attempt to open it. */
  lemma {:induction false} ReopensAfterBackoff(cfg: Config, trace: seq<State>, steps: seq<Step>, b: nat, i: nat)
    requires Trace(cfg, trace, steps) && b < i < |trace| && steps[b] == CaptureSlept
    ensures trace[i].capture == Reopen || exists k :: b < k < i && steps[k].CaptureOpened?
  {
    assert Moves(cfg, trace[i - 1], steps[i - 1], trace[i]);
    if i > b + 1 {
      ReopensAfterBackoff(cfg, trace, steps, b, i - 1);
      if trace[i - 1].capture == Reopen && !steps[i - 1].CaptureOpened? {
        CaptureWaits(cfg, trace[i - 1], steps[i - 1]);
      }
    }
  }

  /** Only the capture thread's own steps move it. */
  lemma CaptureWaits(cfg: Config, s: State, step: Step)
    requires s.frames.capacity >= 1 && Enabled(s, step) && !IsCaptureStep(step)
    ensures Next(cfg, s, step).capture == s.capture
  {
    if IsWorkerStep(step) {
      WorkerStepFrame(cfg, s, step);
    }
  }
}
