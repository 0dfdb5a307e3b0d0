/** What a pipeline publishes over a whole run: cooldown, rate and unique ids. */
module PipelineAlerts {
  import opened AlertId
  import opened Cooldown
  import opened Domain
  import opened InferenceWorker
  import opened Pipeline
  import opened PipelineShutdown
  import opened RiskDetection
  import opened QueueLog
  import Throttle
  import opened Wrappers

  function PoolRawOf(p: Published): PoolRaw {
    Raw((p.worker, p.alert.forkliftTrackId), p.alert.timestamp)
  }

  function PoolRawsOf(ps: seq<Published>): seq<PoolRaw> {
    seq(|ps|, i requires 0 <= i < |ps| => PoolRawOf(ps[i]))
  }

  ghost predicate WellNamed(cfg: Config, a: Alert) {
    a.alertId == MakeAlertId(cfg.camera, a.forkliftTrackId, a.personTrackId, a.timestamp)
  }

  ghost predicate TodoNamed(cfg: Config, worker: Thread) {
    worker.pc.Alerting? ==> forall a :: a in worker.pc.todo ==> WellNamed(cfg, a)
  }

  ghost predicate MapAgrees(all: map<(nat, int), int>, w: nat, mine: map<int, int>) {
    forall track :: KeyTime(all, (w, track)) == KeyTime(mine, track)
  }

  /** The publisher has received exactly what the pool's cooldown filter lets through. */
  ghost predicate AlertsSound(cfg: Config, s: State) {
    && |s.workers| == cfg.workers
    && FromWorkers(s.raws, cfg.workers)
    && PoolRawsOf(s.published) == Filter(s.raws, cfg.cooldownMs).handedOn
    && (forall w: nat :: w < |s.workers| ==> MapAgrees(Filter(s.raws, cfg.cooldownMs).last, w, s.workers[w].last))
    && (forall w: nat :: w < |s.workers| ==> TodoNamed(cfg, s.workers[w]))
    && (forall i :: 0 <= i < |s.published| ==> WellNamed(cfg, s.published[i].alert))
  }

  lemma PublishedAppend(ps: seq<Published>, p: Published)
    ensures PoolRawsOf(ps + [p]) == PoolRawsOf(ps) + [PoolRawOf(p)]
  {
  }

  /** The worker's own map decides exactly as the pool's filter does. */
  lemma TurnDecides(cfg: Config, s: State, w: nat, a: Alert)
    requires AlertsSound(cfg, s) && At(s, w)
    ensures var pool := Filter(s.raws, cfg.cooldownMs).last;
      Suppressed(pool, (w, a.forkliftTrackId), a.timestamp, cfg.cooldownMs)
      <==> Suppressed(s.workers[w].last, a.forkliftTrackId, a.timestamp, cfg.cooldownMs)
  {
    assert MapAgrees(Filter(s.raws, cfg.cooldownMs).last, w, s.workers[w].last);
    assert KeyTime(Filter(s.raws, cfg.cooldownMs).last, (w, a.forkliftTrackId))
        == KeyTime(s.workers[w].last, a.forkliftTrackId);
  }

  lemma MapsStayAgreed(all: map<(nat, int), int>, w: nat, track: int, ts: int, v: nat, mine: map<int, int>)
    requires MapAgrees(all, v, mine)
    ensures MapAgrees(all[(w, track) := ts], v, if v == w then mine[track := ts] else mine)
  {
    var mine' := if v == w then mine[track := ts] else mine;
    forall t ensures KeyTime(all[(w, track) := ts], (v, t)) == KeyTime(mine', t) {
      assert KeyTime(all, (v, t)) == KeyTime(mine, t);
    }
  }

  lemma AlertTurnKeepsMaps(cfg: Config, s: State, w: nat, v: nat)
    requires AlertsSound(cfg, s) && At(s, w) && s.workers[w].pc.Alerting? && s.workers[w].pc.todo != [] && At(s, v)
    ensures var s' := AlertTurn(cfg, s, w);
      |s'.workers| == |s.workers| && MapAgrees(Filter(s'.raws, cfg.cooldownMs).last, v, s'.workers[v].last)
  {
    var a := s.workers[w].pc.todo[0];
    var pool := Filter(s.raws, cfg.cooldownMs).last;
    FilterAppend(s.raws, Raw((w, a.forkliftTrackId), a.timestamp), cfg.cooldownMs);
    TurnDecides(cfg, s, w, a);
    assert MapAgrees(pool, v, s.workers[v].last);
    MapsStayAgreed(pool, w, a.forkliftTrackId, a.timestamp, v, s.workers[v].last);
  }

  lemma AlertTurnKeepsStream(cfg: Config, s: State, w: nat)
    requires AlertsSound(cfg, s) && At(s, w) && s.workers[w].pc.Alerting? && s.workers[w].pc.todo != []
    ensures var s' := AlertTurn(cfg, s, w);
      && FromWorkers(s'.raws, cfg.workers)
      && PoolRawsOf(s'.published) == Filter(s'.raws, cfg.cooldownMs).handedOn
  {
    var a := s.workers[w].pc.todo[0];
    var raw: PoolRaw := Raw((w, a.forkliftTrackId), a.timestamp);
    FilterAppend(s.raws, raw, cfg.cooldownMs);
    TurnDecides(cfg, s, w, a);
    if !Suppressed(s.workers[w].last, a.forkliftTrackId, a.timestamp, cfg.cooldownMs) {
      PublishedAppend(s.published, Published(w, a));
      assert PoolRawOf(Published(w, a)) == raw;
    }
  }

  lemma AlertTurnKeepsNames(cfg: Config, s: State, w: nat)
    requires AlertsSound(cfg, s) && At(s, w) && s.workers[w].pc.Alerting? && s.workers[w].pc.todo != []
    ensures var s' := AlertTurn(cfg, s, w);
      && (forall v: nat :: v < |s'.workers| ==> TodoNamed(cfg, s'.workers[v]))
      && (forall i :: 0 <= i < |s'.published| ==> WellNamed(cfg, s'.published[i].alert))
  {
    var todo, s' := s.workers[w].pc.todo, AlertTurn(cfg, s, w);
    assert TodoNamed(cfg, s.workers[w]) && todo[0] in todo;
    forall v: nat | v < |s'.workers| ensures TodoNamed(cfg, s'.workers[v]) {
      assert TodoNamed(cfg, s.workers[v]);
    }
  }

  lemma AlertTurnKeeps(cfg: Config, s: State, w: nat)
    requires AlertsSound(cfg, s) && At(s, w) && s.workers[w].pc.Alerting?
    ensures AlertsSound(cfg, AlertTurn(cfg, s, w))
  {
    if s.workers[w].pc.todo == [] {
      QuietStepKeeps(cfg, s, AlertTurn(cfg, s, w));
    } else {
      AlertTurnKeepsStream(cfg, s, w);
      AlertTurnKeepsNames(cfg, s, w);
      var s' := AlertTurn(cfg, s, w);
      forall v: nat | v < |s'.workers| ensures MapAgrees(Filter(s'.raws, cfg.cooldownMs).last, v, s'.workers[v].last) {
        AlertTurnKeepsMaps(cfg, s, w, v);
      }
    }
  }

  /** Steps that publish nothing and leave every cooldown map alone. */
  lemma QuietStepKeeps(cfg: Config, s: State, s': State)
    requires AlertsSound(cfg, s) && s'.raws == s.raws && s'.published == s.published
    requires |s'.workers| == |s.workers|
    requires forall v: nat :: v < |s.workers| ==> s'.workers[v].last == s.workers[v].last
    requires forall v: nat :: v < |s.workers| ==> s'.workers[v].pc == s.workers[v].pc || TodoNamed(cfg, s'.workers[v])
    ensures AlertsSound(cfg, s')
  {
    forall v: nat | v < |s'.workers| ensures MapAgrees(Filter(s'.raws, cfg.cooldownMs).last, v, s'.workers[v].last) {
      assert MapAgrees(Filter(s.raws, cfg.cooldownMs).last, v, s.workers[v].last);
    }
    forall v: nat | v < |s'.workers| ensures TodoNamed(cfg, s'.workers[v]) {
      assert TodoNamed(cfg, s.workers[v]);
    }
  }

  lemma AlertsAreNamed(cfg: Config, ds: seq<Detection>, ts: int, worker: Thread)
    requires worker.pc == Alerting(Alerts(cfg.zones, cfg.camera, ds, ts))
    ensures TodoNamed(cfg, worker)
  {
    forall a | a in Alerts(cfg.zones, cfg.camera, ds, ts) ensures WellNamed(cfg, a) {
      AlertTimestamp(cfg.zones, cfg.camera, ds, ts, a);
    }
  }

  lemma OtherStepIsQuiet(cfg: Config, s: State, step: Step)
    requires s.frames.capacity >= 1 && Enabled(s, step) && !step.WorkerAlert? && !step.WorkerInfer?
    ensures var s' := Next(cfg, s, step);
      && s'.raws == s.raws && s'.published == s.published && |s'.workers| == |s.workers|
      && (forall v: nat :: v < |s.workers| ==> s'.workers[v].last == s.workers[v].last)
      && (forall v: nat :: v < |s.workers| ==> s'.workers[v].pc == s.workers[v].pc || !s'.workers[v].pc.Alerting?)
  {
    match step
    case CaptureOpened(ok) =>
    case CaptureCheck =>
    case CaptureTest =>
    case CaptureSlept =>
    case CaptureReadDone(ok) =>
    case CaptureClosed =>
    case CapturePush =>
    case WorkerStart(w) =>
    case WorkerCheck(w) =>
    case WorkerTake(w) =>
    case StopCall =>
    case StopCloseQueue =>
    case StopJoinCapture =>
    case StopJoinPool =>
    case StopSourceClosed =>
  }

  lemma StepKeepsAlerts(cfg: Config, s: State, step: Step)
    requires s.frames.capacity >= 1
    requires AlertsSound(cfg, s) && Enabled(s, step)
    ensures AlertsSound(cfg, Next(cfg, s, step))
  {
    if step.WorkerAlert? {
      AlertTurnKeeps(cfg, s, step.w);
    } else if step.WorkerInfer? {
      if step.result.Some? {
        AlertsAreNamed(cfg, step.result.value, step.ts, Next(cfg, s, step).workers[step.w]);
      }
      QuietStepKeeps(cfg, s, Next(cfg, s, step));
    } else {
      OtherStepIsQuiet(cfg, s, step);
      QuietStepKeeps(cfg, s, Next(cfg, s, step));
    }
  }

  lemma {:induction false} EveryRunKeepsAlerts(cfg: Config, trace: seq<State>, steps: seq<Step>, i: nat)
    requires Trace(cfg, trace, steps) && i < |trace|
    ensures AlertsSound(cfg, trace[i])
  {
    if i > 0 {
      EveryRunKeepsAlerts(cfg, trace, steps, i - 1);
      StepKeepsAlerts(cfg, trace[i - 1], steps[i - 1]);
    }
  }

  /** When alerts of a track reached the publisher, from one worker or from all of them. */
  function AlertTimes(ps: seq<Published>, worker: nat, track: int): seq<int> {
    TimesOf(PoolRawsOf(ps), (worker, track))
  }

  function TrackTimes(ps: seq<Published>, track: int): seq<int> {
    TimesOf(ForgetWorkers(PoolRawsOf(ps)), track)
  }

  /** In every run, each worker's alerts for a track are at least the cooldown apart. */
  lemma RunsRespectCooldown(cfg: Config, trace: seq<State>, steps: seq<Step>, i: nat, worker: nat, track: int)
    requires Trace(cfg, trace, steps) && i < |trace| && cfg.cooldownMs > 0
    ensures Throttle.Spaced(AlertTimes(trace[i].published, worker, track), Gap(cfg.cooldownMs))
  {
    EveryRunKeepsAlerts(cfg, trace, steps, i);
    CooldownSpacesAlerts(trace[i].raws, (worker, track), cfg.cooldownMs);
  }

  /** And all W workers of the camera together stay within W times the rate of one. */
  lemma RunsRespectRate(cfg: Config, trace: seq<State>, steps: seq<Step>, i: nat, track: int, from: int, length: nat)
    requires Trace(cfg, trace, steps) && i < |trace| && cfg.cooldownMs > 0
    ensures Throttle.InWindow(TrackTimes(trace[i].published, track), from, from + length)
            <= cfg.workers * (length / Gap(cfg.cooldownMs) + 1)
  {
    var s := trace[i];
    assert PoolRawsOf(s.published) == Filter(s.raws, cfg.cooldownMs).handedOn && FromWorkers(s.raws, cfg.workers) by {
      EveryRunKeepsAlerts(cfg, trace, steps, i);
    }
    PoolWindowBound(s.raws, cfg.workers, track, cfg.cooldownMs, from, length);
    assert TrackTimes(s.published, track) == PublishedTimes(s.raws, track, cfg.cooldownMs);
  }

  /** With one worker and a cooldown of at least a millisecond, no two alerts of a run share an
      id, even if no tracker is attached and every track id is -1. */
  lemma AlertIdsAreUnique(cfg: Config, trace: seq<State>, steps: seq<Step>, i: nat, j: nat, k: nat)
    requires Trace(cfg, trace, steps) && i < |trace|
    requires cfg.workers == 1 && cfg.cooldownMs >= 1
    requires j < k < |trace[i].published|
    ensures trace[i].published[j].alert.alertId != trace[i].published[k].alert.alertId
  {
    EveryRunKeepsAlerts(cfg, trace, steps, i);
    var s := trace[i];
    HandedOnAreDistinct(s.raws, cfg.cooldownMs);
    FilterKeepsWorkers(s.raws, 1, cfg.cooldownMs);
    var out := PoolRawsOf(s.published);
    assert out[j] != out[k] && out[j].key.0 == 0 && out[k].key.0 == 0;
    var a, b := s.published[j].alert, s.published[k].alert;
    assert WellNamed(cfg, a) && WellNamed(cfg, b);
    if a.alertId == b.alertId {
      AlertIdIsInjective(Parts(cfg.camera, a.forkliftTrackId, a.personTrackId, a.timestamp),
                         Parts(cfg.camera, b.forkliftTrackId, b.personTrackId, b.timestamp));
    }
  }

  // ── One worker: from the frames it infers to what it publishes ──────────────

  /** Every alert that the frames worker `w` has inferred raise, in order. */
  function Raised(cfg: Config, steps: seq<Step>, w: nat): seq<Alert> {
    if steps == [] then []
    else
      var n := |steps| - 1;
      Raised(cfg, steps[..n], w) + RaisedBy(cfg, steps[n], w)
  }

  function RaisedBy(cfg: Config, step: Step, w: nat): seq<Alert> {
    match step
    case WorkerInfer(v, Some(ds), ts) => if v == w then Alerts(cfg.zones, cfg.camera, ds, ts) else []
    case _ => []
  }

  function PublishedBy(ps: seq<Published>, w: nat): seq<Alert> {
    if ps == [] then []
    else
      var n := |ps| - 1;
      var before := PublishedBy(ps[..n], w);
      if ps[n].worker == w then before + [ps[n].alert] else before
  }

  /** The alerts of the frame in hand that the worker has not looked at yet. */
  function Todo(worker: Thread): seq<Alert> {
    if worker.pc.Alerting? then worker.pc.todo else []
  }

  /** The worker has published what its cooldown keeps of the alerts `seen`, and of what it has
      raised only the alerts of the frame in hand are still to come. */
  ghost predicate Keeping(cfg: Config, s: State, w: nat, seen: seq<Alert>, raised: seq<Alert>) {
    && At(s, w)
    && raised == seen + Todo(s.workers[w])
    && Kept(map[], seen, cfg.cooldownMs) == (PublishedBy(s.published, w), s.workers[w].last)
  }

  lemma PublishedByAppend(ps: seq<Published>, p: Published, w: nat)
    ensures PublishedBy(ps + [p], w)
            == if p.worker == w then PublishedBy(ps, w) + [p.alert] else PublishedBy(ps, w)
  {
    assert (ps + [p])[..|ps|] == ps;
  }

  lemma RaisedAppend(cfg: Config, steps: seq<Step>, i: nat, w: nat)
    requires i < |steps|
    ensures Raised(cfg, steps[..i + 1], w) == Raised(cfg, steps[..i], w) + RaisedBy(cfg, steps[i], w)
  {
    assert steps[..i + 1][..i] == steps[..i];
  }

  predicate ConcernsAlerts(step: Step, w: nat) {
    (step.WorkerInfer? || step.WorkerAlert?) && step.w == w
  }

  lemma OtherAlertTurn(cfg: Config, s: State, v: nat, w: nat)
    requires At(s, v) && At(s, w) && v != w && s.workers[v].pc.Alerting?
    ensures var s' := AlertTurn(cfg, s, v);
      At(s', w) && s'.workers[w] == s.workers[w] && PublishedBy(s'.published, w) == PublishedBy(s.published, w)
  {
    if s.workers[v].pc.todo != [] {
      PublishedByAppend(s.published, Published(v, s.workers[v].pc.todo[0]), w);
    }
  }

  lemma OtherStepLeavesTodo(cfg: Config, s: State, step: Step, w: nat)
    requires s.frames.capacity >= 1 && Enabled(s, step) && At(s, w) && !ConcernsAlerts(step, w)
    ensures At(Next(cfg, s, step), w) && Todo(Next(cfg, s, step).workers[w]) == Todo(s.workers[w])
  {
    if IsWorkerStep(step) {
      WorkerStepFrame(cfg, s, step);
    }
  }

  /** Other steps neither raise nor publish anything for worker `w`. */
  lemma OtherStepKeeping(cfg: Config, s: State, step: Step, w: nat)
    requires s.frames.capacity >= 1 && Enabled(s, step) && At(s, w) && !ConcernsAlerts(step, w)
    ensures RaisedBy(cfg, step, w) == []
    ensures var s' := Next(cfg, s, step);
      && At(s', w) && Todo(s'.workers[w]) == Todo(s.workers[w]) && s'.workers[w].last == s.workers[w].last
      && PublishedBy(s'.published, w) == PublishedBy(s.published, w)
  {
    if step.WorkerAlert? {
      OtherAlertTurn(cfg, s, step.w, w);
    } else if !step.WorkerInfer? {
      OtherStepIsQuiet(cfg, s, step);
      OtherStepLeavesTodo(cfg, s, step, w);
    }
  }

  lemma MoveOn(seen: seq<Alert>, todo: seq<Alert>)
    requires todo != []
    ensures seen + [todo[0]] + todo[1..] == seen + todo
  {
  }

  lemma AlertTurnKeeping(cfg: Config, s: State, w: nat, seen: seq<Alert>, raised: seq<Alert>) returns (seen': seq<Alert>)
    requires Keeping(cfg, s, w, seen, raised) && s.workers[w].pc.Alerting?
    ensures Keeping(cfg, AlertTurn(cfg, s, w), w, seen', raised)
  {
    var todo := s.workers[w].pc.todo;
    if todo == [] {
      seen' := seen;
    } else {
      seen' := seen + [todo[0]];
      KeptAppend(map[], seen, todo[0], cfg.cooldownMs);
      PublishedByAppend(s.published, Published(w, todo[0]), w);
      MoveOn(seen, todo);
    }
  }

  lemma InferKeeping(cfg: Config, s: State, step: Step, w: nat, seen: seq<Alert>, raised: seq<Alert>)
    requires s.frames.capacity >= 1 && Enabled(s, step) && step.WorkerInfer? && step.w == w
    requires Keeping(cfg, s, w, seen, raised)
    ensures Keeping(cfg, Next(cfg, s, step), w, seen, raised + RaisedBy(cfg, step, w))
  {
    assert raised == seen;
  }

  lemma StepKeeping(cfg: Config, s: State, step: Step, w: nat, seen: seq<Alert>, raised: seq<Alert>)
    returns (seen': seq<Alert>)
    requires s.frames.capacity >= 1 && Enabled(s, step) && Keeping(cfg, s, w, seen, raised)
    ensures Keeping(cfg, Next(cfg, s, step), w, seen', raised + RaisedBy(cfg, step, w))
  {
    seen' := seen;
    if !ConcernsAlerts(step, w) {
      OtherStepKeeping(cfg, s, step, w);
      assert raised + RaisedBy(cfg, step, w) == raised;
    } else if step.WorkerInfer? {
      InferKeeping(cfg, s, step, w, seen, raised);
    } else {
      seen' := AlertTurnKeeping(cfg, s, w, seen, raised);
      assert raised + RaisedBy(cfg, step, w) == raised;
    }
  }

  /** In every run, what a worker has published is what its cooldown keeps of all the alerts its
      frames raised, in order; only those of the frame in hand may still be to come. */
  lemma {:induction false} WorkerPublishesKept(cfg: Config, trace: seq<State>, steps: seq<Step>, i: nat, w: nat)
    returns (seen: seq<Alert>)
    requires Trace(cfg, trace, steps) && i < |trace| && w < cfg.workers
    ensures At(trace[i], w)
    ensures Raised(cfg, steps[..i], w) == seen + Todo(trace[i].workers[w])
    ensures Kept(map[], seen, cfg.cooldownMs) == (PublishedBy(trace[i].published, w), trace[i].workers[w].last)
  {
    if i == 0 {
      seen := [];
    } else {
      seen := WorkerPublishesKept(cfg, trace, steps, i - 1, w);
      assert Moves(cfg, trace[i - 1], steps[i - 1], trace[i]);
      seen := StepKeeping(cfg, trace[i - 1], steps[i - 1], w, seen, Raised(cfg, steps[..i - 1], w));
      RaisedAppend(cfg, steps, i - 1, w);
    }
  }
}
