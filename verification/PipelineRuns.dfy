/**
  Exactly when the alerts a camera publishes are spaced and distinctly named in every run.  The
  failing cases are runs: frames are captured, workers take them, and `evaluate` raises the
  alerts.
 */
module PipelineRuns {
  import opened Arithmetic
  import opened Cooldown
  import opened Domain
  import opened Geometry
  import opened InferenceWorker
  import opened Pipeline
  import opened PipelineAlerts
  import opened QueueLog
  import opened RiskDetection
  import Throttle
  import opened Wrappers

  // ── A frame that alerts, under any configuration ────────────────────────────

  const SOME_FORKLIFT := Detection(BoundingBox(0.0, 0.0, 1.0, 1.0), Forklift, 1.0, -1)

  /** A person all around the zone of that forklift; neither is tracked. */
  function SomePerson(zones: SafetyZoneConfig): Detection {
    var zone := ZoneForForklift(zones, SOME_FORKLIFT).zoneBox;
    Detection(BoundingBox(zone.x - 1.0, zone.y - 1.0, zone.width + 2.0, zone.height + 2.0), Person, 1.0, -1)
  }

  function SomeAlert(cfg: Config, ts: int): Alert {
    MakeAlert(cfg.camera, ts, ZoneForForklift(cfg.zones, SOME_FORKLIFT), SomePerson(cfg.zones))
  }

  /** The detector reports the forklift and `n` such persons. */
  function Crowd(zones: SafetyZoneConfig, n: nat): seq<Detection> {
    [SOME_FORKLIFT] + Repeat(SomePerson(zones), n)
  }

  lemma PersonIsInZone(zones: SafetyZoneConfig)
    ensures ZoneForForklift(zones, SOME_FORKLIFT).Overlaps(SomePerson(zones).box)
  {
  }

  lemma {:induction false} CrowdSplits(zones: SafetyZoneConfig, n: nat)
    ensures OfClass(Crowd(zones, n), Forklift) == [SOME_FORKLIFT]
    ensures OfClass(Crowd(zones, n), Person) == Repeat(SomePerson(zones), n)
  {
    var ds := Crowd(zones, n);
    if n == 0 {
      assert ds == [SOME_FORKLIFT] && ds[..0] == [];
    } else {
      CrowdSplits(zones, n - 1);
      assert ds == Crowd(zones, n - 1) + [SomePerson(zones)];
      assert ds[..n] == Crowd(zones, n - 1);
    }
  }

  lemma {:induction false} CrowdRow(cfg: Config, ts: int, n: nat)
    ensures Row(cfg.camera, ts, ZoneForForklift(cfg.zones, SOME_FORKLIFT), Repeat(SomePerson(cfg.zones), n))
            == Repeat(SomeAlert(cfg, ts), n)
  {
    if n > 0 {
      CrowdRow(cfg, ts, n - 1);
      PersonIsInZone(cfg.zones);
      RowAppend(cfg.camera, ts, ZoneForForklift(cfg.zones, SOME_FORKLIFT),
                Repeat(SomePerson(cfg.zones), n - 1), SomePerson(cfg.zones));
    }
  }

  /** Each of the persons raises the same alert. */
  lemma CrowdAlerts(cfg: Config, ts: int, n: nat)
    ensures Alerts(cfg.zones, cfg.camera, Crowd(cfg.zones, n), ts) == Repeat(SomeAlert(cfg, ts), n)
  {
    CrowdSplits(cfg.zones, n);
    CrowdRow(cfg, ts, n);
    var zone := ZoneForForklift(cfg.zones, SOME_FORKLIFT);
    assert [SOME_FORKLIFT][..0] == [] && [zone][..0] == [];
    assert ZonesOf(cfg.zones, [SOME_FORKLIFT]) == [zone];
    assert Rows(cfg.camera, ts, [zone], Repeat(SomePerson(cfg.zones), n))
        == [] + Row(cfg.camera, ts, zone, Repeat(SomePerson(cfg.zones), n));
  }

  // ── Running the pipeline up to its alerts ───────────────────────────────────

  /** The source is open, capture is at the top of its loop, and no frame is waiting. */
  ghost predicate Idle(cfg: Config, s: State) {
    && Reachable(cfg, s) && s.running && s.sourceOpen && s.capture == CheckRunning
    && s.frames.capacity >= 1 && s.frames.policy == DropOldestWhenFull && s.frames.items == []
    && |s.workers| == cfg.workers
  }

  lemma Opened(cfg: Config) returns (s: State)
    requires cfg.queueCapacity >= 1
    ensures Idle(cfg, s) && s.published == []
    ensures forall w: nat :: w < cfg.workers ==> s.workers[w] == Thread(NotStarted, map[])
  {
    InitIsReachable(cfg);
    s := Next(cfg, Init(cfg), CaptureOpened(true));
    Advance(cfg, Init(cfg), CaptureOpened(true), s);
  }

  /** The capture thread reads a frame and pushes it. */
  lemma FrameArrives(cfg: Config, s: State) returns (s': State)
    requires Idle(cfg, s)
    ensures Reachable(cfg, s')
    ensures var frame := Frame(s.sequence + 1, false);
      s' == s.(sequence := s.sequence + 1, frames := Append(s.frames, frame))
  {
    var frame := Frame(s.sequence + 1, false);
    var s1 := s.(capture := TestOpen);
    var s2 := s.(capture := Read);
    var s3 := s.(capture := PushIt(frame), sequence := s.sequence + 1);
    s' := s.(sequence := s.sequence + 1, frames := Append(s.frames, frame));
    assert Reachable(cfg, s1) by { Advance(cfg, s, CaptureCheck, s1); }
    assert Reachable(cfg, s2) by { Advance(cfg, s1, CaptureTest, s2); }
    assert Reachable(cfg, s3) by { Advance(cfg, s2, CaptureReadDone(true), s3); }
    assert s' == Next(cfg, s3, CapturePush);
    Advance(cfg, s3, CapturePush, s');
  }

  /** A worker starts its loop and takes the one waiting frame. */
  lemma WorkerTakes(cfg: Config, s: State, w: nat, frame: Frame) returns (s': State)
    requires Reachable(cfg, s) && s.running && s.frames.capacity >= 1 && w < |s.workers|
    requires s.workers[w] == Thread(NotStarted, map[]) && s.frames.items == [frame] && !frame.empty
    ensures Reachable(cfg, s')
    ensures s' == s.(frames := TakeFront(s.frames), workers := s.workers[w := Thread(Holding(frame), map[])])
  {
    var s1 := Move(s, w, AtTop);
    var s2 := Move(s, w, Taking);
    s' := s.(frames := TakeFront(s.frames), workers := s.workers[w := Thread(Holding(frame), map[])]);
    assert Reachable(cfg, s1) by { Advance(cfg, s, WorkerStart(w), s1); }
    assert Reachable(cfg, s2) by {
      assert s2.workers == s1.workers[w := s2.workers[w]];
      Advance(cfg, s1, WorkerCheck(w), s2);
    }
    assert DropAllBut(s.frames, 1) == s.frames;
    assert s' == Next(cfg, s2, WorkerTake(w)) by {
      assert s'.workers == s2.workers[w := s'.workers[w]];
    }
    Advance(cfg, s2, WorkerTake(w), s');
  }

  /** One frame, through capture, queue, worker and detector. */
  lemma WorkerAlerted(cfg: Config, s: State, w: nat, ts: int, n: nat) returns (s': State)
    requires Idle(cfg, s) && w < cfg.workers && s.workers[w] == Thread(NotStarted, map[])
    ensures Idle(cfg, s') && s'.published == s.published
    ensures s'.workers == s.workers[w := Thread(Alerting(Repeat(SomeAlert(cfg, ts), n)), map[])]
  {
    var s1 := FrameArrives(cfg, s);
    var frame := Frame(s.sequence + 1, false);
    assert s1.frames.items == [frame];
    var s2 := WorkerTakes(cfg, s1, w, frame);
    CrowdAlerts(cfg, ts, n);
    var step := WorkerInfer(w, Some(Crowd(cfg.zones, n)), ts);
    s' := s2.(workers := s2.workers[w := Thread(Alerting(Repeat(SomeAlert(cfg, ts), n)), map[])]);
    assert s' == Next(cfg, s2, step);
    Advance(cfg, s2, step, s');
    assert s2.workers[w := s'.workers[w]] == s.workers[w := s'.workers[w]];
  }

  /** The worker's next alert passes its cooldown map and is published. */
  lemma AlertPasses(cfg: Config, s: State, w: nat) returns (s': State)
    requires Idle(cfg, s) && w < cfg.workers && s.workers[w].pc.Alerting? && s.workers[w].pc.todo != []
    requires var a := s.workers[w].pc.todo[0];
      !Suppressed(s.workers[w].last, a.forkliftTrackId, a.timestamp, cfg.cooldownMs)
    ensures var worker := s.workers[w];
      var a := worker.pc.todo[0];
      && Idle(cfg, s')
      && s'.published == s.published + [Published(w, a)]
      && s'.workers == s.workers[w := worker.(pc := Alerting(worker.pc.todo[1..]),
                                              last := worker.last[a.forkliftTrackId := a.timestamp])]
  {
    s' := Next(cfg, s, WorkerAlert(w));
    Advance(cfg, s, WorkerAlert(w), s');
  }

  /** Two workers alert for one track at the same moment. */
  lemma TwoWorkersAlert(cfg: Config) returns (s: State)
    requires cfg.queueCapacity >= 1 && cfg.workers >= 2
    ensures Reachable(cfg, s)
    ensures s.published == [Published(0, SomeAlert(cfg, 0)), Published(1, SomeAlert(cfg, 0))]
  {
    s := Opened(cfg);
    s := WorkerAlerted(cfg, s, 0, 0, 1);
    s := AlertPasses(cfg, s, 0);
    s := WorkerAlerted(cfg, s, 1, 0, 1);
    s := AlertPasses(cfg, s, 1);
  }

  /** Without a cooldown, two people near one forklift in one frame are both alerted. */
  lemma TwoPersonsAlert(cfg: Config) returns (s: State)
    requires cfg.queueCapacity >= 1 && cfg.workers >= 1 && cfg.cooldownMs <= 0
    ensures Reachable(cfg, s)
    ensures s.published == [Published(0, SomeAlert(cfg, 0)), Published(0, SomeAlert(cfg, 0))]
  {
    s := Opened(cfg);
    s := WorkerAlerted(cfg, s, 0, 0, 2);
    s := AlertPasses(cfg, s, 0);
    s := AlertPasses(cfg, s, 0);
  }

  // ── Spacing and ids in every run ────────────────────────────────────────────

  /** In every run of the camera, alerts of one track reach the publisher the cooldown apart. */
  ghost predicate AlwaysSpaced(cfg: Config) {
    forall s, track :: Reachable(cfg, s) ==> Throttle.Spaced(TrackTimes(s.published, track), Gap(cfg.cooldownMs))
  }

  /** The cooldown per camera and track, as documented, is kept in every run exactly if the
      camera has at most one worker. */
  lemma SpacedInEveryRunExactly(cfg: Config)
    requires cfg.queueCapacity >= 1 && cfg.cooldownMs > 0
    ensures AlwaysSpaced(cfg) <==> cfg.workers <= 1
  {
    if cfg.workers <= 1 {
      PublisherSpacingExactly(cfg.workers, cfg.cooldownMs);
      forall s, track | Reachable(cfg, s)
        ensures Throttle.Spaced(TrackTimes(s.published, track), Gap(cfg.cooldownMs))
      {
        var trace, steps :| Trace(cfg, trace, steps) && trace[|steps|] == s;
        EveryRunKeepsAlerts(cfg, trace, steps, |steps|);
        assert TrackTimes(s.published, track) == PublishedTimes(s.raws, track, cfg.cooldownMs);
      }
    } else {
      var s := TwoWorkersAlert(cfg);
      TwoAtOnce(cfg, s.published);
    }
  }

  lemma TwoAtOnce(cfg: Config, ps: seq<Published>)
    requires cfg.cooldownMs > 0
    requires ps == [Published(0, SomeAlert(cfg, 0)), Published(1, SomeAlert(cfg, 0))]
    ensures !Throttle.Spaced(TrackTimes(ps, -1), Gap(cfg.cooldownMs))
  {
    var raw: Raw<int> := Raw(-1, 0);
    assert ForgetWorkers(PoolRawsOf(ps)) == [] + [raw] + [raw];
    TimesOfAppend([], raw, -1);
    TimesOfAppend([] + [raw], raw, -1);
    var times := TrackTimes(ps, -1);
    assert times == [0, 0] && times[1] - times[0] == 0;
  }

  ghost predicate DistinctIds(ps: seq<Published>) {
    forall j, k :: 0 <= j < k < |ps| ==> ps[j].alert.alertId != ps[k].alert.alertId
  }

  ghost predicate AlwaysDistinct(cfg: Config) {
    forall s :: Reachable(cfg, s) ==> DistinctIds(s.published)
  }

  /** No run of the camera publishes one id twice exactly if it has one worker and a cooldown of
      at least a millisecond, or no worker at all. */
  lemma IdsAreDistinctExactly(cfg: Config)
    requires cfg.queueCapacity >= 1
    ensures AlwaysDistinct(cfg) <==> cfg.workers == 0 || (cfg.workers == 1 && cfg.cooldownMs >= 1)
  {
    if cfg.workers >= 2 {
      var s := TwoWorkersAlert(cfg);
      assert s.published[0].alert.alertId == s.published[1].alert.alertId;
    } else if cfg.workers == 1 && cfg.cooldownMs <= 0 {
      var s := TwoPersonsAlert(cfg);
      assert s.published[0].alert.alertId == s.published[1].alert.alertId;
    } else {
      forall s | Reachable(cfg, s) ensures DistinctIds(s.published) {
        var trace, steps :| Trace(cfg, trace, steps) && trace[|steps|] == s;
        RunIsDistinct(cfg, trace, steps);
      }
    }
  }

  lemma RunIsDistinct(cfg: Config, trace: seq<State>, steps: seq<Step>)
    requires Trace(cfg, trace, steps) && (cfg.workers == 0 || (cfg.workers == 1 && cfg.cooldownMs >= 1))
    ensures DistinctIds(trace[|steps|].published)
  {
    var ps := trace[|steps|].published;
    if cfg.workers == 0 {
      EveryRunKeepsAlerts(cfg, trace, steps, |steps|);
      assert ps == [] by {
        NobodyPublishes(trace[|steps|].raws, cfg.cooldownMs);
        assert |PoolRawsOf(ps)| == |ps|;
      }
    } else {
      forall j: nat, k: nat | j < k < |ps| ensures ps[j].alert.alertId != ps[k].alert.alertId {
        AlertIdsAreUnique(cfg, trace, steps, |steps|, j, k);
      }
    }
  }

  lemma NobodyPublishes(raws: seq<PoolRaw>, cooldownMs: int)
    requires FromWorkers(raws, 0)
    ensures Filter(raws, cooldownMs).handedOn == []
  {
    assert raws == [] || raws[0].key.0 < 0;
  }
}
