/**
  One inference worker's treatment of one frame: evaluate the detections, and hand on to the
  publisher what the worker's own cooldown map lets through.
 */
module InferenceWorker {
  import opened AlertId
  import opened Cooldown
  import opened Domain
  import opened RiskDetection

  datatype Config = Config(
    camera: string,
    zones: SafetyZoneConfig,
    queueCapacity: nat,
    workers: nat,
    cooldownMs: int)

  function RawOf(a: Alert): Raw<int> {
    Raw(a.forkliftTrackId, a.timestamp)
  }

  function RawsOf(alerts: seq<Alert>): seq<Raw<int>> {
    seq(|alerts|, i requires 0 <= i < |alerts| => RawOf(alerts[i]))
  }

  /** What a worker with this cooldown map hands on of a list of alerts, and its map afterwards. */
  function Kept(last: map<int, int>, alerts: seq<Alert>, cooldownMs: int): (seq<Alert>, map<int, int>) {
    if alerts == [] then ([], last)
    else
      var a := alerts[|alerts| - 1];
      var (kept, last') := Kept(last, alerts[..|alerts| - 1], cooldownMs);
      if Suppressed(last', a.forkliftTrackId, a.timestamp, cooldownMs) then (kept, last')
      else (kept + [a], last'[a.forkliftTrackId := a.timestamp])
  }

  lemma KeptAppend(last: map<int, int>, alerts: seq<Alert>, a: Alert, cooldownMs: int)
    ensures var (kept, last') := Kept(last, alerts, cooldownMs);
      Kept(last, alerts + [a], cooldownMs)
      == if Suppressed(last', a.forkliftTrackId, a.timestamp, cooldownMs) then (kept, last')
         else (kept + [a], last'[a.forkliftTrackId := a.timestamp])
  {
    assert (alerts + [a])[..|alerts|] == alerts;
  }

  lemma RawsAppend(alerts: seq<Alert>, a: Alert)
    ensures RawsOf(alerts + [a]) == RawsOf(alerts) + [RawOf(a)]
  {
  }

  lemma AppendLast<T>(s: seq<T>, t: seq<T>, x: T)
    ensures s + (t + [x]) == s + t + [x]
  {
  }

  /** Frame by frame, the worker runs one cooldown filter over everything it ever raises. */
  lemma {:induction false} KeptContinuesFilter(raws: seq<Raw<int>>, alerts: seq<Alert>, cooldownMs: int)
    ensures var before := Filter(raws, cooldownMs);
      var (kept, last') := Kept(before.last, alerts, cooldownMs);
      Filter(raws + RawsOf(alerts), cooldownMs) == Filtered(last', before.handedOn + RawsOf(kept))
  {
    var before := Filter(raws, cooldownMs);
    if alerts == [] {
      assert raws + RawsOf(alerts) == raws;
      assert before.handedOn + RawsOf([]) == before.handedOn;
    } else {
      var n := |alerts| - 1;
      var init, a := alerts[..n], alerts[n];
      assert alerts == init + [a];
      KeptContinuesFilter(raws, init, cooldownMs);
      var kept := Kept(before.last, init, cooldownMs).0;
      RawsAppend(init, a);
      RawsAppend(kept, a);
      AppendLast(raws, RawsOf(init), RawOf(a));
      AppendLast(before.handedOn, RawsOf(kept), RawOf(a));
      FilterAppend(raws + RawsOf(init), RawOf(a), cooldownMs);
    }
  }

  class Worker {
    var lastAlert: map<int, int>

    constructor ()
      ensures lastAlert == map[]
    {
      lastAlert := map[];
    }

    /** The loop over the frame's alerts, all of them stamped `frameTs`. */
    method PublishAlerts(alerts: seq<Alert>, frameTs: int, cooldownMs: int) returns (published: seq<Alert>)
      requires forall a :: a in alerts ==> a.timestamp == frameTs
      modifies this
      ensures (published, lastAlert) == Kept(old(lastAlert), alerts, cooldownMs)
    {
      published := [];
      for i := 0 to |alerts|
        invariant (published, lastAlert) == Kept(old(lastAlert), alerts[..i], cooldownMs)
      {
        var a := alerts[i];
        assert alerts[..i + 1] == alerts[..i] + [a];
        KeptAppend(old(lastAlert), alerts[..i], a, cooldownMs);
        if a.forkliftTrackId in lastAlert
           && TruncDiv(frameTs - lastAlert[a.forkliftTrackId], TICKS_PER_MS) < cooldownMs {
          continue;
        }
        lastAlert := lastAlert[a.forkliftTrackId := frameTs];
        published := published + [a];
      }
      assert alerts[..|alerts|] == alerts;
    }

    /** The end of the loop body: evaluate the detections and hand on what passes. */
    method ProcessDetections(cfg: Config, detections: seq<Detection>, ts: int) returns (published: seq<Alert>)
      modifies this
      ensures (published, lastAlert)
              == Kept(old(lastAlert), Alerts(cfg.zones, cfg.camera, detections, ts), cfg.cooldownMs)
    {
      var alerts := Evaluate(cfg.zones, cfg.camera, detections, ts);
      AlertsAreStamped(cfg.zones, cfg.camera, detections, ts);
      published := PublishAlerts(alerts, ts, cfg.cooldownMs);
    }
  }

  lemma AlertsAreStamped(zones: SafetyZoneConfig, camera: string, ds: seq<Detection>, ts: int)
    ensures forall a :: a in Alerts(zones, camera, ds, ts) ==> a.timestamp == ts
  {
    forall a | a in Alerts(zones, camera, ds, ts) ensures a.timestamp == ts {
      AlertTimestamp(zones, camera, ds, ts, a);
    }
  }

  lemma AlertTimestamp(zones: SafetyZoneConfig, camera: string, ds: seq<Detection>, ts: int, a: Alert)
    requires a in Alerts(zones, camera, ds, ts)
    ensures a.timestamp == ts
    ensures a.alertId == MakeAlertId(camera, a.forkliftTrackId, a.personTrackId, a.timestamp)
  {
    var pairs := EvaluateRefinesRelation(zones, camera, ds, ts);
    var k :| 0 <= k < |pairs| && a == Alerts(zones, camera, ds, ts)[k];
    assert a == AlertAt(zones, camera, ds, ts, pairs[k]);
  }
}
