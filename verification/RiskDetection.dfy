/** The decision path of one frame: safety zones around forklifts, alerts for people in them. */
module RiskDetection {
  import opened AlertId
  import opened Domain
  import opened Geometry

  datatype PaddingMode = AbsolutePixels | RelativeToBox

  datatype SafetyZoneConfig = SafetyZoneConfig(mode: PaddingMode, padX: real, padY: real, padRatio: real)

  function PadX(cfg: SafetyZoneConfig, box: BoundingBox): real {
    if cfg.mode == RelativeToBox then box.width * cfg.padRatio else cfg.padX
  }

  function PadY(cfg: SafetyZoneConfig, box: BoundingBox): real {
    if cfg.mode == RelativeToBox then box.height * cfg.padRatio else cfg.padY
  }

  function ZoneForForklift(cfg: SafetyZoneConfig, forklift: Detection): SafetyZone {
    SafetyZone(forklift.box,
               forklift.box.Expanded(PadX(cfg, forklift.box), PadY(cfg, forklift.box)),
               forklift.trackId)
  }

  // ── The specification, by recursion over the detections ─────────────────────

  function ZonesOf(cfg: SafetyZoneConfig, forklifts: seq<Detection>): seq<SafetyZone> {
    if forklifts == [] then []
    else
      var n := |forklifts| - 1;
      ZonesOf(cfg, forklifts[..n]) + [ZoneForForklift(cfg, forklifts[n])]
  }

  function OfClass(detections: seq<Detection>, cls: ObjectClass): seq<Detection> {
    if detections == [] then []
    else
      var n := |detections| - 1;
      var before := OfClass(detections[..n], cls);
      if detections[n].cls == cls then before + [detections[n]] else before
  }

  function MakeAlert(camera: string, ts: int, zone: SafetyZone, person: Detection): Alert {
    Alert(MakeAlertId(camera, zone.forkliftTrackId, person.trackId, ts), camera,
          PersonNearForklift, Warning, ts, person.trackId, zone.forkliftTrackId,
          person.box, zone.forkliftBox, zone.zoneBox, 0.0)
  }

  /** The alerts of one zone. */
  function Row(camera: string, ts: int, zone: SafetyZone, persons: seq<Detection>): seq<Alert> {
    if persons == [] then []
    else
      var n := |persons| - 1;
      var before := Row(camera, ts, zone, persons[..n]);
      if zone.Overlaps(persons[n].box) then before + [MakeAlert(camera, ts, zone, persons[n])] else before
  }

  function Rows(camera: string, ts: int, zones: seq<SafetyZone>, persons: seq<Detection>): seq<Alert> {
    if zones == [] then []
    else
      var n := |zones| - 1;
      Rows(camera, ts, zones[..n], persons) + Row(camera, ts, zones[n], persons)
  }

  function Alerts(cfg: SafetyZoneConfig, camera: string, detections: seq<Detection>, ts: int): seq<Alert> {
    Rows(camera, ts, ZonesOf(cfg, OfClass(detections, Forklift)), OfClass(detections, Person))
  }

  lemma PrefixStep<T>(s: seq<T>, i: nat)
    requires i < |s|
    ensures s[..i + 1][..i] == s[..i]
  {
  }

  method ZonesFor(cfg: SafetyZoneConfig, forklifts: seq<Detection>) returns (zones: seq<SafetyZone>)
    ensures zones == ZonesOf(cfg, forklifts)
  {
    zones := [];
    for i := 0 to |forklifts|
      invariant zones == ZonesOf(cfg, forklifts[..i])
    {
      PrefixStep(forklifts, i);
      zones := zones + [ZoneForForklift(cfg, forklifts[i])];
    }
    assert forklifts[..|forklifts|] == forklifts;
  }

  /** One zone per forklift, in the same order. */
  lemma {:induction false} ZonesLineUp(cfg: SafetyZoneConfig, forklifts: seq<Detection>)
    ensures |ZonesOf(cfg, forklifts)| == |forklifts|
    ensures forall i :: 0 <= i < |forklifts| ==> ZonesOf(cfg, forklifts)[i] == ZoneForForklift(cfg, forklifts[i])
  {
    if forklifts != [] {
      ZonesLineUp(cfg, forklifts[..|forklifts| - 1]);
    }
  }

  method SplitByClass(detections: seq<Detection>) returns (persons: seq<Detection>, forklifts: seq<Detection>)
    ensures persons == OfClass(detections, Person) && forklifts == OfClass(detections, Forklift)
  {
    persons, forklifts := [], [];
    for i := 0 to |detections|
      invariant persons == OfClass(detections[..i], Person)
      invariant forklifts == OfClass(detections[..i], Forklift)
    {
      var d := detections[i];
      PrefixStep(detections, i);
      match d.cls
      case Person => persons := persons + [d];
      case Forklift => forklifts := forklifts + [d];
      case Unknown =>
    }
    assert detections[..|detections|] == detections;
  }

  /** The inner loop: one zone against every person. */
  method AlertsForZone(camera: string, ts: int, zone: SafetyZone, persons: seq<Detection>) returns (alerts: seq<Alert>)
    ensures alerts == Row(camera, ts, zone, persons)
  {
    alerts := [];
    for p := 0 to |persons|
      invariant alerts == Row(camera, ts, zone, persons[..p])
    {
      var person := persons[p];
      PrefixStep(persons, p);
      if !zone.Overlaps(person.box) {
        continue;
      }
      alerts := alerts + [MakeAlert(camera, ts, zone, person)];
    }
    assert persons[..|persons|] == persons;
  }

  /** The outer loop: every zone in turn. */
  method AlertsForZones(camera: string, ts: int, zones: seq<SafetyZone>, persons: seq<Detection>)
    returns (alerts: seq<Alert>)
    ensures alerts == Rows(camera, ts, zones, persons)
  {
    alerts := [];
    for z := 0 to |zones|
      invariant alerts == Rows(camera, ts, zones[..z], persons)
    {
      PrefixStep(zones, z);
      var row := AlertsForZone(camera, ts, zones[z], persons);
      alerts := alerts + row;
    }
    assert zones[..|zones|] == zones;
  }

  method Evaluate(cfg: SafetyZoneConfig, camera: string, detections: seq<Detection>, ts: int)
    returns (alerts: seq<Alert>)
    ensures alerts == Alerts(cfg, camera, detections, ts)
  {
    var persons, forklifts := SplitByClass(detections);
    var zones := ZonesFor(cfg, forklifts);
    alerts := AlertsForZones(camera, ts, zones, persons);
  }

  // ── What the alerts of a frame are, by position in the detection list ───────

  datatype Pair = Pair(forklift: nat, person: nat)

  predicate InBounds(ds: seq<Detection>, pr: Pair) {
    pr.forklift < |ds| && pr.person < |ds|
  }

  predicate InZone(cfg: SafetyZoneConfig, ds: seq<Detection>, pr: Pair) {
    && InBounds(ds, pr)
    && ds[pr.forklift].cls == Forklift && ds[pr.person].cls == Person
    && ZoneForForklift(cfg, ds[pr.forklift]).Overlaps(ds[pr.person].box)
  }

  predicate Before(a: Pair, b: Pair) {
    a.forklift < b.forklift || (a.forklift == b.forklift && a.person < b.person)
  }

  ghost predicate Ascending(pairs: seq<Pair>) {
    forall j, k :: 0 <= j < k < |pairs| ==> Before(pairs[j], pairs[k])
  }

  lemma AscendingConcat(a: seq<Pair>, b: seq<Pair>)
    requires Ascending(a) && Ascending(b)
    requires forall j, k :: 0 <= j < |a| && 0 <= k < |b| ==> a[j].forklift < b[k].forklift
    ensures Ascending(a + b)
  {
    forall j, k | 0 <= j < k < |a + b| ensures Before((a + b)[j], (a + b)[k]) {
      if j < |a| <= k {
        assert a[j].forklift < b[k - |a|].forklift;
      }
    }
  }

  /** Exactly the overlapping pairs, forklift-major, each once. */
  ghost predicate IsAlertOrder(cfg: SafetyZoneConfig, ds: seq<Detection>, pairs: seq<Pair>) {
    && (forall k :: 0 <= k < |pairs| ==> InZone(cfg, ds, pairs[k]))
    && Ascending(pairs)
    && (forall pr :: InZone(cfg, ds, pr) ==> pr in pairs)
  }

  function AlertAt(cfg: SafetyZoneConfig, camera: string, ds: seq<Detection>, ts: int, pr: Pair): Alert
    requires InBounds(ds, pr)
  {
    MakeAlert(camera, ts, ZoneForForklift(cfg, ds[pr.forklift]), ds[pr.person])
  }

  ghost predicate IsAlertOf(cfg: SafetyZoneConfig, camera: string, ds: seq<Detection>, ts: int, pr: Pair, a: Alert) {
    InBounds(ds, pr) && a == AlertAt(cfg, camera, ds, ts, pr)
  }

  /** These are the alerts of these pairs, one for one. */
  ghost predicate AlertsOf(cfg: SafetyZoneConfig, camera: string, ds: seq<Detection>, ts: int,
                           pairs: seq<Pair>, alerts: seq<Alert>) {
    && |alerts| == |pairs|
    && forall k :: 0 <= k < |pairs| ==> IsAlertOf(cfg, camera, ds, ts, pairs[k], alerts[k])
  }

  /** The pairs of the detection at `f` with the first `n` detections, and the pairs of the
      first `n` detections with all of them. */
  function RowPairs(cfg: SafetyZoneConfig, ds: seq<Detection>, f: nat, n: nat): seq<Pair> {
    if n == 0 then []
    else if InZone(cfg, ds, Pair(f, n - 1)) then RowPairs(cfg, ds, f, n - 1) + [Pair(f, n - 1)]
    else RowPairs(cfg, ds, f, n - 1)
  }

  function GridPairs(cfg: SafetyZoneConfig, ds: seq<Detection>, n: nat): seq<Pair> {
    if n == 0 then [] else GridPairs(cfg, ds, n - 1) + RowPairs(cfg, ds, n - 1, |ds|)
  }

  lemma {:induction false} RowPairsOrdered(cfg: SafetyZoneConfig, ds: seq<Detection>, f: nat, n: nat)
    ensures Ascending(RowPairs(cfg, ds, f, n))
    ensures forall pr :: pr in RowPairs(cfg, ds, f, n) <==> InZone(cfg, ds, pr) && pr.forklift == f && pr.person < n
  {
    if n > 0 {
      RowPairsOrdered(cfg, ds, f, n - 1);
      var last := Pair(f, n - 1);
      forall pr | InZone(cfg, ds, pr) && pr.forklift == f && pr.person < n
        ensures pr == last || pr in RowPairs(cfg, ds, f, n - 1)
      {
        assert pr == Pair(pr.forklift, pr.person);
      }
    }
  }

  lemma {:induction false} GridPairsOrdered(cfg: SafetyZoneConfig, ds: seq<Detection>, n: nat)
    ensures Ascending(GridPairs(cfg, ds, n))
    ensures forall pr :: pr in GridPairs(cfg, ds, n) <==> InZone(cfg, ds, pr) && pr.forklift < n
  {
    if n > 0 {
      GridPairsOrdered(cfg, ds, n - 1);
      RowPairsOrdered(cfg, ds, n - 1, |ds|);
      var above, row := GridPairs(cfg, ds, n - 1), RowPairs(cfg, ds, n - 1, |ds|);
      forall j, k | 0 <= j < |above| && 0 <= k < |row| ensures above[j].forklift < row[k].forklift {
        assert above[j] in above && row[k] in row;
      }
      AscendingConcat(above, row);
    }
  }

  lemma RowAppend(camera: string, ts: int, zone: SafetyZone, persons: seq<Detection>, person: Detection)
    ensures var before := Row(camera, ts, zone, persons);
      Row(camera, ts, zone, persons + [person])
      == if zone.Overlaps(person.box) then before + [MakeAlert(camera, ts, zone, person)] else before
  {
    assert (persons + [person])[..|persons|] == persons;
  }

  /** What the `n`-th detection adds to the row of the forklift at `f`. */
  lemma RowStep(cfg: SafetyZoneConfig, camera: string, ds: seq<Detection>, ts: int, f: nat, n: nat)
    requires f < |ds| && ds[f].cls == Forklift && n < |ds|
    ensures var zone := ZoneForForklift(cfg, ds[f]);
      Row(camera, ts, zone, OfClass(ds[..n + 1], Person))
      == Row(camera, ts, zone, OfClass(ds[..n], Person))
         + if InZone(cfg, ds, Pair(f, n)) then [AlertAt(cfg, camera, ds, ts, Pair(f, n))] else []
  {
    PrefixStep(ds, n);
    if ds[n].cls == Person {
      RowAppend(camera, ts, ZoneForForklift(cfg, ds[f]), OfClass(ds[..n], Person), ds[n]);
    }
  }

  lemma {:induction false} RowPairsAreAlerts(cfg: SafetyZoneConfig, camera: string, ds: seq<Detection>, ts: int,
                                             f: nat, n: nat)
    requires f < |ds| && ds[f].cls == Forklift && n <= |ds|
    ensures AlertsOf(cfg, camera, ds, ts, RowPairs(cfg, ds, f, n),
                     Row(camera, ts, ZoneForForklift(cfg, ds[f]), OfClass(ds[..n], Person)))
  {
    if n > 0 {
      RowPairsAreAlerts(cfg, camera, ds, ts, f, n - 1);
      RowStep(cfg, camera, ds, ts, f, n - 1);
    }
  }

  lemma {:induction false} NoPairsWithoutForklift(cfg: SafetyZoneConfig, ds: seq<Detection>, f: nat, n: nat)
    requires f < |ds| && ds[f].cls != Forklift
    ensures RowPairs(cfg, ds, f, n) == []
  {
    if n > 0 {
      NoPairsWithoutForklift(cfg, ds, f, n - 1);
    }
  }

  lemma RowsAppend(cfg: SafetyZoneConfig, camera: string, ts: int, persons: seq<Detection>,
                   forklifts: seq<Detection>, forklift: Detection)
    ensures Rows(camera, ts, ZonesOf(cfg, forklifts + [forklift]), persons)
            == Rows(camera, ts, ZonesOf(cfg, forklifts), persons)
               + Row(camera, ts, ZoneForForklift(cfg, forklift), persons)
  {
    assert (forklifts + [forklift])[..|forklifts|] == forklifts;
    var zones := ZonesOf(cfg, forklifts);
    assert (zones + [ZoneForForklift(cfg, forklift)])[..|zones|] == zones;
  }

  /** The alerts of the zones of the first `n` detections. */
  function GridAlerts(cfg: SafetyZoneConfig, camera: string, ds: seq<Detection>, ts: int, n: nat): seq<Alert>
    requires n <= |ds|
  {
    Rows(camera, ts, ZonesOf(cfg, OfClass(ds[..n], Forklift)), OfClass(ds, Person))
  }

  /** The alerts that the detection at `f` adds. */
  lemma GridStep(cfg: SafetyZoneConfig, camera: string, ds: seq<Detection>, ts: int, f: nat)
    returns (row: seq<Alert>)
    requires f < |ds|
    ensures AlertsOf(cfg, camera, ds, ts, RowPairs(cfg, ds, f, |ds|), row)
    ensures GridAlerts(cfg, camera, ds, ts, f + 1) == GridAlerts(cfg, camera, ds, ts, f) + row
  {
    PrefixStep(ds, f);
    if ds[f].cls == Forklift {
      RowPairsAreAlerts(cfg, camera, ds, ts, f, |ds|);
      assert ds[..|ds|] == ds;
      RowsAppend(cfg, camera, ts, OfClass(ds, Person), OfClass(ds[..f], Forklift), ds[f]);
      row := Row(camera, ts, ZoneForForklift(cfg, ds[f]), OfClass(ds, Person));
    } else {
      NoPairsWithoutForklift(cfg, ds, f, |ds|);
      row := [];
    }
  }

  lemma AlertsOfConcat(cfg: SafetyZoneConfig, camera: string, ds: seq<Detection>, ts: int,
                       pairs: seq<Pair>, alerts: seq<Alert>, pairs': seq<Pair>, alerts': seq<Alert>)
    requires AlertsOf(cfg, camera, ds, ts, pairs, alerts) && AlertsOf(cfg, camera, ds, ts, pairs', alerts')
    ensures AlertsOf(cfg, camera, ds, ts, pairs + pairs', alerts + alerts')
  {
    forall k | 0 <= k < |pairs + pairs'|
      ensures IsAlertOf(cfg, camera, ds, ts, (pairs + pairs')[k], (alerts + alerts')[k])
    {
      if k < |pairs| {
        assert IsAlertOf(cfg, camera, ds, ts, pairs[k], alerts[k]);
      } else {
        assert IsAlertOf(cfg, camera, ds, ts, pairs'[k - |pairs|], alerts'[k - |pairs|]);
      }
    }
  }

  lemma {:induction false} GridPairsAreAlerts(cfg: SafetyZoneConfig, camera: string, ds: seq<Detection>, ts: int, n: nat)
    requires n <= |ds|
    ensures AlertsOf(cfg, camera, ds, ts, GridPairs(cfg, ds, n), GridAlerts(cfg, camera, ds, ts, n))
  {
    if n == 0 {
      assert ds[..0] == [];
    } else {
      var f := n - 1;
      GridPairsAreAlerts(cfg, camera, ds, ts, f);
      var row := GridStep(cfg, camera, ds, ts, f);
      AlertsOfConcat(cfg, camera, ds, ts, GridPairs(cfg, ds, f), GridAlerts(cfg, camera, ds, ts, f),
                     RowPairs(cfg, ds, f, |ds|), row);
    }
  }

  /** `evaluate` reports exactly the overlapping pairs, in forklift-major detection order. */
  lemma EvaluateRefinesRelation(cfg: SafetyZoneConfig, camera: string, ds: seq<Detection>, ts: int)
    returns (pairs: seq<Pair>)
    ensures IsAlertOrder(cfg, ds, pairs)
    ensures AlertsOf(cfg, camera, ds, ts, pairs, Alerts(cfg, camera, ds, ts))
  {
    pairs := GridPairs(cfg, ds, |ds|);
    GridPairsOrdered(cfg, ds, |ds|);
    GridPairsAreAlerts(cfg, camera, ds, ts, |ds|);
    assert ds[..|ds|] == ds;
  }

  // ── The same in terms of the boxes and the configuration alone ──────────────

  /** One axis of a zone: the stretch from `low` of length `size`, padded on both sides, then moved
      to start at 0 if it would start before, its length kept. */
  ghost predicate IsPadded(low: real, size: real, pad: real, start: real, end: real) {
    && (low >= pad ==> start == low - pad)
    && (low < pad ==> start == 0.0)
    && (low >= pad && size + 2.0 * pad >= 0.0 ==> end == low + size + pad)
    && (low < pad && size + 2.0 * pad >= 0.0 ==> end == size + 2.0 * pad)
    && (size + 2.0 * pad < 0.0 ==> end == start)
  }

  ghost predicate IsPaddedBox(box: BoundingBox, padX: real, padY: real, zone: BoundingBox) {
    && IsPadded(box.x, box.width, padX, zone.x, zone.x + zone.width)
    && IsPadded(box.y, box.height, padY, zone.y, zone.y + zone.height)
  }

  /** The padding that the configuration asks for around this box. */
  ghost predicate Pads(cfg: SafetyZoneConfig, box: BoundingBox, padX: real, padY: real) {
    match cfg.mode
    case AbsolutePixels => padX == cfg.padX && padY == cfg.padY
    case RelativeToBox => padX == box.width * cfg.padRatio && padY == box.height * cfg.padRatio
  }

  /** The zone's four edges, in both modes. */
  ghost predicate ZoneAround(cfg: SafetyZoneConfig, box: BoundingBox, zone: BoundingBox) {
    exists padX, padY :: Pads(cfg, box, padX, padY) && IsPaddedBox(box, padX, padY, zone)
  }

  /** The stretch from `a` to `b` meets the padded one in more than an end point. */
  ghost predicate MeetsPadded(low: real, size: real, pad: real, a: real, b: real) {
    if size + 2.0 * pad < 0.0 then
      if low >= pad then a < low - pad < b else a < 0.0 < b
    else if low >= pad then
      a < low + size + pad && low - pad < b
    else
      a < size + 2.0 * pad && 0.0 < b
  }

  ghost predicate MeetsPaddedBox(forklift: BoundingBox, padX: real, padY: real, person: BoundingBox) {
    && MeetsPadded(forklift.x, forklift.width, padX, person.x, person.x + person.width)
    && MeetsPadded(forklift.y, forklift.height, padY, person.y, person.y + person.height)
  }

  /** The person's four edges against the forklift's four edges and the configured padding. */
  ghost predicate IsNear(cfg: SafetyZoneConfig, forklift: BoundingBox, person: BoundingBox) {
    exists padX, padY :: Pads(cfg, forklift, padX, padY) && MeetsPaddedBox(forklift, padX, padY, person)
  }

  /** The safety zone of a forklift: its own box and track, and edges that come from its box and
      the configuration alone. */
  lemma ZoneEdges(cfg: SafetyZoneConfig, forklift: Detection)
    ensures var zone := ZoneForForklift(cfg, forklift);
      && zone.forkliftTrackId == forklift.trackId && zone.forkliftBox == forklift.box
      && ZoneAround(cfg, forklift.box, zone.zoneBox)
  {
    var padX, padY := PadX(cfg, forklift.box), PadY(cfg, forklift.box);
    assert Pads(cfg, forklift.box, padX, padY);
    assert IsPaddedBox(forklift.box, padX, padY, forklift.box.Expanded(padX, padY));
  }

  lemma PaddedMeets(low: real, size: real, pad: real, start: real, end: real, a: real, b: real)
    requires IsPadded(low, size, pad, start, end)
    ensures a < end && start < b <==> MeetsPadded(low, size, pad, a, b)
  {
  }

  lemma PaddedBoxMeets(box: BoundingBox, padX: real, padY: real, zone: BoundingBox, person: BoundingBox)
    requires IsPaddedBox(box, padX, padY, zone)
    ensures zone.Intersects(person) <==> MeetsPaddedBox(box, padX, padY, person)
  {
    PaddedMeets(box.x, box.width, padX, zone.x, zone.x + zone.width, person.x, person.x + person.width);
    PaddedMeets(box.y, box.height, padY, zone.y, zone.y + zone.height, person.y, person.y + person.height);
  }

  lemma NearWithPads(box: BoundingBox, padX: real, padY: real, person: BoundingBox)
    ensures box.Expanded(padX, padY).Intersects(person) <==> MeetsPaddedBox(box, padX, padY, person)
  {
    PaddedBoxMeets(box, padX, padY, box.Expanded(padX, padY), person);
  }

  lemma NearExactly(cfg: SafetyZoneConfig, forklift: Detection, person: Detection)
    ensures ZoneForForklift(cfg, forklift).Overlaps(person.box) <==> IsNear(cfg, forklift.box, person.box)
  {
    var box := forklift.box;
    var padX, padY := PadX(cfg, box), PadY(cfg, box);
    NearWithPads(box, padX, padY, person.box);
    assert Pads(cfg, box, padX, padY);
  }

  /** Alert `a` says that `person` is near `forklift`. */
  ghost predicate Reports(cfg: SafetyZoneConfig, camera: string, ts: int,
                          forklift: Detection, person: Detection, a: Alert) {
    && a.alertId == camera + ":F" + PrintInt(forklift.trackId) + ":P" + PrintInt(person.trackId) + ":" + PrintInt(ts)
    && a.cameraId == camera && a.timestamp == ts
    && a.alertType == PersonNearForklift && a.severity == Warning && a.distancePx == 0.0
    && a.forkliftTrackId == forklift.trackId && a.personTrackId == person.trackId
    && a.forkliftBox == forklift.box && a.personBox == person.box
    && ZoneAround(cfg, forklift.box, a.safetyZoneBox)
  }

  lemma AlertReports(cfg: SafetyZoneConfig, camera: string, ts: int, forklift: Detection, person: Detection)
    ensures Reports(cfg, camera, ts, forklift, person, MakeAlert(camera, ts, ZoneForForklift(cfg, forklift), person))
  {
    ZoneEdges(cfg, forklift);
    AlertIdText(camera, forklift.trackId, person.trackId, ts);
  }

  /** `evaluate` alerts a pair of detections exactly if they are a forklift and a person near it:
      one alert per pair, forklift-major in detection order, with the data of its two detections. */
  lemma EvaluateExactly(cfg: SafetyZoneConfig, camera: string, ds: seq<Detection>, ts: int)
    returns (pairs: seq<Pair>)
    ensures Ascending(pairs) && |Alerts(cfg, camera, ds, ts)| == |pairs|
    ensures forall f: nat, p: nat :: Pair(f, p) in pairs <==>
              && f < |ds| && p < |ds| && ds[f].cls == Forklift && ds[p].cls == Person
              && IsNear(cfg, ds[f].box, ds[p].box)
    ensures forall k :: 0 <= k < |pairs| ==>
              && InBounds(ds, pairs[k])
              && Reports(cfg, camera, ts, ds[pairs[k].forklift], ds[pairs[k].person], Alerts(cfg, camera, ds, ts)[k])
  {
    pairs := EvaluateRefinesRelation(cfg, camera, ds, ts);
    forall f: nat, p: nat
      ensures Pair(f, p) in pairs <==>
                && f < |ds| && p < |ds| && ds[f].cls == Forklift && ds[p].cls == Person
                && IsNear(cfg, ds[f].box, ds[p].box)
    {
      if f < |ds| && p < |ds| {
        NearExactly(cfg, ds[f], ds[p]);
      }
      assert Pair(f, p) in pairs <==> InZone(cfg, ds, Pair(f, p));
    }
    forall k | 0 <= k < |pairs|
      ensures InBounds(ds, pairs[k])
      ensures Reports(cfg, camera, ts, ds[pairs[k].forklift], ds[pairs[k].person], Alerts(cfg, camera, ds, ts)[k])
    {
      assert IsAlertOf(cfg, camera, ds, ts, pairs[k], Alerts(cfg, camera, ds, ts)[k]);
      AlertReports(cfg, camera, ts, ds[pairs[k].forklift], ds[pairs[k].person]);
    }
  }

  // ── Order of detections ─────────────────────────────────────────────────────

  /** Each loop of the decision path, seen as one concatenation over what it walks. */
  function Flat<A, B>(f: A -> seq<B>, s: seq<A>): seq<B> {
    if s == [] then [] else Flat(f, s[..|s| - 1]) + f(s[|s| - 1])
  }

  function AsZone(cfg: SafetyZoneConfig): Detection -> seq<SafetyZone> {
    (forklift: Detection) => [ZoneForForklift(cfg, forklift)]
  }

  function Only(cls: ObjectClass): Detection -> seq<Detection> {
    (d: Detection) => if d.cls == cls then [d] else []
  }

  function Cell(camera: string, ts: int, zone: SafetyZone): Detection -> seq<Alert> {
    (person: Detection) => if zone.Overlaps(person.box) then [MakeAlert(camera, ts, zone, person)] else []
  }

  function RowOf(camera: string, ts: int, persons: seq<Detection>): SafetyZone -> seq<Alert> {
    (zone: SafetyZone) => Row(camera, ts, zone, persons)
  }

  lemma {:induction false} ZonesAreFlat(cfg: SafetyZoneConfig, forklifts: seq<Detection>)
    ensures ZonesOf(cfg, forklifts) == Flat(AsZone(cfg), forklifts)
  {
    if forklifts != [] {
      ZonesAreFlat(cfg, forklifts[..|forklifts| - 1]);
    }
  }

  lemma {:induction false} OfClassIsFlat(ds: seq<Detection>, cls: ObjectClass)
    ensures OfClass(ds, cls) == Flat(Only(cls), ds)
  {
    if ds != [] {
      OfClassIsFlat(ds[..|ds| - 1], cls);
    }
  }

  lemma {:induction false} RowIsFlat(camera: string, ts: int, zone: SafetyZone, persons: seq<Detection>)
    ensures Row(camera, ts, zone, persons) == Flat(Cell(camera, ts, zone), persons)
  {
    if persons != [] {
      RowIsFlat(camera, ts, zone, persons[..|persons| - 1]);
    }
  }

  lemma {:induction false} RowsAreFlat(camera: string, ts: int, zones: seq<SafetyZone>, persons: seq<Detection>)
    ensures Rows(camera, ts, zones, persons) == Flat(RowOf(camera, ts, persons), zones)
  {
    if zones != [] {
      RowsAreFlat(camera, ts, zones[..|zones| - 1], persons);
    }
  }

  lemma FlatAppend<A, B>(f: A -> seq<B>, s: seq<A>, x: A)
    ensures Flat(f, s + [x]) == Flat(f, s) + f(x)
  {
    assert (s + [x])[..|s|] == s;
  }

  lemma {:induction false} FlatConcat<A, B>(f: A -> seq<B>, s: seq<A>, t: seq<A>)
    ensures Flat(f, s + t) == Flat(f, s) + Flat(f, t)
  {
    if t == [] {
      assert s + t == s;
    } else {
      var n := |t| - 1;
      FlatConcat(f, s, t[..n]);
      assert (s + t)[..|s + t| - 1] == s + t[..n];
    }
  }

  lemma {:induction false} FlatPermutes<A, B>(f: A -> seq<B>, s: seq<A>, t: seq<A>)
    requires multiset(s) == multiset(t)
    ensures multiset(Flat(f, s)) == multiset(Flat(f, t))
    decreases |s|
  {
    if s == [] {
      assert |multiset(t)| == 0;
      assert t == [];
    } else {
      var n := |s| - 1;
      var x := s[n];
      assert s == s[..n] + [x];
      assert multiset(s[..n]) == multiset(s) - multiset{x};
      assert x in multiset(t);
      var k :| 0 <= k < |t| && t[k] == x;
      var rest := t[..k] + t[k + 1..];
      assert t == t[..k] + [x] + t[k + 1..];
      assert multiset(rest) == multiset(t) - multiset{x};
      FlatPermutes(f, s[..n], rest);
      FlatAppend(f, s[..n], x);
      FlatAppend(f, t[..k], x);
      FlatConcat(f, t[..k] + [x], t[k + 1..]);
      FlatConcat(f, t[..k], t[k + 1..]);
    }
  }

  lemma {:induction false} FlatPointwise<A, B>(f: A -> seq<B>, g: A -> seq<B>, s: seq<A>)
    requires forall x :: x in s ==> multiset(f(x)) == multiset(g(x))
    ensures multiset(Flat(f, s)) == multiset(Flat(g, s))
  {
    if s != [] {
      FlatPointwise(f, g, s[..|s| - 1]);
      assert s[|s| - 1] in s;
    }
  }

  lemma OfClassPermutes(ds: seq<Detection>, ds': seq<Detection>, cls: ObjectClass)
    requires multiset(ds) == multiset(ds')
    ensures multiset(OfClass(ds, cls)) == multiset(OfClass(ds', cls))
  {
    OfClassIsFlat(ds, cls);
    OfClassIsFlat(ds', cls);
    FlatPermutes(Only(cls), ds, ds');
  }

  lemma ZonesPermute(cfg: SafetyZoneConfig, fs: seq<Detection>, fs': seq<Detection>)
    requires multiset(fs) == multiset(fs')
    ensures multiset(ZonesOf(cfg, fs)) == multiset(ZonesOf(cfg, fs'))
  {
    ZonesAreFlat(cfg, fs);
    ZonesAreFlat(cfg, fs');
    FlatPermutes(AsZone(cfg), fs, fs');
  }

  lemma RowPermutes(camera: string, ts: int, zone: SafetyZone, ps: seq<Detection>, ps': seq<Detection>)
    requires multiset(ps) == multiset(ps')
    ensures multiset(Row(camera, ts, zone, ps)) == multiset(Row(camera, ts, zone, ps'))
  {
    RowIsFlat(camera, ts, zone, ps);
    RowIsFlat(camera, ts, zone, ps');
    FlatPermutes(Cell(camera, ts, zone), ps, ps');
  }

  lemma RowsPermute(camera: string, ts: int, zones: seq<SafetyZone>, zones': seq<SafetyZone>,
                    ps: seq<Detection>, ps': seq<Detection>)
    requires multiset(zones) == multiset(zones') && multiset(ps) == multiset(ps')
    ensures multiset(Rows(camera, ts, zones, ps)) == multiset(Rows(camera, ts, zones', ps'))
  {
    RowsAreFlat(camera, ts, zones, ps);
    RowsAreFlat(camera, ts, zones', ps');
    var row, row' := RowOf(camera, ts, ps), RowOf(camera, ts, ps');
    forall z | z in zones ensures multiset(row(z)) == multiset(row'(z)) {
      RowPermutes(camera, ts, z, ps, ps');
    }
    FlatPointwise(row, row', zones);
    FlatPermutes(row', zones, zones');
  }

  /** Reordering the detections of a frame only reorders its alerts. */
  lemma PermutingDetectionsPermutesAlerts(cfg: SafetyZoneConfig, camera: string, ts: int,
                                          ds: seq<Detection>, ds': seq<Detection>)
    requires multiset(ds) == multiset(ds')
    ensures multiset(Alerts(cfg, camera, ds, ts)) == multiset(Alerts(cfg, camera, ds', ts))
  {
    var fs, fs' := OfClass(ds, Forklift), OfClass(ds', Forklift);
    OfClassPermutes(ds, ds', Person);
    OfClassPermutes(ds, ds', Forklift);
    ZonesPermute(cfg, fs, fs');
    RowsPermute(camera, ts, ZonesOf(cfg, fs), ZonesOf(cfg, fs'), OfClass(ds, Person), OfClass(ds', Person));
  }

  // ── Padding ─────────────────────────────────────────────────────────────────

  predicate ValidConfig(cfg: SafetyZoneConfig) {
    cfg.padX >= 0.0 && cfg.padY >= 0.0 && cfg.padRatio >= 0.0
  }

  predicate NonNegativeBoxes(ds: seq<Detection>) {
    forall i :: 0 <= i < |ds| ==> ds[i].box.NonNegative()
  }

  predicate PadsAtMost(cfg: SafetyZoneConfig, cfg': SafetyZoneConfig) {
    cfg.mode == cfg'.mode && cfg.padX <= cfg'.padX && cfg.padY <= cfg'.padY && cfg.padRatio <= cfg'.padRatio
  }

  lemma ProductMonotone(size: real, r: real, r': real)
    requires 0.0 <= size && 0.0 <= r <= r'
    ensures 0.0 <= size * r <= size * r'
  {
    assert size * (r' - r) >= 0.0;
  }

  lemma PadsGrow(cfg: SafetyZoneConfig, cfg': SafetyZoneConfig, box: BoundingBox)
    requires ValidConfig(cfg) && PadsAtMost(cfg, cfg') && box.NonNegative()
    ensures 0.0 <= PadX(cfg, box) <= PadX(cfg', box)
    ensures 0.0 <= PadY(cfg, box) <= PadY(cfg', box)
  {
    ProductMonotone(box.width, cfg.padRatio, cfg'.padRatio);
    ProductMonotone(box.height, cfg.padRatio, cfg'.padRatio);
  }

  lemma WiderPadsMeetMore(box: BoundingBox, px: real, py: real, px': real, py': real, other: BoundingBox)
    requires box.NonNegative() && 0.0 <= px <= px' && 0.0 <= py <= py'
    requires box.Expanded(px, py).Intersects(other)
    ensures box.Expanded(px', py').Intersects(other)
  {
    PaddingGrowsBox(box, px, py, px', py');
    EnclosingMeetsMore(box.Expanded(px', py'), box.Expanded(px, py), other);
  }

  /** More padding, absolute or relative, never removes an alerting pair. */
  lemma MorePaddingMoreAlerts(cfg: SafetyZoneConfig, cfg': SafetyZoneConfig, ds: seq<Detection>, pr: Pair)
    requires ValidConfig(cfg) && PadsAtMost(cfg, cfg') && NonNegativeBoxes(ds)
    requires InZone(cfg, ds, pr)
    ensures InZone(cfg', ds, pr)
  {
    var box := ds[pr.forklift].box;
    PadsGrow(cfg, cfg', box);
    WiderPadsMeetMore(box, PadX(cfg, box), PadY(cfg, box), PadX(cfg', box), PadY(cfg', box), ds[pr.person].box);
  }

  /** End to end: every alert raised with the smaller padding is raised, but for its wider
      zone, with the larger one. */
  lemma AlertsGrowWithPadding(cfg: SafetyZoneConfig, cfg': SafetyZoneConfig, camera: string,
                              ds: seq<Detection>, ts: int, a: Alert)
    requires ValidConfig(cfg) && PadsAtMost(cfg, cfg') && NonNegativeBoxes(ds)
    requires a in Alerts(cfg, camera, ds, ts)
    ensures exists zone :: a.(safetyZoneBox := zone) in Alerts(cfg', camera, ds, ts)
  {
    var pairs := EvaluateRefinesRelation(cfg, camera, ds, ts);
    var pairs' := EvaluateRefinesRelation(cfg', camera, ds, ts);
    var k :| 0 <= k < |pairs| && a == Alerts(cfg, camera, ds, ts)[k];
    MorePaddingMoreAlerts(cfg, cfg', ds, pairs[k]);
    var k' :| 0 <= k' < |pairs'| && pairs'[k'] == pairs[k];
    var b := Alerts(cfg', camera, ds, ts)[k'];
    assert b == a.(safetyZoneBox := b.safetyZoneBox);
  }

  lemma PairIsAlerted(cfg: SafetyZoneConfig, camera: string, ds: seq<Detection>, ts: int, pr: Pair)
    requires InZone(cfg, ds, pr)
    ensures AlertAt(cfg, camera, ds, ts, pr) in Alerts(cfg, camera, ds, ts)
  {
    var pairs := EvaluateRefinesRelation(cfg, camera, ds, ts);
    var k :| 0 <= k < |pairs| && pairs[k] == pr;
    assert Alerts(cfg, camera, ds, ts)[k] == AlertAt(cfg, camera, ds, ts, pr);
  }

  /** The two detections are a forklift and a person whose box reaches into the frame and into
      the forklift's padded, unclamped box. */
  ghost predicate InPaddedBox(cfg: SafetyZoneConfig, ds: seq<Detection>, pr: Pair) {
    && InBounds(ds, pr)
    && ds[pr.forklift].cls == Forklift && ds[pr.person].cls == Person
    && ds[pr.person].box.Right() > 0.0 && ds[pr.person].box.Bottom() > 0.0
    && var box := ds[pr.forklift].box;
       box.Padded(PadX(cfg, box), PadY(cfg, box)).Intersects(ds[pr.person].box)
  }

  lemma PaddedBoxIsInZone(cfg: SafetyZoneConfig, ds: seq<Detection>, pr: Pair)
    requires ValidConfig(cfg) && NonNegativeBoxes(ds) && InPaddedBox(cfg, ds, pr)
    ensures InZone(cfg, ds, pr)
  {
    var box := ds[pr.forklift].box;
    PadsGrow(cfg, cfg, box);
    ClampingLosesNothing(box, PadX(cfg, box), PadY(cfg, box), ds[pr.person].box);
  }

  /** Such a person is alerted, even where the zone had to be clamped. */
  lemma ClampedZoneStillAlerts(cfg: SafetyZoneConfig, camera: string, ds: seq<Detection>, ts: int, pr: Pair)
    requires ValidConfig(cfg) && NonNegativeBoxes(ds) && InPaddedBox(cfg, ds, pr)
    ensures AlertAt(cfg, camera, ds, ts, pr) in Alerts(cfg, camera, ds, ts)
  {
    PaddedBoxIsInZone(cfg, ds, pr);
    PairIsAlerted(cfg, camera, ds, ts, pr);
  }

  // ── The viewer's zones ──────────────────────────────────────────────────────

  /** The zones the live view draws for a frame: the pipeline filters the forklifts itself and
      asks the zone service again. */
  method ViewerZones(cfg: SafetyZoneConfig, ds: seq<Detection>) returns (zones: seq<SafetyZone>)
    ensures zones == ZonesOf(cfg, OfClass(ds, Forklift))
    ensures forall f :: f in ds && f.cls == Forklift ==> ZoneForForklift(cfg, f) in zones
  {
    var forklifts: seq<Detection> := [];
    for i := 0 to |ds|
      invariant forklifts == OfClass(ds[..i], Forklift)
    {
      PrefixStep(ds, i);
      if ds[i].cls == Forklift {
        forklifts := forklifts + [ds[i]];
      }
    }
    assert ds[..|ds|] == ds;
    zones := ZonesFor(cfg, forklifts);
    forall f | f in ds && f.cls == Forklift ensures ZoneForForklift(cfg, f) in zones {
      ForkliftHasZone(cfg, ds, f);
    }
  }

  lemma {:induction false} FlatMember<A, B>(f: A -> seq<B>, s: seq<A>, x: A, y: B)
    requires x in s && y in f(x)
    ensures y in Flat(f, s)
  {
    if x != s[|s| - 1] {
      FlatMember(f, s[..|s| - 1], x, y);
    }
  }

  lemma ForkliftHasZone(cfg: SafetyZoneConfig, ds: seq<Detection>, f: Detection)
    requires f in ds && f.cls == Forklift
    ensures ZoneForForklift(cfg, f) in ZonesOf(cfg, OfClass(ds, Forklift))
  {
    OfClassIsFlat(ds, Forklift);
    ZonesAreFlat(cfg, OfClass(ds, Forklift));
    FlatMember(Only(Forklift), ds, f, f);
    FlatMember(AsZone(cfg), OfClass(ds, Forklift), f, ZoneForForklift(cfg, f));
  }

  /** Every alert's zone is one the viewer shows for the same frame.  The risk service works with a
      copy of the zone service the viewer is given, so one `cfg` stands for both. */
  lemma AlertZonesAreShown(cfg: SafetyZoneConfig, camera: string, ds: seq<Detection>, ts: int, a: Alert)
    requires a in Alerts(cfg, camera, ds, ts)
    ensures SafetyZone(a.forkliftBox, a.safetyZoneBox, a.forkliftTrackId) in ZonesOf(cfg, OfClass(ds, Forklift))
  {
    var pairs := EvaluateRefinesRelation(cfg, camera, ds, ts);
    var k :| 0 <= k < |pairs| && a == Alerts(cfg, camera, ds, ts)[k];
    ForkliftHasZone(cfg, ds, ds[pairs[k].forklift]);
  }
}
