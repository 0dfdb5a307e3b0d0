/**
  The live viewer: a store of the latest JPEG and detection text per camera, and the polling
  sessions that send only when something changed.
 */
module Viewer {
  import opened Arithmetic
  import opened Wrappers

  /** A stored JPEG.  `id` is its identity: sessions compare the shared pointer, not the bytes,
      and no two stored JPEGs share one. */
  datatype Jpeg = Jpeg(id: nat, bytes: string)

  datatype DetEntry = DetEntry(json: string, seqNo: nat)

  /** `detOrder` is the order in which iteration meets the cameras of `dets`; inserting a camera
      may reshuffle it, overwriting one does not.  `stored` lists the JPEGs ever stored. */
  datatype Store = Store(
    latest: map<string, Jpeg>,
    cameraOrder: seq<string>,
    dets: map<string, DetEntry>,
    detOrder: seq<string>,
    globalSeq: nat,
    stored: seq<string>)

  const EmptyStore := Store(map[], [], map[], [], 0, [])

  function StoreJpeg(st: Store, cam: string, bytes: string): Store {
    st.(latest := st.latest[cam := Jpeg(|st.stored|, bytes)],
        cameraOrder := if cam in st.latest then st.cameraOrder else st.cameraOrder + [cam],
        stored := st.stored + [bytes])
  }

  function LatestFor(st: Store, cam: string): Option<Jpeg> {
    var key := if cam == "" && st.cameraOrder != [] then st.cameraOrder[0] else cam;
    if key in st.latest then Some(st.latest[key]) else None
  }

  function StoreDets(st: Store, cam: string, json: string, order: seq<string>): Store {
    var seqNo := if cam in st.dets then st.dets[cam].seqNo else 0;
    st.(dets := st.dets[cam := DetEntry(json, seqNo + 1)],
        detOrder := if cam in st.dets then st.detOrder else order,
        globalSeq := st.globalSeq + 1)
  }

  /** One event of the SSE stream. */
  function Event(json: string): string {
    "data: " + json + "\n\n"
  }

  function Events(dets: map<string, DetEntry>, order: seq<string>): string {
    if order == [] then ""
    else
      var cam := order[|order| - 1];
      var before := Events(dets, order[..|order| - 1]);
      if cam !in dets || dets[cam].json == "" then before else before + Event(dets[cam].json)
  }

  /** What a session of this camera would send now ("" if nothing), and its sequence number;
      the empty camera name means all cameras. */
  function Current(st: Store, cam: string): (string, nat) {
    if cam == "" then (Events(st.dets, st.detOrder), st.globalSeq)
    else if cam !in st.dets then ("", 0)
    else (if st.dets[cam].json == "" then "" else Event(st.dets[cam].json), st.dets[cam].seqNo)
  }

  /** The text publish_detections stores; only its beginning matters here. */
  function DetectionText(cam: string, rest: string): string {
    "{\"camera\":\"" + cam + rest
  }

  // ── The store's invariant ───────────────────────────────────────────────────

  ghost predicate NoDuplicates(s: seq<string>) {
    forall i, j :: 0 <= i < j < |s| ==> s[i] != s[j]
  }

  /** `order` names each of the keys once. */
  ghost predicate Lists(order: seq<string>, keys: set<string>) {
    NoDuplicates(order) && forall c :: c in order <==> c in keys
  }

  ghost function SumSeq(cams: set<string>, dets: map<string, DetEntry>): nat
    requires forall c :: c in cams ==> c in dets
  {
    if cams == {} then 0
    else
      var c :| c in cams;
      dets[c].seqNo + SumSeq(cams - {c}, dets)
  }

  lemma {:induction false} SumPick(cams: set<string>, dets: map<string, DetEntry>, c: string)
    requires c in cams && forall k :: k in cams ==> k in dets
    ensures SumSeq(cams, dets) == dets[c].seqNo + SumSeq(cams - {c}, dets)
    decreases |cams|
  {
    var first :| first in cams && SumSeq(cams, dets) == dets[first].seqNo + SumSeq(cams - {first}, dets);
    if first != c {
      SumPick(cams - {first}, dets, c);
      SumPick(cams - {c}, dets, first);
      assert cams - {first} - {c} == cams - {c} - {first};
    }
  }

  lemma {:induction false} SumSame(cams: set<string>, dets: map<string, DetEntry>, dets': map<string, DetEntry>)
    requires forall k :: k in cams ==> k in dets && k in dets' && dets[k].seqNo == dets'[k].seqNo
    ensures SumSeq(cams, dets) == SumSeq(cams, dets')
    decreases |cams|
  {
    if cams != {} {
      var c :| c in cams;
      SumPick(cams, dets, c);
      SumPick(cams, dets', c);
      SumSame(cams - {c}, dets, dets');
    }
  }

  ghost predicate FramesSound(st: Store) {
    && Lists(st.cameraOrder, st.latest.Keys)
    && forall c :: c in st.latest ==> st.latest[c].id < |st.stored| && st.latest[c].bytes == st.stored[st.latest[c].id]
  }

  ghost predicate DetsSound(st: Store) {
    && Lists(st.detOrder, st.dets.Keys)
    && (forall c :: c in st.dets ==> st.dets[c].seqNo >= 1 && st.dets[c].json != "")
    && st.globalSeq == SumSeq(st.dets.Keys, st.dets)
  }

  /** Looking up a camera by name: nothing at first, then what was last stored for that camera, and
      under a new identity each time. */
  lemma LookupAfterStore(st: Store, cam: string, bytes: string, c: string)
    requires c != ""
    ensures LatestFor(EmptyStore, c) == None
    ensures LatestFor(StoreJpeg(st, cam, bytes), c)
            == if c == cam then Some(Jpeg(|st.stored|, bytes)) else LatestFor(st, c)
  {
  }

  lemma StoreJpegKeeps(st: Store, cam: string, bytes: string)
    requires FramesSound(st)
    ensures FramesSound(StoreJpeg(st, cam, bytes))
  {
    var st' := StoreJpeg(st, cam, bytes);
    assert cam in st'.cameraOrder;
  }

  /** One more update makes the sum of the numbers one larger. */
  lemma SumAfterStore(dets: map<string, DetEntry>, cam: string, json: string)
    ensures var seqNo := if cam in dets then dets[cam].seqNo else 0;
      var dets' := dets[cam := DetEntry(json, seqNo + 1)];
      SumSeq(dets'.Keys, dets') == SumSeq(dets.Keys, dets) + 1
  {
    var seqNo := if cam in dets then dets[cam].seqNo else 0;
    var dets' := dets[cam := DetEntry(json, seqNo + 1)];
    var others := dets.Keys - {cam};
    assert dets'.Keys - {cam} == others;
    SumPick(dets'.Keys, dets', cam);
    SumSame(others, dets, dets');
    if cam in dets {
      SumPick(dets.Keys, dets, cam);
    } else {
      assert others == dets.Keys;
    }
  }

  lemma StoreDetsKeeps(st: Store, cam: string, json: string, order: seq<string>)
    requires DetsSound(st) && json != ""
    requires cam !in st.dets ==> Lists(order, st.dets.Keys + {cam})
    ensures DetsSound(StoreDets(st, cam, json, order))
  {
    var st' := StoreDets(st, cam, json, order);
    assert Lists(st'.detOrder, st'.dets.Keys) by {
      assert st'.dets.Keys == st.dets.Keys + {cam};
    }
    assert st'.globalSeq == SumSeq(st'.dets.Keys, st'.dets) by {
      SumAfterStore(st.dets, cam, json);
    }
  }

  lemma StoreDetsKeepsFrames(st: Store, cam: string, json: string, order: seq<string>)
    requires FramesSound(st)
    ensures FramesSound(StoreDets(st, cam, json, order))
  {
  }

  // ── The store object ────────────────────────────────────────────────────────

  class SharedState {
    var latest: map<string, Jpeg>
    var cameraOrder: seq<string>
    var dets: map<string, DetEntry>
    var detOrder: seq<string>
    var globalSeq: nat
    var stored: seq<string>

    ghost function View(): Store
      reads this
    {
      Store(latest, cameraOrder, dets, detOrder, globalSeq, stored)
    }

    ghost predicate Valid()
      reads this
    {
      FramesSound(View()) && DetsSound(View())
    }

    constructor ()
      ensures Valid() && View() == EmptyStore
    {
      latest, cameraOrder, dets, detOrder, globalSeq, stored := map[], [], map[], [], 0, [];
    }

    method FindLatest(cam: string) returns (jpeg: Option<Jpeg>)
      ensures jpeg == LatestFor(View(), cam)
      ensures cam != "" ==> jpeg == if cam in latest then Some(latest[cam]) else None
    {
      if cam == "" && |cameraOrder| > 0 {
        var first := cameraOrder[0];
        return if first in latest then Some(latest[first]) else None;
      }
      return if cam in latest then Some(latest[cam]) else None;
    }

    method PutJpeg(cam: string, bytes: string)
      requires Valid()
      modifies this`latest, this`cameraOrder, this`stored
      ensures Valid() && View() == StoreJpeg(old(View()), cam, bytes)
    {
      StoreJpegKeeps(View(), cam, bytes);
      if cam !in latest {
        cameraOrder := cameraOrder + [cam];
      }
      latest := latest[cam := Jpeg(|stored|, bytes)];
      stored := stored + [bytes];
    }

    /** `order` is where the map's iteration meets the cameras if this insertion rehashes it. */
    method PutDets(cam: string, json: string, order: seq<string>)
      requires Valid() && json != ""
      requires cam !in dets ==> Lists(order, dets.Keys + {cam})
      modifies this`dets, this`detOrder, this`globalSeq
      ensures Valid() && View() == StoreDets(old(View()), cam, json, order)
    {
      ghost var st := View();
      StoreDetsKeeps(st, cam, json, order);
      StoreDetsKeepsFrames(st, cam, json, order);
      var seqNo := 0;
      if cam in dets {
        seqNo := dets[cam].seqNo;
      } else {
        detOrder := order;
      }
      dets := dets[cam := DetEntry(json, seqNo + 1)];
      globalSeq := globalSeq + 1;
      assert View() == StoreDets(st, cam, json, order);
    }

    method FindDetsAll() returns (payload: string, seqNo: nat)
      requires Valid()
      ensures (payload, seqNo) == Current(View(), "")
    {
      payload := "";
      for i := 0 to |detOrder|
        invariant payload == Events(dets, detOrder[..i])
      {
        assert detOrder[..i + 1][..i] == detOrder[..i];
        assert detOrder[i] in dets;
        var entry := dets[detOrder[i]];
        if entry.json == "" {
          continue;
        }
        payload := payload + ("data: " + entry.json + "\n\n");
      }
      assert detOrder[..|detOrder|] == detOrder;
      seqNo := globalSeq;
    }
  }

  // ── Sessions ────────────────────────────────────────────────────────────────

  /** `sent` and `emitted` are what the session has sent so far and with which numbers. */
  datatype Sse = Sse(camera: string, lastSeq: nat, sent: seq<string>, emitted: seq<nat>)
  datatype Mjpeg = Mjpeg(camera: string, lastSent: Option<Jpeg>, shown: seq<Jpeg>)

  function SseTick(s: Sse, st: Store): (Sse, Option<string>) {
    var (payload, seqNo) := Current(st, s.camera);
    if payload != "" && seqNo != s.lastSeq then
      (s.(lastSeq := seqNo, sent := s.sent + [payload], emitted := s.emitted + [seqNo]), Some(payload))
    else (s, None)
  }

  predicate SamePointer(a: Jpeg, b: Option<Jpeg>) {
    b.Some? && a.id == b.value.id
  }

  function MjpegTick(m: Mjpeg, st: Store): (Mjpeg, Option<Jpeg>) {
    var jpeg := LatestFor(st, m.camera);
    if jpeg.Some? && !SamePointer(jpeg.value, m.lastSent) then
      (m.(lastSent := jpeg, shown := m.shown + [jpeg.value]), jpeg)
    else (m, None)
  }

  function LastSentText(s: Sse): string {
    if s.sent == [] then "" else s.sent[|s.sent| - 1]
  }

  class SseSession {
    const camera: string
    var lastSeq: nat
    ghost var sent: seq<string>
    ghost var emitted: seq<nat>

    ghost function View(): Sse
      reads this
    {
      Sse(camera, lastSeq, sent, emitted)
    }

    constructor (camera: string)
      ensures View() == Sse(camera, 0, [], [])
    {
      this.camera, lastSeq, sent, emitted := camera, 0, [], [];
    }

    method Tick(state: SharedState) returns (out: Option<string>)
      requires state.Valid()
      modifies this`lastSeq, this`sent, this`emitted
      ensures (View(), out) == SseTick(old(View()), state.View())
      ensures sent == old(sent) + (match out case None => [] case Some(text) => [text])
    {
      if camera == "" {
        var payload, seqNo := state.FindDetsAll();
        if payload != "" && seqNo != lastSeq {
          lastSeq := seqNo;
          sent, emitted := sent + [payload], emitted + [seqNo];
          return Some(payload);
        }
        return None;
      }
      var json, seqNo := "", 0;
      if camera in state.dets {
        json, seqNo := state.dets[camera].json, state.dets[camera].seqNo;
      }
      if json != "" && seqNo != lastSeq {
        lastSeq := seqNo;
        out := Some("data: " + json + "\n\n");
        sent, emitted := sent + [out.value], emitted + [seqNo];
        return;
      }
      return None;
    }
  }

  class MjpegSession {
    const camera: string
    var lastSent: Option<Jpeg>
    ghost var shown: seq<Jpeg>

    ghost function View(): Mjpeg
      reads this
    {
      Mjpeg(camera, lastSent, shown)
    }

    constructor (camera: string)
      ensures View() == Mjpeg(camera, None, [])
    {
      this.camera, lastSent, shown := camera, None, [];
    }

    method Tick(state: SharedState) returns (out: Option<Jpeg>)
      modifies this`lastSent, this`shown
      ensures (View(), out) == MjpegTick(old(View()), state.View())
      ensures shown == old(shown) + (match out case None => [] case Some(jpeg) => [jpeg])
    {
      var jpeg := state.FindLatest(camera);
      if jpeg.Some? && !SamePointer(jpeg.value, lastSent) {
        lastSent := jpeg;
        shown := shown + [jpeg.value];
        return jpeg;
      }
      return None;
    }
  }

  // ── Coherence of the sessions with the store ────────────────────────────────

  /** The session's number never runs ahead of the store, and while it equals the store's the
      last text sent is the current one. */
  ghost predicate SseCoherent(s: Sse, st: Store) {
    var (payload, seqNo) := Current(st, s.camera);
    && |s.sent| == |s.emitted|
    && Increasing(s.emitted)
    && s.lastSeq == (if s.emitted == [] then 0 else s.emitted[|s.emitted| - 1])
    && s.lastSeq <= seqNo
    && (s.lastSeq == seqNo ==> LastSentText(s) == payload)
  }

  ghost predicate MjpegCoherent(m: Mjpeg, st: Store) {
    && m.lastSent == (if m.shown == [] then None else Some(m.shown[|m.shown| - 1]))
    && (forall k :: 0 <= k < |m.shown| ==> m.shown[k].id < |st.stored| && m.shown[k].bytes == st.stored[m.shown[k].id])
    && (forall j, k :: 0 <= j < k < |m.shown| ==> m.shown[j].id < m.shown[k].id)
    && (m.lastSent.Some? ==> LatestFor(st, m.camera).Some? && m.lastSent.value.id <= LatestFor(st, m.camera).value.id)
  }

  lemma {:induction false} EventsNonEmpty(dets: map<string, DetEntry>, order: seq<string>)
    requires order != [] && forall c :: c in order ==> c in dets && dets[c].json != ""
    ensures Events(dets, order) != ""
  {
  }

  /** There is something to send exactly once something has been stored. */
  lemma CurrentIsEmptyExactly(st: Store, cam: string)
    requires DetsSound(st)
    ensures Current(st, cam).0 == "" <==> Current(st, cam).1 == 0
  {
    if cam == "" {
      if st.detOrder != [] {
        EventsNonEmpty(st.dets, st.detOrder);
        var c := st.detOrder[0];
        assert c in st.detOrder;
        SumPick(st.dets.Keys, st.dets, c);
      } else {
        assert st.dets.Keys == {} by {
          assert forall c :: c in st.dets.Keys ==> c in st.detOrder;
        }
      }
    }
  }

  /** A tick that sends nothing means the client already has the current text; a tick that
      sends brings it up to date with a higher number than any before. */
  lemma SseTickIsCoherent(s: Sse, st: Store)
    requires DetsSound(st) && SseCoherent(s, st)
    ensures var (s', out) := SseTick(s, st);
      && SseCoherent(s', st)
      && LastSentText(s') == Current(st, s.camera).0
      && s'.sent == s.sent + (match out case None => [] case Some(text) => [text])
      && (out == None ==> s' == s)
  {
    CurrentIsEmptyExactly(st, s.camera);
  }

  /** Looking a camera up finds a JPEG that was stored, under its identity. */
  lemma LatestIsStored(st: Store, cam: string)
    requires FramesSound(st) && LatestFor(st, cam).Some?
    ensures var jpeg := LatestFor(st, cam).value; jpeg.id < |st.stored| && jpeg.bytes == st.stored[jpeg.id]
  {
  }

  lemma MjpegTickIsCoherent(m: Mjpeg, st: Store)
    requires FramesSound(st) && MjpegCoherent(m, st)
    ensures var (m', out) := MjpegTick(m, st);
      && MjpegCoherent(m', st)
      && m'.lastSent == LatestFor(st, m.camera)
      && m'.shown == m.shown + (match out case None => [] case Some(jpeg) => [jpeg])
      && (out == None ==> m' == m)
  {
    if LatestFor(st, m.camera).Some? {
      LatestIsStored(st, m.camera);
    }
  }

  /** Storing a frame never sends a camera back to an older one. */
  lemma StoringMovesForward(st: Store, cam: string, bytes: string, c: string)
    requires FramesSound(st) && LatestFor(st, c).Some?
    ensures var st' := StoreJpeg(st, cam, bytes);
      LatestFor(st', c).Some? && LatestFor(st, c).value.id <= LatestFor(st', c).value.id
  {
    LatestIsStored(st, c);
    if c == "" && st.cameraOrder != [] {
      assert st.cameraOrder[0] in st.cameraOrder;
    }
  }

  lemma StoringKeepsMjpeg(m: Mjpeg, st: Store, cam: string, bytes: string)
    requires FramesSound(st) && MjpegCoherent(m, st)
    ensures MjpegCoherent(m, StoreJpeg(st, cam, bytes))
  {
    if m.lastSent.Some? {
      StoringMovesForward(st, cam, bytes, m.camera);
    }
  }

  lemma StoringKeepsSse(s: Sse, st: Store, cam: string, json: string, order: seq<string>)
    requires DetsSound(st) && SseCoherent(s, st)
    ensures SseCoherent(s, StoreDets(st, cam, json, order))
  {
  }

  // ── Runs: any number of cameras and sessions ────────────────────────────────

  datatype State = State(st: Store, sse: map<nat, Sse>, mjpeg: map<nat, Mjpeg>)

  datatype Step =
    | PublishFrame(cam: string, bytes: string)
    | PublishDetections(cam: string, rest: string, order: seq<string>)
    | OpenSse(id: nat, cam: string)
    | OpenMjpeg(id: nat, cam: string)
    | TickSse(id: nat)
    | TickMjpeg(id: nat)

  ghost predicate Enabled(s: State, step: Step) {
    match step
    case PublishFrame(cam, bytes) => true
    case PublishDetections(cam, rest, order) =>
      cam !in s.st.dets ==> Lists(order, s.st.dets.Keys + {cam})
    case OpenSse(id, cam) => id !in s.sse
    case OpenMjpeg(id, cam) => id !in s.mjpeg
    case TickSse(id) => id in s.sse
    case TickMjpeg(id) => id in s.mjpeg
  }

  function Next(s: State, step: Step): State
    requires Enabled(s, step)
  {
    match step
    case PublishFrame(cam, bytes) => s.(st := StoreJpeg(s.st, cam, bytes))
    case PublishDetections(cam, rest, order) => s.(st := StoreDets(s.st, cam, DetectionText(cam, rest), order))
    case OpenSse(id, cam) => s.(sse := s.sse[id := Sse(cam, 0, [], [])])
    case OpenMjpeg(id, cam) => s.(mjpeg := s.mjpeg[id := Mjpeg(cam, None, [])])
    case TickSse(id) => s.(sse := s.sse[id := SseTick(s.sse[id], s.st).0])
    case TickMjpeg(id) => s.(mjpeg := s.mjpeg[id := MjpegTick(s.mjpeg[id], s.st).0])
  }

  ghost predicate Coherent(s: State) {
    && FramesSound(s.st) && DetsSound(s.st)
    && (forall id :: id in s.sse ==> SseCoherent(s.sse[id], s.st))
    && (forall id :: id in s.mjpeg ==> MjpegCoherent(s.mjpeg[id], s.st))
  }

  lemma FreshSseIsCoherent(cam: string, st: Store)
    requires DetsSound(st)
    ensures SseCoherent(Sse(cam, 0, [], []), st)
  {
    CurrentIsEmptyExactly(st, cam);
  }

  lemma FrameKeepsCoherent(s: State, cam: string, bytes: string)
    requires Coherent(s)
    ensures Coherent(s.(st := StoreJpeg(s.st, cam, bytes)))
  {
    StoreJpegKeeps(s.st, cam, bytes);
    var st' := StoreJpeg(s.st, cam, bytes);
    forall id | id in s.mjpeg ensures MjpegCoherent(s.mjpeg[id], st') {
      StoringKeepsMjpeg(s.mjpeg[id], s.st, cam, bytes);
    }
    forall c ensures Current(st', c) == Current(s.st, c) {
    }
    forall id | id in s.sse ensures SseCoherent(s.sse[id], st') {
      assert SseCoherent(s.sse[id], s.st);
      assert Current(st', s.sse[id].camera) == Current(s.st, s.sse[id].camera);
    }
    assert DetsSound(st');
  }

  lemma DetsKeepCoherent(s: State, cam: string, json: string, order: seq<string>)
    requires Coherent(s) && json != ""
    requires cam !in s.st.dets ==> Lists(order, s.st.dets.Keys + {cam})
    ensures Coherent(s.(st := StoreDets(s.st, cam, json, order)))
  {
    StoreDetsKeeps(s.st, cam, json, order);
    var st' := StoreDets(s.st, cam, json, order);
    forall id | id in s.sse ensures SseCoherent(s.sse[id], st') {
      StoringKeepsSse(s.sse[id], s.st, cam, json, order);
    }
    forall c ensures LatestFor(st', c) == LatestFor(s.st, c) {
    }
    forall id | id in s.mjpeg ensures MjpegCoherent(s.mjpeg[id], st') {
      assert MjpegCoherent(s.mjpeg[id], s.st);
      assert LatestFor(st', s.mjpeg[id].camera) == LatestFor(s.st, s.mjpeg[id].camera);
    }
    assert FramesSound(st');
  }

  lemma SseChangeKeepsCoherent(s: State, id: nat, x: Sse)
    requires Coherent(s) && SseCoherent(x, s.st)
    ensures Coherent(s.(sse := s.sse[id := x]))
  {
    var s' := s.(sse := s.sse[id := x]);
    forall i | i in s'.sse ensures SseCoherent(s'.sse[i], s'.st) {
      assert i != id ==> SseCoherent(s.sse[i], s.st);
    }
  }

  lemma MjpegChangeKeepsCoherent(s: State, id: nat, x: Mjpeg)
    requires Coherent(s) && MjpegCoherent(x, s.st)
    ensures Coherent(s.(mjpeg := s.mjpeg[id := x]))
  {
    var s' := s.(mjpeg := s.mjpeg[id := x]);
    forall i | i in s'.mjpeg ensures MjpegCoherent(s'.mjpeg[i], s'.st) {
      assert i != id ==> MjpegCoherent(s.mjpeg[i], s.st);
    }
  }

  lemma StepKeepsCoherent(s: State, step: Step)
    requires Coherent(s) && Enabled(s, step)
    ensures Coherent(Next(s, step))
  {
    match step
    case PublishFrame(cam, bytes) => FrameKeepsCoherent(s, cam, bytes);
    case PublishDetections(cam, rest, order) => DetsKeepCoherent(s, cam, DetectionText(cam, rest), order);
    case OpenSse(id, cam) =>
      FreshSseIsCoherent(cam, s.st);
      SseChangeKeepsCoherent(s, id, Sse(cam, 0, [], []));
    case OpenMjpeg(id, cam) => MjpegChangeKeepsCoherent(s, id, Mjpeg(cam, None, []));
    case TickSse(id) =>
      SseTickIsCoherent(s.sse[id], s.st);
      SseChangeKeepsCoherent(s, id, SseTick(s.sse[id], s.st).0);
    case TickMjpeg(id) =>
      MjpegTickIsCoherent(s.mjpeg[id], s.st);
      MjpegChangeKeepsCoherent(s, id, MjpegTick(s.mjpeg[id], s.st).0);
  }

  ghost predicate Trace(trace: seq<State>, steps: seq<Step>) {
    && |trace| == |steps| + 1
    && trace[0] == State(EmptyStore, map[], map[])
    && forall i {:trigger steps[i]} :: 0 <= i < |steps| ==>
         Enabled(trace[i], steps[i]) && trace[i + 1] == Next(trace[i], steps[i])
  }

  lemma {:induction false} EveryRunIsCoherent(trace: seq<State>, steps: seq<Step>, i: nat)
    requires Trace(trace, steps) && i < |trace|
    ensures Coherent(trace[i])
  {
    if i > 0 {
      EveryRunIsCoherent(trace, steps, i - 1);
      StepKeepsCoherent(trace[i - 1], steps[i - 1]);
    }
  }

  /** In every run: the global number is the sum of the cameras' numbers, the camera list has no
      duplicates and names exactly the cameras with a frame, every session's numbers rise, no
      session goes back to an older JPEG, and right after any tick, silent or not, the session's
      client has the current state. */
  lemma ViewerIsCoherent(trace: seq<State>, steps: seq<Step>, i: nat)
    requires Trace(trace, steps) && i < |steps|
    ensures var s := trace[i + 1];
      && s.st.globalSeq == SumSeq(s.st.dets.Keys, s.st.dets)
      && Lists(s.st.cameraOrder, s.st.latest.Keys)
      && (forall id :: id in s.sse ==> Increasing(s.sse[id].emitted))
      && (forall id, j, k :: id in s.mjpeg && 0 <= j < k < |s.mjpeg[id].shown| ==>
            s.mjpeg[id].shown[j].id < s.mjpeg[id].shown[k].id)
      && (steps[i].TickSse? ==>
            LastSentText(s.sse[steps[i].id]) == Current(s.st, s.sse[steps[i].id].camera).0)
      && (steps[i].TickMjpeg? ==>
            s.mjpeg[steps[i].id].lastSent == LatestFor(s.st, s.mjpeg[steps[i].id].camera))
  {
    EveryRunIsCoherent(trace, steps, i);
    EveryRunIsCoherent(trace, steps, i + 1);
    match steps[i]
    case TickSse(id) => SseTickIsCoherent(trace[i].sse[id], trace[i].st);
    case TickMjpeg(id) => MjpegTickIsCoherent(trace[i].mjpeg[id], trace[i].st);
    case _ =>
  }
}
