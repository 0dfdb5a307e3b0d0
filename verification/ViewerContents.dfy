/**
  What the clients of the live view are shown, in terms of what was published: the last frame and
  the last detections of the camera they asked for.  The steps of a run are its history.
 */
module ViewerContents {
  import opened Viewer
  import opened Wrappers

  // ── Frames ──────────────────────────────────────────────────────────────────

  predicate FrameOf(step: Step, cam: string) {
    step.PublishFrame? && step.cam == cam
  }

  /** Step `k` published the last frame of this camera before moment `i`. */
  ghost predicate LastFrame(steps: seq<Step>, k: nat, i: nat, cam: string)
    requires i <= |steps|
  {
    k < i && FrameOf(steps[k], cam) && forall m {:trigger steps[m]} :: k < m < i ==> !FrameOf(steps[m], cam)
  }

  /** Step `k` published the first frame of all. */
  ghost predicate FirstFrame(steps: seq<Step>, k: nat, i: nat)
    requires i <= |steps|
  {
    k < i && steps[k].PublishFrame? && forall m {:trigger steps[m]} :: 0 <= m < k ==> !steps[m].PublishFrame?
  }

  ghost predicate NoFrame(steps: seq<Step>, i: nat)
    requires i <= |steps|
  {
    forall m {:trigger steps[m]} :: 0 <= m < i ==> !steps[m].PublishFrame?
  }

  ghost predicate NoFrameOf(steps: seq<Step>, i: nat, cam: string)
    requires i <= |steps|
  {
    forall m {:trigger steps[m]} :: 0 <= m < i ==> !FrameOf(steps[m], cam)
  }

  lemma OtherStepKeepsFrame(s: State, step: Step, cam: string)
    requires Enabled(s, step) && !FrameOf(step, cam)
    ensures var s' := Next(s, step);
      && (cam in s'.st.latest <==> cam in s.st.latest)
      && (cam in s.st.latest ==> s'.st.latest[cam] == s.st.latest[cam])
  {
  }

  lemma {:induction false} LastFrameIsStored(trace: seq<State>, steps: seq<Step>, k: nat, i: nat, cam: string)
    requires Trace(trace, steps) && i < |trace| && LastFrame(steps, k, i, cam)
    ensures cam in trace[i].st.latest && trace[i].st.latest[cam].bytes == steps[k].bytes
  {
    assert trace[i] == Next(trace[i - 1], steps[i - 1]);
    if k < i - 1 {
      LastFrameIsStored(trace, steps, k, i - 1, cam);
      OtherStepKeepsFrame(trace[i - 1], steps[i - 1], cam);
    }
  }

  lemma {:induction false} NothingIsStored(trace: seq<State>, steps: seq<Step>, i: nat, cam: string)
    requires Trace(trace, steps) && i < |trace| && NoFrameOf(steps, i, cam)
    ensures cam !in trace[i].st.latest
  {
    if i > 0 {
      NothingIsStored(trace, steps, i - 1, cam);
      assert trace[i] == Next(trace[i - 1], steps[i - 1]);
      OtherStepKeepsFrame(trace[i - 1], steps[i - 1], cam);
    }
  }

  lemma {:induction false} NoFrameNoCamera(trace: seq<State>, steps: seq<Step>, i: nat)
    requires Trace(trace, steps) && i < |trace| && NoFrame(steps, i)
    ensures trace[i].st.latest == map[] && trace[i].st.cameraOrder == []
  {
    if i > 0 {
      NoFrameNoCamera(trace, steps, i - 1);
      assert trace[i] == Next(trace[i - 1], steps[i - 1]);
    }
  }

  lemma {:induction false} FirstFrameLeads(trace: seq<State>, steps: seq<Step>, k: nat, i: nat)
    requires Trace(trace, steps) && i < |trace| && FirstFrame(steps, k, i)
    ensures trace[i].st.cameraOrder != [] && trace[i].st.cameraOrder[0] == steps[k].cam
  {
    assert trace[i] == Next(trace[i - 1], steps[i - 1]);
    if k < i - 1 {
      FirstFrameLeads(trace, steps, k, i - 1);
    } else {
      NoFrameNoCamera(trace, steps, k);
    }
  }

  /** Who asks for a camera by name is shown that one, who names none the first that ever
      published. */
  ghost predicate Shows(steps: seq<Step>, i: nat, asked: string, cam: string)
    requires i <= |steps|
  {
    if asked != "" then cam == asked else exists f: nat :: FirstFrame(steps, f, i) && steps[f].cam == cam
  }

  lemma LookupFindsLastFrame(trace: seq<State>, steps: seq<Step>, i: nat, asked: string, cam: string, k: nat)
    requires Trace(trace, steps) && i < |trace| && Shows(steps, i, asked, cam) && LastFrame(steps, k, i, cam)
    ensures LatestFor(trace[i].st, asked).Some? && LatestFor(trace[i].st, asked).value.bytes == steps[k].bytes
  {
    LastFrameIsStored(trace, steps, k, i, cam);
    if asked == "" {
      var f: nat :| FirstFrame(steps, f, i) && steps[f].cam == cam;
      FirstFrameLeads(trace, steps, f, i);
    }
  }

  lemma LookupFindsNothing(trace: seq<State>, steps: seq<Step>, i: nat, asked: string)
    requires Trace(trace, steps) && i < |trace|
    requires if asked != "" then NoFrameOf(steps, i, asked) else NoFrame(steps, i)
    ensures LatestFor(trace[i].st, asked) == None
  {
    if asked != "" {
      NothingIsStored(trace, steps, i, asked);
    } else {
      NoFrameNoCamera(trace, steps, i);
    }
  }

  lemma {:induction false} MjpegStaysOpen(trace: seq<State>, steps: seq<Step>, o: nat, i: nat, id: nat)
    requires Trace(trace, steps) && o < i < |trace| && steps[o].OpenMjpeg? && steps[o].id == id
    ensures id in trace[i].mjpeg && trace[i].mjpeg[id].camera == steps[o].cam
  {
    assert trace[i] == Next(trace[i - 1], steps[i - 1]);
    if o < i - 1 {
      MjpegStaysOpen(trace, steps, o, i - 1, id);
    }
  }

  predicate LastShown(m: Mjpeg, jpeg: Option<Jpeg>) {
    match jpeg
    case None => m.shown == []
    case Some(j) => m.shown != [] && m.shown[|m.shown| - 1] == j
  }

  lemma MjpegTickShows(trace: seq<State>, steps: seq<Step>, o: nat, i: nat)
    requires Trace(trace, steps) && o < i < |steps|
    requires steps[o].OpenMjpeg? && steps[i] == TickMjpeg(steps[o].id)
    ensures steps[o].id in trace[i + 1].mjpeg
    ensures LastShown(trace[i + 1].mjpeg[steps[o].id], LatestFor(trace[i].st, steps[o].cam))
  {
    var id := steps[o].id;
    MjpegStaysOpen(trace, steps, o, i, id);
    EveryRunIsCoherent(trace, steps, i);
    MjpegTickIsCoherent(trace[i].mjpeg[id], trace[i].st);
    assert trace[i + 1] == Next(trace[i], steps[i]);
  }

  /** In every run, after a tick the client of an MJPEG session has been sent, last of all, the last
      frame published by the camera it asked for (or by the first camera, if it named none). */
  lemma MjpegClientHasLastFrame(trace: seq<State>, steps: seq<Step>, o: nat, i: nat, cam: string, k: nat)
    requires Trace(trace, steps) && o < i < |steps|
    requires steps[o].OpenMjpeg? && steps[i] == TickMjpeg(steps[o].id)
    requires Shows(steps, i, steps[o].cam, cam) && LastFrame(steps, k, i, cam)
    ensures steps[o].id in trace[i + 1].mjpeg
    ensures var shown := trace[i + 1].mjpeg[steps[o].id].shown;
      shown != [] && shown[|shown| - 1].bytes == steps[k].bytes
  {
    MjpegTickShows(trace, steps, o, i);
    LookupFindsLastFrame(trace, steps, i, steps[o].cam, cam, k);
  }

  /** And while there is no such frame it has been sent nothing. */
  lemma MjpegClientHasNothing(trace: seq<State>, steps: seq<Step>, o: nat, i: nat)
    requires Trace(trace, steps) && o < i < |steps|
    requires steps[o].OpenMjpeg? && steps[i] == TickMjpeg(steps[o].id)
    requires if steps[o].cam != "" then NoFrameOf(steps, i, steps[o].cam) else NoFrame(steps, i)
    ensures steps[o].id in trace[i + 1].mjpeg && trace[i + 1].mjpeg[steps[o].id].shown == []
  {
    MjpegTickShows(trace, steps, o, i);
    LookupFindsNothing(trace, steps, i, steps[o].cam);
  }

  // ── Detections ──────────────────────────────────────────────────────────────

  predicate TextOf(step: Step, cam: string) {
    step.PublishDetections? && step.cam == cam
  }

  ghost predicate LastText(steps: seq<Step>, k: nat, i: nat, cam: string)
    requires i <= |steps|
  {
    k < i && TextOf(steps[k], cam) && forall m {:trigger steps[m]} :: k < m < i ==> !TextOf(steps[m], cam)
  }

  ghost predicate NoTextOf(steps: seq<Step>, i: nat, cam: string)
    requires i <= |steps|
  {
    forall m {:trigger steps[m]} :: 0 <= m < i ==> !TextOf(steps[m], cam)
  }

  lemma OtherStepKeepsText(s: State, step: Step, cam: string)
    requires Enabled(s, step) && !TextOf(step, cam)
    ensures var s' := Next(s, step);
      && (cam in s'.st.dets <==> cam in s.st.dets)
      && (cam in s.st.dets ==> s'.st.dets[cam] == s.st.dets[cam])
  {
  }

  lemma {:induction false} LastTextIsStored(trace: seq<State>, steps: seq<Step>, k: nat, i: nat, cam: string)
    requires Trace(trace, steps) && i < |trace| && LastText(steps, k, i, cam)
    ensures cam in trace[i].st.dets && trace[i].st.dets[cam].json == DetectionText(cam, steps[k].rest)
  {
    assert trace[i] == Next(trace[i - 1], steps[i - 1]);
    if k < i - 1 {
      LastTextIsStored(trace, steps, k, i - 1, cam);
      OtherStepKeepsText(trace[i - 1], steps[i - 1], cam);
    }
  }

  /** A camera is known exactly once it has published detections. */
  lemma {:induction false} KnownExactly(trace: seq<State>, steps: seq<Step>, i: nat, cam: string)
    requires Trace(trace, steps) && i < |trace|
    ensures cam in trace[i].st.dets <==> !NoTextOf(steps, i, cam)
  {
    if i > 0 {
      KnownExactly(trace, steps, i - 1, cam);
      assert trace[i] == Next(trace[i - 1], steps[i - 1]);
      if !TextOf(steps[i - 1], cam) {
        OtherStepKeepsText(trace[i - 1], steps[i - 1], cam);
        assert NoTextOf(steps, i, cam) <==> NoTextOf(steps, i - 1, cam);
      }
    }
  }

  lemma {:induction false} SseStaysOpen(trace: seq<State>, steps: seq<Step>, o: nat, i: nat, id: nat)
    requires Trace(trace, steps) && o < i < |trace| && steps[o].OpenSse? && steps[o].id == id
    ensures id in trace[i].sse && trace[i].sse[id].camera == steps[o].cam
  {
    assert trace[i] == Next(trace[i - 1], steps[i - 1]);
    if o < i - 1 {
      SseStaysOpen(trace, steps, o, i - 1, id);
    }
  }

  lemma SseTickSends(trace: seq<State>, steps: seq<Step>, o: nat, i: nat)
    requires Trace(trace, steps) && o < i < |steps|
    requires steps[o].OpenSse? && steps[i] == TickSse(steps[o].id)
    ensures steps[o].id in trace[i + 1].sse
    ensures LastSentText(trace[i + 1].sse[steps[o].id]) == Current(trace[i].st, steps[o].cam).0
  {
    var id := steps[o].id;
    SseStaysOpen(trace, steps, o, i, id);
    EveryRunIsCoherent(trace, steps, i);
    SseTickIsCoherent(trace[i].sse[id], trace[i].st);
    assert trace[i + 1] == Next(trace[i], steps[i]);
  }

  /** In every run, after a tick the client of a camera's detection stream has been sent, last of
      all, the event of that camera's last detections. */
  lemma SseClientHasLastText(trace: seq<State>, steps: seq<Step>, o: nat, i: nat, k: nat)
    requires Trace(trace, steps) && o < i < |steps|
    requires steps[o].OpenSse? && steps[o].cam != "" && steps[i] == TickSse(steps[o].id)
    requires LastText(steps, k, i, steps[o].cam)
    ensures steps[o].id in trace[i + 1].sse
    ensures LastSentText(trace[i + 1].sse[steps[o].id])
            == "data: " + ("{\"camera\":\"" + steps[o].cam + steps[k].rest) + "\n\n"
  {
    SseTickSends(trace, steps, o, i);
    LastTextIsStored(trace, steps, k, i, steps[o].cam);
    EveryRunIsCoherent(trace, steps, i);
  }

  // ── The stream of all cameras ───────────────────────────────────────────────

  /** One event after the other. */
  function Joined(texts: seq<string>): string {
    if texts == [] then "" else "data: " + texts[0] + "\n\n" + Joined(texts[1..])
  }

  lemma Regroup(a: string, b: string, c: string)
    ensures a + (b + c) == a + b + c
  {
  }

  lemma {:induction false} JoinedAppend(texts: seq<string>, text: string)
    ensures Joined(texts + [text]) == Joined(texts) + ("data: " + text + "\n\n")
  {
    if texts == [] {
      assert [text][1..] == [];
      assert "data: " + text + "\n\n" + "" == "" + ("data: " + text + "\n\n");
    } else {
      JoinedAppend(texts[1..], text);
      Regroup("data: " + texts[0] + "\n\n", Joined(texts[1..]), "data: " + text + "\n\n");
      assert (texts + [text])[1..] == texts[1..] + [text];
    }
  }

  ghost function TextsOf(dets: map<string, DetEntry>, cams: seq<string>): seq<string>
    requires forall c :: c in cams ==> c in dets
  {
    seq(|cams|, j requires 0 <= j < |cams| => dets[cams[j]].json)
  }

  lemma {:induction false} EventsAreJoined(dets: map<string, DetEntry>, cams: seq<string>)
    requires forall c :: c in cams ==> c in dets && dets[c].json != ""
    ensures Events(dets, cams) == Joined(TextsOf(dets, cams))
  {
    if cams != [] {
      var init, cam := cams[..|cams| - 1], cams[|cams| - 1];
      EventsAreJoined(dets, init);
      assert cam in cams;
      assert TextsOf(dets, cams) == TextsOf(dets, init) + [dets[cam].json];
      JoinedAppend(TextsOf(dets, init), dets[cam].json);
    }
  }

  /** In every run, after a tick the client of all cameras has been sent, last of all, one event for
      each camera that has published detections: its last ones. */
  lemma SseClientHasEveryCamera(trace: seq<State>, steps: seq<Step>, o: nat, i: nat)
    returns (cams: seq<string>, texts: seq<string>)
    requires Trace(trace, steps) && o < i < |steps|
    requires steps[o].OpenSse? && steps[o].cam == "" && steps[i] == TickSse(steps[o].id)
    ensures NoDuplicates(cams) && forall c :: c in cams <==> !NoTextOf(steps, i, c)
    ensures |texts| == |cams|
    ensures forall j, k: nat :: 0 <= j < |cams| && LastText(steps, k, i, cams[j]) ==>
              texts[j] == DetectionText(cams[j], steps[k].rest)
    ensures steps[o].id in trace[i + 1].sse && LastSentText(trace[i + 1].sse[steps[o].id]) == Joined(texts)
  {
    SseTickSends(trace, steps, o, i);
    EveryRunIsCoherent(trace, steps, i);
    var st := trace[i].st;
    cams := st.detOrder;
    forall c ensures c in cams <==> !NoTextOf(steps, i, c) {
      KnownExactly(trace, steps, i, c);
    }
    texts := TextsOf(st.dets, cams);
    forall j, k: nat | 0 <= j < |cams| && LastText(steps, k, i, cams[j])
      ensures texts[j] == DetectionText(cams[j], steps[k].rest)
    {
      LastTextIsStored(trace, steps, k, i, cams[j]);
    }
    EventsAreJoined(st.dets, cams);
  }
}
