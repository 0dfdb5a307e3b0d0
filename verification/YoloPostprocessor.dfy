/** Decoding a detector's output tensor: strided argmax, threshold, box decode, suppression, cap. */
module YoloPostprocessor {
  import opened Domain
  import opened Geometry

  /** The fields of `raw` are [4 + classes][anchors], flattened. */
  datatype Params = Params(
    modelWidth: int, modelHeight: int,
    sourceWidth: int, sourceHeight: int,
    confThreshold: real, nmsThreshold: real,
    maxDetections: nat,
    classMap: map<int, ObjectClass>)

  datatype Rect = Rect(x: int, y: int, width: int, height: int)

  /** Conversion to an integer as a cast does it: towards zero. */
  function Trunc(r: real): int {
    if r >= 0.0 then r.Floor else -(-r).Floor
  }

  predicate Shaped(raw: seq<real>, anchors: nat, classes: nat) {
    |raw| == (4 + classes) * anchors
  }

  lemma CellInBounds(channel: nat, i: nat, anchors: nat, channels: nat)
    requires channel < channels && i < anchors
    ensures 0 <= channel * anchors + i < channels * anchors
  {
    assert (channel + 1) * anchors <= channels * anchors;
    assert (channel + 1) * anchors == channel * anchors + anchors;
  }

  function Cell(raw: seq<real>, anchors: nat, classes: nat, channel: nat, i: nat): real
    requires Shaped(raw, anchors, classes) && channel < 4 + classes && i < anchors
  {
    CellInBounds(channel, i, anchors, 4 + classes);
    raw[channel * anchors + i]
  }

  function Score(raw: seq<real>, anchors: nat, classes: nat, i: nat, c: nat): real
    requires Shaped(raw, anchors, classes) && c < classes && i < anchors
  {
    Cell(raw, anchors, classes, 4 + c, i)
  }

  function ScaleX(p: Params): real
    requires p.modelWidth > 0
  {
    if p.sourceWidth > 0 then p.sourceWidth as real / p.modelWidth as real else 1.0
  }

  function ScaleY(p: Params): real
    requires p.modelHeight > 0
  {
    if p.sourceHeight > 0 then p.sourceHeight as real / p.modelHeight as real else 1.0
  }

  /** The factors that take model pixels to source pixels; 1 where the source size is unknown. */
  lemma ScaleFacts(p: Params)
    requires p.modelWidth > 0 && p.modelHeight > 0
    ensures p.sourceWidth > 0 ==> ScaleX(p) * p.modelWidth as real == p.sourceWidth as real
    ensures p.sourceHeight > 0 ==> ScaleY(p) * p.modelHeight as real == p.sourceHeight as real
    ensures p.sourceWidth <= 0 ==> ScaleX(p) == 1.0
    ensures p.sourceHeight <= 0 ==> ScaleY(p) == 1.0
  {
    var qx := QuotientTimes(p.sourceWidth as real, p.modelWidth as real);
    var qy := QuotientTimes(p.sourceHeight as real, p.modelHeight as real);
  }

  /** One axis of a box, from its centre and size to its corner and length in source pixels. */
  function DecodeSpan(c: real, size: real, scale: real): (int, int) {
    (Trunc((c - size * 0.5) * scale), Trunc(size * scale))
  }

  function DecodeBox(cx: real, cy: real, w: real, h: real, sx: real, sy: real): Rect {
    var (x, width) := DecodeSpan(cx, w, sx);
    var (y, height) := DecodeSpan(cy, h, sy);
    Rect(x, y, width, height)
  }

  function BoxOf(raw: seq<real>, anchors: nat, classes: nat, i: nat, p: Params): Rect
    requires Shaped(raw, anchors, classes) && i < anchors && p.modelWidth > 0 && p.modelHeight > 0
  {
    DecodeBox(Cell(raw, anchors, classes, 0, i), Cell(raw, anchors, classes, 1, i),
              Cell(raw, anchors, classes, 2, i), Cell(raw, anchors, classes, 3, i), ScaleX(p), ScaleY(p))
  }

  /** Class `cls` (-1: none) with score `best` is the first maximum of the first `n` class
      scores of anchor `i`, if that maximum is positive. */
  ghost predicate FirstBest(raw: seq<real>, anchors: nat, classes: nat, i: nat, n: nat, cls: int, best: real)
    requires Shaped(raw, anchors, classes) && i < anchors && n <= classes
  {
    && -1 <= cls < n
    && (cls == -1 ==> best == 0.0 && forall c: nat :: c < n ==> Score(raw, anchors, classes, i, c) <= 0.0)
    && (cls >= 0 ==>
          && best > 0.0
          && best == Score(raw, anchors, classes, i, cls)
          && (forall c: nat :: c < n ==> Score(raw, anchors, classes, i, c) <= best)
          && (forall c: nat :: c < cls ==> Score(raw, anchors, classes, i, c) < best))
  }

  /** FirstBest leaves no choice. */
  lemma FirstBestIsUnique(raw: seq<real>, anchors: nat, classes: nat, i: nat, n: nat,
                          cls: int, best: real, cls': int, best': real)
    requires Shaped(raw, anchors, classes) && i < anchors && n <= classes
    requires FirstBest(raw, anchors, classes, i, n, cls, best)
    requires FirstBest(raw, anchors, classes, i, n, cls', best')
    ensures cls == cls' && best == best'
  {
  }

  ghost predicate Qualifies(raw: seq<real>, anchors: nat, classes: nat, i: nat, p: Params, cls: int, best: real)
    requires Shaped(raw, anchors, classes) && i < anchors
  {
    FirstBest(raw, anchors, classes, i, classes, cls, best) && cls >= 0 && best >= p.confThreshold
  }

  method BestClass(raw: array<real>, anchors: nat, classes: nat, i: nat) returns (cls: int, best: real)
    requires Shaped(raw[..], anchors, classes) && i < anchors
    ensures FirstBest(raw[..], anchors, classes, i, classes, cls, best)
  {
    cls, best := -1, 0.0;
    for c := 0 to classes
      invariant FirstBest(raw[..], anchors, classes, i, c, cls, best)
    {
      CellInBounds(4 + c, i, anchors, 4 + classes);
      var s := raw[(4 + c) * anchors + i];
      assert s == Score(raw[..], anchors, classes, i, c);
      if s > best {
        best, cls := s, c;
      }
    }
  }

  /** The parallel vectors of the boxes that pass, with the anchor each came from. */
  ghost predicate Candidates(raw: seq<real>, anchors: nat, classes: nat, n: nat, p: Params,
                             boxes: seq<Rect>, scores: seq<real>, classIds: seq<int>, from: seq<nat>)
    requires Shaped(raw, anchors, classes) && n <= anchors && p.modelWidth > 0 && p.modelHeight > 0
  {
    && |boxes| == |scores| == |classIds| == |from|
    && (forall k :: 0 <= k < |from| ==>
          && from[k] < n
          && Qualifies(raw, anchors, classes, from[k], p, classIds[k], scores[k])
          && boxes[k] == BoxOf(raw, anchors, classes, from[k], p))
    && (forall j, k :: 0 <= j < k < |from| ==> from[j] < from[k])
    && (forall i: nat, cls, best :: i < n && Qualifies(raw, anchors, classes, i, p, cls, best) ==> i in from)
  }

  method CollectCandidates(raw: array<real>, anchors: nat, classes: nat, p: Params)
    returns (boxes: seq<Rect>, scores: seq<real>, classIds: seq<int>, ghost from: seq<nat>)
    requires Shaped(raw[..], anchors, classes) && p.modelWidth > 0 && p.modelHeight > 0
    ensures Candidates(raw[..], anchors, classes, anchors, p, boxes, scores, classIds, from)
    ensures |boxes| == |scores| == |classIds|
    ensures forall k :: 0 <= k < |scores| ==> scores[k] > 0.0 && scores[k] >= p.confThreshold
    ensures forall k :: 0 <= k < |classIds| ==> 0 <= classIds[k] < classes
  {
    boxes, scores, classIds, from := [], [], [], [];
    var sx, sy := ScaleX(p), ScaleY(p);
    for i := 0 to anchors
      invariant Candidates(raw[..], anchors, classes, i, p, boxes, scores, classIds, from)
    {
      var bestCls, bestScore := BestClass(raw, anchors, classes, i);
      ghost var from' := from + [i];
      assert i in from';
      forall cls, best | Qualifies(raw[..], anchors, classes, i, p, cls, best)
        ensures cls == bestCls && best == bestScore
      {
        FirstBestIsUnique(raw[..], anchors, classes, i, classes, cls, best, bestCls, bestScore);
      }
      if bestScore < p.confThreshold || bestCls < 0 {
        continue;
      }
      CellInBounds(0, i, anchors, 4 + classes);
      CellInBounds(1, i, anchors, 4 + classes);
      CellInBounds(2, i, anchors, 4 + classes);
      CellInBounds(3, i, anchors, 4 + classes);
      var cx, cy, w, h := raw[0 * anchors + i], raw[1 * anchors + i], raw[2 * anchors + i], raw[3 * anchors + i];
      boxes := boxes + [DecodeBox(cx, cy, w, h, sx, sy)];
      scores, classIds, from := scores + [bestScore], classIds + [bestCls], from';
    }
  }

  // ── Suppression, by contract ────────────────────────────────────────────────

  /** The suppressor is given boxes and scores and names which to keep, best first. */
  type Suppressor = (seq<Rect>, seq<real>, real, real) -> seq<nat>

  ghost predicate DistinctBelow(keep: seq<nat>, n: nat) {
    && (forall k :: 0 <= k < |keep| ==> keep[k] < n)
    && (forall j, k :: 0 <= j < k < |keep| ==> keep[j] != keep[k])
  }

  ghost predicate KeepsDistinct(nms: Suppressor) {
    forall boxes, scores, conf, overlap :: DistinctBelow(nms(boxes, scores, conf, overlap), |boxes|)
  }

  function ClassOf(p: Params, id: int): ObjectClass {
    if id in p.classMap then p.classMap[id] else Unknown
  }

  function BoxIn(r: Rect): BoundingBox {
    BoundingBox(r.x as real, r.y as real, r.width as real, r.height as real)
  }

  function ToDetection(r: Rect, score: real, id: int, p: Params): Detection {
    Detection(BoxIn(r), ClassOf(p, id), score, -1)
  }

  /** `t` is `r` without its fraction. */
  ghost predicate WithoutFraction(r: real, t: real) {
    && t == t.Floor as real
    && (r >= 0.0 ==> t <= r < t + 1.0)
    && (r <= 0.0 ==> t - 1.0 < r <= t)
  }

  /** One axis: corner and length, scaled to the source, each without its fraction. */
  ghost predicate DecodedAxis(centre: real, size: real, scale: real, corner: real, length: real) {
    WithoutFraction((centre - size * 0.5) * scale, corner) && WithoutFraction(size * scale, length)
  }

  /** The box of anchor `i`: centre and size are its first four channels. */
  ghost predicate BoxDecodes(raw: seq<real>, anchors: nat, classes: nat, i: nat, p: Params, box: BoundingBox)
    requires Shaped(raw, anchors, classes) && i < anchors && p.modelWidth > 0 && p.modelHeight > 0
  {
    && DecodedAxis(Cell(raw, anchors, classes, 0, i), Cell(raw, anchors, classes, 2, i), ScaleX(p), box.x, box.width)
    && DecodedAxis(Cell(raw, anchors, classes, 1, i), Cell(raw, anchors, classes, 3, i), ScaleY(p), box.y, box.height)
  }

  /** The class is what the map says of the anchor's first best class. */
  ghost predicate ClassDecodes(raw: seq<real>, anchors: nat, classes: nat, i: nat, p: Params, d: Detection)
    requires Shaped(raw, anchors, classes) && i < anchors
  {
    exists cls :: Qualifies(raw, anchors, classes, i, p, cls, d.confidence)
      && (cls in p.classMap ==> d.cls == p.classMap[cls])
      && (cls !in p.classMap ==> d.cls == Unknown)
  }

  lemma TruncIsWithoutFraction(r: real)
    ensures WithoutFraction(r, Trunc(r) as real)
  {
    assert (Trunc(r) as real).Floor == Trunc(r);
  }

  lemma SpanDecodes(centre: real, size: real, scale: real)
    ensures var (corner, length) := DecodeSpan(centre, size, scale);
      DecodedAxis(centre, size, scale, corner as real, length as real)
  {
    TruncIsWithoutFraction((centre - size * 0.5) * scale);
    TruncIsWithoutFraction(size * scale);
  }

  lemma DecodedMeans(raw: seq<real>, anchors: nat, classes: nat, i: nat, p: Params, d: Detection)
    requires Shaped(raw, anchors, classes) && i < anchors && p.modelWidth > 0 && p.modelHeight > 0
    requires DecodedFrom(raw, anchors, classes, i, p, d)
    ensures BoxDecodes(raw, anchors, classes, i, p, d.box) && ClassDecodes(raw, anchors, classes, i, p, d)
  {
    SpanDecodes(Cell(raw, anchors, classes, 0, i), Cell(raw, anchors, classes, 2, i), ScaleX(p));
    SpanDecodes(Cell(raw, anchors, classes, 1, i), Cell(raw, anchors, classes, 3, i), ScaleY(p));
  }

  /** The parallel vectors handed to the suppressor. */
  datatype Batch = Batch(boxes: seq<Rect>, scores: seq<real>, classIds: seq<int>, from: seq<nat>)

  function Capped(n: nat, cap: nat): nat {
    if n < cap then n else cap
  }

  /** Detection `d` is what anchor `i` decodes to. */
  ghost predicate DecodedFrom(raw: seq<real>, anchors: nat, classes: nat, i: nat, p: Params, d: Detection)
    requires Shaped(raw, anchors, classes) && i < anchors && p.modelWidth > 0 && p.modelHeight > 0
  {
    exists cls :: Qualifies(raw, anchors, classes, i, p, cls, d.confidence)
      && d == ToDetection(BoxOf(raw, anchors, classes, i, p), d.confidence, cls, p)
  }

  lemma CandidateDecodes(raw: seq<real>, anchors: nat, classes: nat, p: Params, batch: Batch, k: nat)
    requires Shaped(raw, anchors, classes) && p.modelWidth > 0 && p.modelHeight > 0
    requires Candidates(raw, anchors, classes, anchors, p, batch.boxes, batch.scores, batch.classIds, batch.from)
    requires k < |batch.from|
    ensures batch.from[k] < anchors
    ensures DecodedFrom(raw, anchors, classes, batch.from[k], p,
                        ToDetection(batch.boxes[k], batch.scores[k], batch.classIds[k], p))
  {
    assert Qualifies(raw, anchors, classes, batch.from[k], p, batch.classIds[k], batch.scores[k]);
  }

  /** The last loop: the first `n` kept candidates, in the suppressor's order. */
  method TakeKept(boxes: seq<Rect>, scores: seq<real>, classIds: seq<int>, ghost sources: seq<nat>,
                  keep: seq<nat>, n: nat, p: Params)
    returns (out: seq<Detection>, ghost from: seq<nat>)
    requires |boxes| == |scores| == |classIds| == |sources| && n <= |keep|
    requires forall k :: 0 <= k < |keep| ==> keep[k] < |boxes|
    ensures |out| == |from| == n
    ensures forall k :: 0 <= k < n ==> from[k] == sources[keep[k]]
    ensures forall k :: 0 <= k < n ==> out[k] == ToDetection(boxes[keep[k]], scores[keep[k]], classIds[keep[k]], p)
  {
    out, from := [], [];
    for k := 0 to n
      invariant |out| == |from| == k
      invariant forall j :: 0 <= j < k ==> from[j] == sources[keep[j]]
      invariant forall j :: 0 <= j < k ==> out[j] == ToDetection(boxes[keep[j]], scores[keep[j]], classIds[keep[j]], p)
    {
      var idx := keep[k];
      out := out + [ToDetection(boxes[idx], scores[idx], classIds[idx], p)];
      from := from + [sources[idx]];
    }
  }

  /** Every tensor read is in bounds, every anchor that passes the threshold is offered to the
      suppressor, and the first maxDetections it keeps are returned, each decoded from an anchor
      of its own under that anchor's first best class. */
  method Postprocess(raw: array<real>, anchors: nat, classes: nat, p: Params, nms: Suppressor)
    returns (out: seq<Detection>, ghost from: seq<nat>, ghost batch: Batch)
    requires Shaped(raw[..], anchors, classes) && p.modelWidth > 0 && p.modelHeight > 0
    requires KeepsDistinct(nms)
    ensures Candidates(raw[..], anchors, classes, anchors, p, batch.boxes, batch.scores, batch.classIds, batch.from)
    ensures var keep := nms(batch.boxes, batch.scores, p.confThreshold, p.nmsThreshold);
      && |out| == |from| == Capped(|keep|, p.maxDetections)
      && forall k :: 0 <= k < |from| ==> keep[k] < |batch.from| && from[k] == batch.from[keep[k]]
    ensures forall j, k :: 0 <= j < k < |from| ==> from[j] != from[k]
    ensures forall k :: 0 <= k < |out| ==>
              from[k] < anchors && DecodedFrom(raw[..], anchors, classes, from[k], p, out[k])
    ensures forall k :: 0 <= k < |out| ==>
              && from[k] < anchors
              && BoxDecodes(raw[..], anchors, classes, from[k], p, out[k].box)
              && ClassDecodes(raw[..], anchors, classes, from[k], p, out[k])
    ensures forall k :: 0 <= k < |out| ==> out[k].trackId == -1
  {
    ghost var tensor := raw[..];
    var boxes, scores, classIds;
    ghost var sources;
    boxes, scores, classIds, sources := CollectCandidates(raw, anchors, classes, p);
    batch := Batch(boxes, scores, classIds, sources);
    var keep := nms(boxes, scores, p.confThreshold, p.nmsThreshold);
    assert DistinctBelow(keep, |boxes|);
    var maxKeep := Capped(|keep|, p.maxDetections);
    out, from := TakeKept(boxes, scores, classIds, sources, keep, maxKeep, p);
    forall k | 0 <= k < |out|
      ensures from[k] < anchors && DecodedFrom(tensor, anchors, classes, from[k], p, out[k])
      ensures BoxDecodes(tensor, anchors, classes, from[k], p, out[k].box)
      ensures ClassDecodes(tensor, anchors, classes, from[k], p, out[k])
    {
      CandidateDecodes(tensor, anchors, classes, p, batch, keep[k]);
      DecodedMeans(tensor, anchors, classes, from[k], p, out[k]);
    }
  }

  // ── Truncation keeps boxes inside the frame ─────────────────────────────────

  lemma ScaledSpan(low: real, size: real, limit: real, scale: real, frame: real)
    requires low >= 0.0 && size >= 0.0 && low + size <= limit && scale >= 0.0 && limit * scale == frame
    ensures low * scale >= 0.0 && size * scale >= 0.0 && low * scale + size * scale <= frame
  {
    ScaleAtMost(0.0, low, scale);
    ScaleAtMost(0.0, size, scale);
    ScaleAtMost(low + size, limit, scale);
    assert (low + size) * scale == low * scale + size * scale;
  }

  lemma TruncatedSpan(low: real, size: real, frame: int)
    requires low >= 0.0 && size >= 0.0 && low + size <= frame as real
    ensures 0 <= Trunc(low) && 0 <= Trunc(size) && Trunc(low) + Trunc(size) <= frame
  {
    assert (Trunc(low) + Trunc(size)) as real <= frame as real;
  }

  predicate InFrame(span: (int, int), frame: int) {
    0 <= span.0 && 0 <= span.1 && span.0 + span.1 <= frame
  }

  /** One axis: a span centred at `c` inside the model input. */
  lemma DecodedSpan(c: real, size: real, model: int, source: int, scale: real)
    requires model > 0 && source > 0 && scale == source as real / model as real
    requires size >= 0.0 && c - size * 0.5 >= 0.0 && c + size * 0.5 <= model as real
    ensures InFrame(DecodeSpan(c, size, scale), source)
  {
    var q := QuotientTimes(source as real, model as real);
    assert model as real * scale == q * model as real;
    Unscale(0.0, scale, model as real);
    var low := c - size * 0.5;
    ScaledSpan(low, size, model as real, scale, source as real);
    TruncatedSpan(low * scale, size * scale, source);
  }

  /** An anchor box that lies inside the model input decodes to a box inside the source frame,
      although all four numbers are truncated separately. */
  lemma DecodedBoxStaysInFrame(cx: real, cy: real, w: real, h: real, p: Params)
    requires p.modelWidth > 0 && p.modelHeight > 0 && p.sourceWidth > 0 && p.sourceHeight > 0
    requires w >= 0.0 && cx - w * 0.5 >= 0.0 && cx + w * 0.5 <= p.modelWidth as real
    requires h >= 0.0 && cy - h * 0.5 >= 0.0 && cy + h * 0.5 <= p.modelHeight as real
    ensures var r := DecodeBox(cx, cy, w, h, ScaleX(p), ScaleY(p));
      && 0 <= r.x && 0 <= r.width && r.x + r.width <= p.sourceWidth
      && 0 <= r.y && 0 <= r.height && r.y + r.height <= p.sourceHeight
  {
    var sx, sy := ScaleX(p), ScaleY(p);
    assert InFrame(DecodeSpan(cx, w, sx), p.sourceWidth) by {
      DecodedSpan(cx, w, p.modelWidth, p.sourceWidth, sx);
    }
    assert InFrame(DecodeSpan(cy, h, sy), p.sourceHeight) by {
      DecodedSpan(cy, h, p.modelHeight, p.sourceHeight, sy);
    }
  }

  // ── Boxes without area ──────────────────────────────────────────────────────

  /** A decoded box has no width exactly if it is less than a pixel wide in the source frame. */
  lemma DecodedWidthIsZeroExactly(cx: real, cy: real, w: real, h: real, sx: real, sy: real)
    ensures DecodeBox(cx, cy, w, h, sx, sy).width == 0 <==> -1.0 < w * sx < 1.0
  {
    TruncIsZeroExactly(w * sx);
  }

  lemma TruncIsZeroExactly(r: real)
    ensures Trunc(r) == 0 <==> -1.0 < r < 1.0
  {
  }

  lemma UnscaledSpan(c: real, size: real, low: int, length: int)
    requires 0.0 <= low as real <= c - size * 0.5 < low as real + 1.0
    requires 0.0 <= length as real <= size < length as real + 1.0
    ensures DecodeSpan(c, size, 1.0) == (low, length)
  {
    var corner := c - size * 0.5;
    assert corner * 1.0 == corner && size * 1.0 == size;
  }

  lemma UnscaledBox(cx: real, cy: real, w: real, h: real, r: Rect)
    requires 0.0 <= r.x as real <= cx - w * 0.5 < r.x as real + 1.0
    requires 0.0 <= r.y as real <= cy - h * 0.5 < r.y as real + 1.0
    requires 0.0 <= r.width as real <= w < r.width as real + 1.0
    requires 0.0 <= r.height as real <= h < r.height as real + 1.0
    ensures DecodeBox(cx, cy, w, h, 1.0, 1.0) == r
  {
    UnscaledSpan(cx, w, r.x, r.width);
    UnscaledSpan(cy, h, r.y, r.height);
  }

  /** A box without width that cuts through another intersects it and shares no area with it. */
  lemma ThinBoxMeets(box: BoundingBox, thin: BoundingBox)
    requires thin.width == 0.0 && box.x < thin.x < box.Right()
    requires box.y < thin.y && thin.y + thin.height < box.Bottom() && thin.height > 0.0
    ensures box.Intersects(thin) && !SharesInterior(box, thin)
  {
    IntersectsExactly(box, thin);
  }

  /** Half a pixel wide, ten pixels high, in the middle of a 20 by 20 box: decoded at scale 1, it
      intersects the box without sharing any area with it. */
  lemma ThinBoxIntersects(thin: Rect, box: Rect)
    requires thin == DecodeBox(10.0, 10.0, 0.5, 10.0, 1.0, 1.0)
    requires box == DecodeBox(10.0, 10.0, 20.0, 20.0, 1.0, 1.0)
    ensures thin.width == 0
    ensures BoxIn(box).Intersects(BoxIn(thin)) && !SharesInterior(BoxIn(box), BoxIn(thin))
  {
    UnscaledBox(10.0, 10.0, 0.5, 10.0, Rect(9, 5, 0, 10));
    UnscaledBox(10.0, 10.0, 20.0, 20.0, Rect(0, 0, 20, 20));
    ThinBoxMeets(BoxIn(box), BoxIn(thin));
  }
}
