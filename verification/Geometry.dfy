/** Pixel boxes and safety zones, with reals for the floats. */
module Geometry {

  function Max(a: real, b: real): real { if a < b then b else a }
  function Min(a: real, b: real): real { if b < a then b else a }

  /** The length common to [a, a + aw] and [b, b + bw]. */
  function OverlapLength(a: real, aw: real, b: real, bw: real): real {
    Max(0.0, Min(a + aw, b + bw) - Max(a, b))
  }

  datatype BoundingBox = BoundingBox(x: real, y: real, width: real, height: real) {
    function Area(): real { width * height }
    function Right(): real { x + width }
    function Bottom(): real { y + height }

    predicate Intersects(other: BoundingBox) {
      !(|| other.x >= Right()
        || other.Right() <= x
        || other.y >= Bottom()
        || other.Bottom() <= y)
    }

    function Intersection(other: BoundingBox): real {
      OverlapLength(x, width, other.x, other.width) * OverlapLength(y, height, other.y, other.height)
    }

    function Iou(other: BoundingBox): real {
      var union := Area() + other.Area() - Intersection(other);
      if union <= 0.0 then 0.0 else Intersection(other) / union
    }

    function Expanded(padX: real, padY: real): BoundingBox {
      BoundingBox(Max(0.0, x - padX), Max(0.0, y - padY),
                  Max(0.0, width + 2.0 * padX), Max(0.0, height + 2.0 * padY))
    }

    /** The padded box before its corner is clamped to the frame. */
    function Padded(padX: real, padY: real): BoundingBox {
      BoundingBox(x - padX, y - padY, width + 2.0 * padX, height + 2.0 * padY)
    }

    predicate Positive() { width > 0.0 && height > 0.0 }
    predicate NonNegative() { width >= 0.0 && height >= 0.0 }

    predicate Inside(px: real, py: real) {
      x < px < Right() && y < py < Bottom()
    }
  }

  datatype SafetyZone = SafetyZone(forkliftBox: BoundingBox, zoneBox: BoundingBox, forkliftTrackId: int) {
    predicate Overlaps(other: BoundingBox) {
      zoneBox.Intersects(other)
    }
  }

  // ── Intersection ────────────────────────────────────────────────────────────

  ghost predicate SharesInterior(a: BoundingBox, b: BoundingBox) {
    exists px, py :: a.Inside(px, py) && b.Inside(px, py)
  }

  /** `intersects` means a common interior point exactly for boxes of positive size; a box of
      zero width can still "intersect" a box it cuts through. */
  lemma IntersectsExactly(a: BoundingBox, b: BoundingBox)
    ensures SharesInterior(a, b) <==> a.Intersects(b) && a.Positive() && b.Positive()
    ensures a.Intersects(b) == b.Intersects(a)
  {
    if a.Intersects(b) && a.Positive() && b.Positive() {
      var px := (Max(a.x, b.x) + Min(a.Right(), b.Right())) / 2.0;
      var py := (Max(a.y, b.y) + Min(a.Bottom(), b.Bottom())) / 2.0;
      assert a.Inside(px, py) && b.Inside(px, py);
    }
  }

  // ── Intersection over union ─────────────────────────────────────────────────

  lemma PositiveProduct(x: real, y: real)
    requires x > 0.0 && y > 0.0
    ensures x * y > 0.0
  {
  }

  lemma ScaleLess(a: real, b: real, c: real)
    requires c > 0.0 && a < b
    ensures a * c < b * c
  {
    PositiveProduct(b - a, c);
    assert (b - a) * c == b * c - a * c;
  }

  lemma Unscale(a: real, b: real, c: real)
    requires c > 0.0 && a * c <= b * c
    ensures a <= b
  {
    if b < a {
      ScaleLess(b, a, c);
    }
  }

  lemma ScaleAtMost(a: real, b: real, c: real)
    requires 0.0 <= c && a <= b
    ensures a * c <= b * c
  {
    if a < b && 0.0 < c {
      ScaleLess(a, b, c);
    }
  }

  /** A product of bounded factors: its range, and when it reaches either end. */
  lemma ProductBound(a: real, b: real, c: real, d: real)
    requires 0.0 <= a <= c && 0.0 <= b <= d && c > 0.0 && d > 0.0
    ensures 0.0 <= a * b <= c * d
    ensures a * b > 0.0 <==> a > 0.0 && b > 0.0
    ensures a * b == c * d <==> a == c && b == d
  {
    ScaleAtMost(a, c, b);
    ScaleAtMost(b, d, c);
    assert b * c == c * b && d * c == c * d;
    if a > 0.0 && b > 0.0 {
      PositiveProduct(a, b);
      if a < c {
        ScaleLess(a, c, b);
      } else if b < d {
        ScaleLess(b, d, c);
      }
    } else {
      PositiveProduct(c, d);
      ZeroProduct(a, b);
    }
  }

  lemma ZeroProduct(a: real, b: real)
    requires a == 0.0 || b == 0.0
    ensures a * b == 0.0
  {
  }

  lemma OverlapFacts(a: BoundingBox, b: BoundingBox)
    requires a.Positive() && b.Positive()
    ensures var iw, ih := OverlapLength(a.x, a.width, b.x, b.width), OverlapLength(a.y, a.height, b.y, b.height);
      && iw == OverlapLength(b.x, b.width, a.x, a.width) && ih == OverlapLength(b.y, b.height, a.y, a.height)
      && 0.0 <= iw <= a.width && iw <= b.width && 0.0 <= ih <= a.height && ih <= b.height
      && (iw > 0.0 && ih > 0.0 <==> a.Intersects(b))
      && (iw == a.width == b.width && ih == a.height == b.height <==> a == b)
  {
  }

  lemma ProductFacts(p: real, iw: real, ih: real, a: BoundingBox, b: BoundingBox)
    requires p == iw * ih && a.Positive() && b.Positive()
    requires 0.0 <= iw <= a.width && iw <= b.width && 0.0 <= ih <= a.height && ih <= b.height
    ensures 0.0 <= p <= a.Area() && p <= b.Area()
    ensures p > 0.0 <==> iw > 0.0 && ih > 0.0
    ensures p == a.Area() == b.Area() <==> iw == a.width == b.width && ih == a.height == b.height
    ensures a.Area() > 0.0
  {
    ProductBound(iw, ih, a.width, a.height);
    ProductBound(iw, ih, b.width, b.height);
    ProductBound(a.width, a.height, a.width, a.height);
  }

  lemma Overlap(a: BoundingBox, b: BoundingBox) returns (iw: real, ih: real)
    requires a.Positive() && b.Positive()
    ensures iw * ih == a.Intersection(b) == b.Intersection(a)
    ensures 0.0 <= iw <= a.width && iw <= b.width && 0.0 <= ih <= a.height && ih <= b.height
    ensures iw > 0.0 && ih > 0.0 <==> a.Intersects(b)
    ensures iw == a.width == b.width && ih == a.height == b.height <==> a == b
  {
    OverlapFacts(a, b);
    iw := OverlapLength(a.x, a.width, b.x, b.width);
    ih := OverlapLength(a.y, a.height, b.y, b.height);
  }

  lemma IntersectionBounds(a: BoundingBox, b: BoundingBox, n: real)
    requires a.Positive() && b.Positive() && n == a.Intersection(b)
    ensures n == b.Intersection(a)
    ensures 0.0 <= n <= a.Area() && n <= b.Area()
    ensures n > 0.0 <==> a.Intersects(b)
    ensures n == a.Area() == b.Area() <==> a == b
    ensures a.Area() > 0.0
  {
    var iw, ih := Overlap(a, b);
    ProductFacts(n, iw, ih, a, b);
  }

  lemma QuotientTimes(n: real, d: real) returns (q: real)
    requires d > 0.0
    ensures q == n / d && q * d == n
  {
    q := n / d;
  }

  lemma DivBetween(n: real, d: real)
    requires 0.0 <= n <= d && d > 0.0
    ensures 0.0 <= n / d <= 1.0
    ensures n / d > 0.0 <==> n > 0.0
    ensures n / d == 1.0 <==> n == d
  {
    var q := QuotientTimes(n, d);
    if q < 0.0 {
      ScaleLess(q, 0.0, d);
    } else if q > 0.0 {
      PositiveProduct(q, d);
    } else {
      ZeroProduct(q, d);
    }
    if q < 1.0 {
      ScaleLess(q, 1.0, d);
    } else if q > 1.0 {
      ScaleLess(1.0, q, d);
    }
  }

  /** The intersection is the area of the box of the points that both boxes contain. */
  lemma IntersectionIsSharedArea(a: BoundingBox, b: BoundingBox) returns (shared: BoundingBox)
    requires a.Positive() && b.Positive() && a.Intersects(b)
    ensures shared.Positive() && a.Intersection(b) == shared.width * shared.height
    ensures forall px, py :: shared.Inside(px, py) <==> a.Inside(px, py) && b.Inside(px, py)
  {
    shared := BoundingBox(Max(a.x, b.x), Max(a.y, b.y),
                          OverlapLength(a.x, a.width, b.x, b.width), OverlapLength(a.y, a.height, b.y, b.height));
  }

  lemma IouIsQuotient(a: BoundingBox, b: BoundingBox, union: real)
    requires union == a.Area() + b.Area() - a.Intersection(b) && union > 0.0
    ensures a.Iou(b) == a.Intersection(b) / union
  {
  }

  /** The score is the intersection's share of the area of the two boxes together. */
  lemma IouIsRatio(a: BoundingBox, b: BoundingBox)
    requires a.Positive() && b.Positive()
    ensures a.Area() + b.Area() - a.Intersection(b) > 0.0
    ensures a.Iou(b) * (a.Area() + b.Area() - a.Intersection(b)) == a.Intersection(b)
  {
    var n := a.Intersection(b);
    IntersectionBounds(a, b, n);
    var union := a.Area() + b.Area() - n;
    var q := QuotientTimes(n, union);
    IouIsQuotient(a, b, union);
  }

  /** For boxes of positive size the score is symmetric, lies in [0, 1], is positive exactly
      for intersecting boxes and 1 exactly for equal ones. */
  lemma IouFacts(a: BoundingBox, b: BoundingBox)
    requires a.Positive() && b.Positive()
    ensures a.Iou(b) == b.Iou(a)
    ensures 0.0 <= a.Iou(b) <= 1.0
    ensures a.Iou(b) > 0.0 <==> a.Intersects(b)
    ensures a.Iou(b) == 1.0 <==> a == b
  {
    var n := a.Intersection(b);
    IntersectionBounds(a, b, n);
    DivBetween(n, a.Area() + b.Area() - n);
  }

  // ── Padding and clamping ────────────────────────────────────────────────────

  ghost predicate Encloses(outer: BoundingBox, inner: BoundingBox) {
    && outer.x <= inner.x && inner.Right() <= outer.Right()
    && outer.y <= inner.y && inner.Bottom() <= outer.Bottom()
  }

  lemma EnclosingMeetsMore(outer: BoundingBox, inner: BoundingBox, other: BoundingBox)
    requires Encloses(outer, inner) && inner.Intersects(other)
    ensures outer.Intersects(other)
  {
  }

  /** Clamping the corner never loses a box that reaches into the frame. */
  lemma ClampingLosesNothing(box: BoundingBox, padX: real, padY: real, person: BoundingBox)
    requires box.NonNegative() && padX >= 0.0 && padY >= 0.0
    requires person.Right() > 0.0 && person.Bottom() > 0.0
    requires box.Padded(padX, padY).Intersects(person)
    ensures box.Expanded(padX, padY).Intersects(person)
  {
  }

  ghost predicate ClampAgrees(box: BoundingBox, padX: real, padY: real) {
    forall person: BoundingBox :: person.Right() > 0.0 && person.Bottom() > 0.0 && person.NonNegative() ==>
      (box.Expanded(padX, padY).Intersects(person) <==> box.Padded(padX, padY).Intersects(person))
  }

  /** Clamping moves the corner but keeps the size, so the far edge moves out as well.  The
      clamped zone meets exactly the boxes the padded one meets only when nothing is clamped. */
  lemma ClampIsExactOnlyInsideFrame(box: BoundingBox, padX: real, padY: real)
    requires box.Positive() && padX >= 0.0 && padY >= 0.0
    ensures ClampAgrees(box, padX, padY) <==> box.x >= padX && box.y >= padY
  {
    var zone, padded := box.Expanded(padX, padY), box.Padded(padX, padY);
    if box.x < padX {
      var start := Max(padded.Right(), 0.0);
      var person := BoundingBox(start, zone.y, zone.Right() - start, zone.height);
      assert zone.Intersects(person) && !padded.Intersects(person);
    } else if box.y < padY {
      var start := Max(padded.Bottom(), 0.0);
      var person := BoundingBox(zone.x, start, zone.width, zone.Bottom() - start);
      assert zone.Intersects(person) && !padded.Intersects(person);
    }
  }

  lemma PaddingGrowsBox(box: BoundingBox, padX: real, padY: real, padX': real, padY': real)
    requires box.NonNegative() && 0.0 <= padX <= padX' && 0.0 <= padY <= padY'
    ensures Encloses(box.Expanded(padX', padY'), box.Expanded(padX, padY))
  {
  }
}
