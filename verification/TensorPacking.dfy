/** Repacking an interleaved image (row, column, channel) into planes (channel, row, column). */
module TensorPacking {
  import opened Arithmetic

  /** Where channel `k` of pixel (r, c) is in the interleaved and in the planar layout. */
  function Hwc(width: nat, r: nat, c: nat, k: nat): nat {
    (r * width + c) * 3 + k
  }

  function Chw(height: nat, width: nat, r: nat, c: nat, k: nat): nat {
    k * height * width + r * width + c
  }

  predicate InImage(height: nat, width: nat, r: nat, c: nat, k: nat) {
    r < height && c < width && k < 3
  }

  /** The pixel's position in reading order; every formula below is linear in it. */
  lemma PixelInBounds(height: nat, width: nat, r: nat, c: nat)
    requires r < height && c < width
    ensures 0 <= r * width + c < height * width
    ensures (r * width + c) / width == r && (r * width + c) % width == c
  {
    NonNegativeProduct(r, width);
    MulLess(r, height, width);
    QuotientUnique(r * width + c, width, r, c);
  }

  lemma PlaneIndex(height: nat, width: nat, r: nat, c: nat, k: nat)
    requires InImage(height, width, r, c, k)
    ensures Chw(height, width, r, c, k) == k * (height * width) + (r * width + c)
    ensures Chw(height, width, r, c, k) < 3 * (height * width)
    ensures Hwc(width, r, c, k) < 3 * (height * width)
  {
    PixelInBounds(height, width, r, c);
    Reassociate(k, height, width);
    MulMono(k, 2, height * width);
  }

  lemma Reassociate(a: nat, b: nat, c: nat)
    ensures a * b * c == a * (b * c)
  {
  }

  // ── Both layouts are numberings of the same cells ───────────────────────────

  function RowOf(width: nat, pixel: nat): nat
    requires width > 0
  {
    pixel / width
  }

  function ColOf(width: nat, pixel: nat): nat
    requires width > 0
  {
    pixel % width
  }

  lemma PixelSplits(height: nat, width: nat, pixel: nat)
    requires pixel < height * width
    ensures width > 0
    ensures RowOf(width, pixel) < height && ColOf(width, pixel) < width
    ensures RowOf(width, pixel) * width + ColOf(width, pixel) == pixel
  {
    assert width > 0;
    var r, c := QuotientParts(pixel, width);
    if r >= height {
      MulMono(height, r, width);
    } else if r < 0 {
      MulLess(r, 0, width);
    }
  }

  /** The place determines channel, row and column. */
  lemma PlaceIsUnique(height: nat, width: nat, cell: nat, r: nat, c: nat, k: nat)
    requires height * width > 0 && width > 0
    requires InImage(height, width, r, c, k) && Chw(height, width, r, c, k) == cell
    ensures k == cell / (height * width)
    ensures r == RowOf(width, cell % (height * width)) && c == ColOf(width, cell % (height * width))
  {
    PlaneIndex(height, width, r, c, k);
    PixelInBounds(height, width, r, c);
    QuotientUnique(cell, height * width, k, r * width + c);
  }

  /** Every cell of the planar buffer is the place of exactly one channel of one pixel. */
  lemma ChwIsBijective(height: nat, width: nat, cell: nat)
    requires cell < 3 * (height * width)
    ensures exists r: nat, c: nat, k: nat :: InImage(height, width, r, c, k) && Chw(height, width, r, c, k) == cell
    ensures forall r: nat, c: nat, k: nat, r': nat, c': nat, k': nat ::
              InImage(height, width, r, c, k) && Chw(height, width, r, c, k) == cell &&
              InImage(height, width, r', c', k') && Chw(height, width, r', c', k') == cell ==>
              r == r' && c == c' && k == k'
  {
    var plane := height * width;
    SplitCell(plane, cell);
    var k, pixel := cell / plane, cell % plane;
    PixelSplits(height, width, pixel);
    var r, c := RowOf(width, pixel), ColOf(width, pixel);
    PlaneIndex(height, width, r, c, k);
    assert InImage(height, width, r, c, k) && Chw(height, width, r, c, k) == cell;
    forall r': nat, c': nat, k': nat | InImage(height, width, r', c', k') && Chw(height, width, r', c', k') == cell
      ensures r' == r && c' == c && k' == k
    {
      PlaceIsUnique(height, width, cell, r', c', k');
    }
  }

  // ── The planar image, its inverse, and the loop ─────────────────────────────

  lemma SplitCell(plane: nat, cell: nat)
    requires cell < 3 * plane
    ensures cell / plane < 3 && cell % plane < plane && cell == (cell / plane) * plane + cell % plane
    ensures (cell % plane) * 3 + cell / plane < 3 * plane
    ensures 0 <= cell / plane
  {
    var k, x := QuotientParts(cell, plane);
    if k >= 3 {
      MulMono(3, k, plane);
    } else if k < 0 {
      MulLess(k, 0, plane);
    }
  }

  /** Cell `cell` of the planes, read from the interleaved image. */
  function PlanarCell(image: seq<real>, plane: nat, cell: nat): real
    requires |image| == 3 * plane && cell < 3 * plane
  {
    SplitCell(plane, cell);
    image[(cell % plane) * 3 + cell / plane]
  }

  function Planar(image: seq<real>, plane: nat): seq<real>
    requires |image| == 3 * plane
  {
    seq(3 * plane, cell requires 0 <= cell < 3 * plane => PlanarCell(image, plane, cell))
  }

  lemma JoinCell(plane: nat, j: nat)
    requires j < 3 * plane
    ensures (j % 3) * plane + j / 3 < 3 * plane
    ensures ((j % 3) * plane + j / 3) / plane == j % 3 && ((j % 3) * plane + j / 3) % plane == j / 3
  {
    var k, x := j % 3, j / 3;
    MulMono(k, 2, plane);
    NonNegativeProduct(k, plane);
    QuotientUnique(k * plane + x, plane, k, x);
  }

  function InterleavedCell(blob: seq<real>, plane: nat, j: nat): real
    requires |blob| == 3 * plane && j < 3 * plane
  {
    JoinCell(plane, j);
    blob[(j % 3) * plane + j / 3]
  }

  function Interleaved(blob: seq<real>, plane: nat): seq<real>
    requires |blob| == 3 * plane
  {
    seq(3 * plane, j requires 0 <= j < 3 * plane => InterleavedCell(blob, plane, j))
  }

  lemma UnpackUndoesPack(data: seq<real>, plane: nat)
    requires |data| == 3 * plane
    ensures Interleaved(Planar(data, plane), plane) == data
  {
    forall j | 0 <= j < 3 * plane ensures InterleavedCell(Planar(data, plane), plane, j) == data[j] {
      JoinCell(plane, j);
    }
  }

  /** Channel `k` of pixel `x` is at x * 3 + k in the interleaved layout. */
  lemma InterleavedPlace(x: nat, k: nat)
    requires k < 3
    ensures (x * 3 + k) % 3 == k && (x * 3 + k) / 3 == x
  {
  }

  lemma CellOfCell(plane: nat, cell: nat)
    requires cell < 3 * plane
    ensures var j := (cell % plane) * 3 + cell / plane;
      j < 3 * plane && (j % 3) * plane + j / 3 == cell
  {
    SplitCell(plane, cell);
    var x, k := cell % plane, cell / plane;
    InterleavedPlace(x, k);
    assert k * plane + x == cell;
  }

  lemma PackUndoesUnpackAt(data: seq<real>, plane: nat, cell: nat)
    requires |data| == 3 * plane && cell < 3 * plane
    ensures PlanarCell(Interleaved(data, plane), plane, cell) == data[cell]
  {
    CellOfCell(plane, cell);
    SplitCell(plane, cell);
    var j := (cell % plane) * 3 + cell / plane;
    assert PlanarCell(Interleaved(data, plane), plane, cell) == InterleavedCell(data, plane, j);
  }

  lemma PackUndoesUnpack(data: seq<real>, plane: nat)
    requires |data| == 3 * plane
    ensures Planar(Interleaved(data, plane), plane) == data
  {
    forall cell: nat | cell < 3 * plane ensures PlanarCell(Interleaved(data, plane), plane, cell) == data[cell] {
      PackUndoesUnpackAt(data, plane, cell);
    }
  }

  /** Packing loses nothing and invents nothing: it can be undone, from either side. */
  lemma PackingIsInvertible(data: seq<real>, plane: nat)
    requires |data| == 3 * plane
    ensures Interleaved(Planar(data, plane), plane) == data
    ensures Planar(Interleaved(data, plane), plane) == data
  {
    UnpackUndoesPack(data, plane);
    PackUndoesUnpack(data, plane);
  }

  /** The planar image holds channel k of pixel (r, c) where the tensor layout says. */
  lemma PlanarAt(image: seq<real>, height: nat, width: nat, r: nat, c: nat, k: nat)
    requires |image| == 3 * (height * width) && InImage(height, width, r, c, k)
    ensures Chw(height, width, r, c, k) < 3 * (height * width) && Hwc(width, r, c, k) < 3 * (height * width)
    ensures Planar(image, height * width)[Chw(height, width, r, c, k)] == image[Hwc(width, r, c, k)]
  {
    PlaneIndex(height, width, r, c, k);
    PixelInBounds(height, width, r, c);
    QuotientUnique(Chw(height, width, r, c, k), height * width, k, r * width + c);
  }

  ghost predicate CellPacked(image: seq<real>, blob: seq<real>, writes: seq<nat>, plane: nat, pixels: nat, cell: nat)
    requires |image| == |blob| == |writes| == 3 * plane && cell < 3 * plane
  {
    SplitCell(plane, cell);
    if cell % plane < pixels then writes[cell] == 1 && blob[cell] == PlanarCell(image, plane, cell)
    else writes[cell] == 0
  }

  /** The first `pixels` pixels have been packed, each of their cells by one write. */
  ghost predicate PackedUpTo(image: seq<real>, blob: seq<real>, writes: seq<nat>, plane: nat, pixels: nat) {
    && |image| == |blob| == |writes| == 3 * plane
    && forall cell: nat :: cell < 3 * plane ==> CellPacked(image, blob, writes, plane, pixels, cell)
  }

  /** What one turn of the loop writes, and how often each cell has been written after it. */
  ghost function PixelWritten(blob: seq<real>, image: seq<real>, plane: nat, p: nat): seq<real>
    requires |image| == |blob| == 3 * plane && p < plane
  {
    blob[p := image[p * 3]][plane + p := image[p * 3 + 1]][2 * plane + p := image[p * 3 + 2]]
  }

  ghost function Counted(writes: seq<nat>, plane: nat, p: nat): seq<nat>
    requires |writes| == 3 * plane && p < plane
  {
    writes[p := writes[p] + 1][plane + p := writes[plane + p] + 1][2 * plane + p := writes[2 * plane + p] + 1]
  }

  /** One turn of the loop, seen at channel `k` of pixel `x`. */
  lemma PixelStepAt(image: seq<real>, blob: seq<real>, writes: seq<nat>, plane: nat, p: nat, k: nat, x: nat)
    requires |image| == |blob| == |writes| == 3 * plane && p < plane && k < 3 && x < plane
    requires k * plane + x < 3 * plane
    ensures var cell := k * plane + x;
      && PixelWritten(blob, image, plane, p)[cell] == (if x == p then image[p * 3 + k] else blob[cell])
      && Counted(writes, plane, p)[cell] == (if x == p then writes[cell] + 1 else writes[cell])
  {
    if k == 0 {
      assert k * plane + x == x;
    } else if k == 1 {
      assert k * plane + x == plane + x;
    } else {
      assert k * plane + x == 2 * plane + x;
    }
  }

  lemma PixelStep(image: seq<real>, blob: seq<real>, writes: seq<nat>, plane: nat, p: nat)
    requires PackedUpTo(image, blob, writes, plane, p) && p < plane
    ensures PackedUpTo(image, PixelWritten(blob, image, plane, p), Counted(writes, plane, p), plane, p + 1)
  {
    var blob', writes' := PixelWritten(blob, image, plane, p), Counted(writes, plane, p);
    var next := p + 1;
    forall cell: nat | cell < 3 * plane ensures CellPacked(image, blob', writes', plane, next, cell) {
      assert CellPacked(image, blob, writes, plane, p, cell);
      SplitCell(plane, cell);
      PixelStepAt(image, blob, writes, plane, p, cell / plane, cell % plane);
    }
  }

  lemma AllPacked(image: seq<real>, blob: seq<real>, writes: seq<nat>, plane: nat)
    requires PackedUpTo(image, blob, writes, plane, plane)
    ensures blob == Planar(image, plane) && writes == seq(3 * plane, _ => 1)
  {
    forall cell: nat | cell < 3 * plane
      ensures writes[cell] == 1 && blob[cell] == Planar(image, plane)[cell]
    {
      assert CellPacked(image, blob, writes, plane, plane, cell);
      SplitCell(plane, cell);
    }
  }

  /** The three places the loop body writes, for the pixel at (r, c). */
  lemma PixelIndices(height: nat, width: nat, r: nat, c: nat)
    requires r < height && c < width
    ensures var plane, p := height * width, r * width + c;
      && p < plane
      && 0 * height * width + r * width + c == p
      && 1 * height * width + r * width + c == plane + p
      && 2 * height * width + r * width + c == 2 * plane + p
  {
    PixelInBounds(height, width, r, c);
    Reassociate(2, height, width);
  }

  /** The loop body: the three channels of the pixel at (r, c). */
  method WritePixel(blob: array<real>, image: seq<real>, height: nat, width: nat, r: nat, c: nat)
    requires |image| == blob.Length == 3 * (height * width) && r < height && c < width
    requires r * width + c < height * width
    modifies blob
    ensures blob[..] == PixelWritten(old(blob[..]), image, height * width, r * width + c)
  {
    PixelIndices(height, width, r, c);
    blob[0 * height * width + r * width + c] := image[(r * width + c) * 3 + 0];
    blob[1 * height * width + r * width + c] := image[(r * width + c) * 3 + 1];
    blob[2 * height * width + r * width + c] := image[(r * width + c) * 3 + 2];
  }

  /** The planar buffer is the planar image, and every one of its cells is written exactly once. */
  method Pack(image: seq<real>, height: nat, width: nat) returns (blob: array<real>, ghost writes: seq<nat>)
    requires |image| == 3 * (height * width)
    ensures blob.Length == 3 * (height * width) && blob[..] == Planar(image, height * width)
    ensures writes == seq(3 * (height * width), _ => 1)
  {
    ghost var plane := height * width;
    Reassociate(3, height, width);
    blob := new real[3 * height * width](_ => 0.0);
    writes := seq(3 * plane, _ => 0);
    for r := 0 to height
      invariant PackedUpTo(image, blob[..], writes, plane, r * width)
    {
      for c := 0 to width
        invariant PackedUpTo(image, blob[..], writes, plane, r * width + c)
      {
        PixelInBounds(height, width, r, c);
        PixelStep(image, blob[..], writes, plane, r * width + c);
        WritePixel(blob, image, height, width, r, c);
        writes := Counted(writes, plane, r * width + c);
      }
      OneMore(r + 1, width);
    }
    AllPacked(image, blob[..], writes, plane);
  }
}
