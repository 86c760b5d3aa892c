/** Clipped loops over a surface's pixels, and the pointwise meaning of what they do. */
module Raster {
  import opened Common
  import opened Pixels

  datatype Vec = Vec(x: int, y: int)

  datatype Rect = Rect(pos: Vec, size: Vec)

  datatype Clipped = Clipped(begin: Vec, end: Vec)

  function Min(a: int, b: int): int { if a <= b then a else b }

  function Max(a: int, b: int): int { if a >= b then a else b }

  function ClipRect(rect: Rect, dimensions: Vec): Option<Clipped> {
    if rect.size.x <= 0 || rect.size.y <= 0 then None
    else
      var begin := Vec(Max(rect.pos.x, 0), Max(rect.pos.y, 0));
      var end := Vec(Min(rect.pos.x + rect.size.x, dimensions.x), Min(rect.pos.y + rect.size.y, dimensions.y));
      if begin.x >= end.x || begin.y >= end.y then None else Some(Clipped(begin, end))
  }

  predicate InRect(rect: Rect, p: Vec) {
    rect.pos.x <= p.x < rect.pos.x + rect.size.x && rect.pos.y <= p.y < rect.pos.y + rect.size.y
  }

  predicate InSurface(dimensions: Vec, p: Vec) { 0 <= p.x < dimensions.x && 0 <= p.y < dimensions.y }

  predicate InClip(c: Clipped, p: Vec) { c.begin.x <= p.x < c.end.x && c.begin.y <= p.y < c.end.y }

  // Clipping keeps exactly the points of a rectangle that lie on the surface.
  lemma ClipIsIntersection(rect: Rect, dimensions: Vec, p: Vec)
    ensures InRect(rect, p) && InSurface(dimensions, p)
            <==> ClipRect(rect, dimensions).Some? && InClip(ClipRect(rect, dimensions).value, p)
  {
  }

  lemma ClipIsOnSurface(rect: Rect, dimensions: Vec)
    requires ClipRect(rect, dimensions).Some?
    ensures var c := ClipRect(rect, dimensions).value;
            0 <= c.begin.x < c.end.x <= dimensions.x && 0 <= c.begin.y < c.end.y <= dimensions.y
  {
  }

  /** Rows of a surface, one after the other in memory. */

  // The pixel a position in the memory of a surface holds.
  function At(i: nat, width: nat): Vec
    requires 0 < width
  {
    Vec(i % width, i / width)
  }

  lemma IndexIsAt(width: nat, x: nat, y: nat)
    requires x < width
    ensures At(y * width + x, width) == Vec(x, y)
  {
    var q, r := (y * width + x) / width, (y * width + x) % width;
    assert q * width + r == y * width + x;
    Multiples(width, q, y);
    Multiples(width, y, q);
  }

  lemma IndexInSurface(dimensions: Vec, x: nat, y: nat)
    requires x < dimensions.x && y < dimensions.y
    ensures 0 <= y * dimensions.x + x < dimensions.x * dimensions.y
    ensures y * dimensions.x + dimensions.x <= dimensions.x * dimensions.y
  {
    Multiples(dimensions.x, y, dimensions.y);
    ProductOrder(0, y, dimensions.x);
  }

  lemma AtInSurface(dimensions: Vec, i: nat)
    requires 0 < dimensions.x && i < dimensions.x * dimensions.y
    ensures InSurface(dimensions, At(i, dimensions.x))
  {
    var y := i / dimensions.x;
    assert i == y * dimensions.x + i % dimensions.x;
    Multiples(dimensions.x, dimensions.y, y);
    Multiples(dimensions.x, y, 0);
    if y >= dimensions.y { ProductOrder(dimensions.y, y, dimensions.x); }
  }

  type PixelOp = (Vec, Pixel) -> Pixel

  // Every pixel of a rectangle changed once, every other pixel left.
  ghost function Painted(before: seq<Pixel>, width: nat, rect: Rect, op: PixelOp): (after: seq<Pixel>)
    requires 0 < width
    ensures |after| == |before|
    ensures forall i :: 0 <= i < |before| ==>
              after[i] == if InRect(rect, At(i, width)) then op(At(i, width), before[i]) else before[i]
  {
    seq(|before|, i requires 0 <= i < |before| =>
      if InRect(rect, At(i, width)) then op(At(i, width), before[i]) else before[i])
  }

  // How far a raster loop has come: the clipped pixels before a position in memory are done.
  ghost predicate Progress(now: seq<Pixel>, before: seq<Pixel>, width: nat, c: Clipped, op: PixelOp, done: int)
    requires 0 < width
  {
    && |now| == |before|
    && forall i :: 0 <= i < |now| ==>
         now[i] == if i < done && InClip(c, At(i, width)) then op(At(i, width), before[i]) else before[i]
  }

  // Between the end of one row's part and the beginning of the next row's no pixel is in the clipped rectangle.
  lemma NoneBetween(width: nat, c: Clipped, y: nat, i: nat)
    requires 0 <= c.begin.x < c.end.x <= width
    requires y * width + c.end.x <= i < (y + 1) * width + c.begin.x
    ensures !InClip(c, At(i, width))
  {
    var q := i / width;
    assert i == q * width + i % width;
    assert (y + 1) * width == y * width + width;
    Multiples(width, q, y);
    Multiples(width, y, q);
    Multiples(width, y + 1, q);
  }

  lemma NoneBefore(width: nat, c: Clipped, i: nat)
    requires 0 < width && 0 <= c.begin.x && 0 <= c.begin.y && i < c.begin.y * width + c.begin.x
    ensures !InClip(c, At(i, width))
  {
    var q := i / width;
    assert i == q * width + i % width;
    Multiples(width, c.begin.y, q);
  }

  lemma NoneAfter(width: nat, c: Clipped, i: nat)
    requires 0 < width && 0 <= c.begin.x && c.end.y * width + c.begin.x <= i
    ensures !InClip(c, At(i, width))
  {
    var q := i / width;
    assert i == q * width + i % width;
    Multiples(width, q, c.end.y);
  }

  lemma RasterComplete(now: seq<Pixel>, before: seq<Pixel>, dimensions: Vec, rect: Rect, op: PixelOp, done: int)
    requires 0 < dimensions.x && |before| == dimensions.x * dimensions.y && ClipRect(rect, dimensions).Some?
    requires var c := ClipRect(rect, dimensions).value;
             Progress(now, before, dimensions.x, c, op, done) && done == c.end.y * dimensions.x + c.begin.x
    ensures now == Painted(before, dimensions.x, rect, op)
  {
    var c := ClipRect(rect, dimensions).value;
    forall i | 0 <= i < |before|
      ensures InRect(rect, At(i, dimensions.x)) <==> i < done && InClip(c, At(i, dimensions.x))
    {
      AtInSurface(dimensions, i);
      ClipIsIntersection(rect, dimensions, At(i, dimensions.x));
      if i >= done {
        NoneAfter(dimensions.x, c, i);
      }
    }
  }

  lemma NothingPainted(before: seq<Pixel>, dimensions: Vec, rect: Rect, op: PixelOp)
    requires 0 < dimensions.x && |before| == dimensions.x * dimensions.y && ClipRect(rect, dimensions).None?
    ensures Painted(before, dimensions.x, rect, op) == before
  {
    forall i | 0 <= i < |before| ensures !InRect(rect, At(i, dimensions.x)) {
      AtInSurface(dimensions, i);
      ClipIsIntersection(rect, dimensions, At(i, dimensions.x));
    }
  }

  lemma ProgressSkips(now: seq<Pixel>, before: seq<Pixel>, width: nat, c: Clipped, op: PixelOp, done: int, next: int)
    requires 0 < width && Progress(now, before, width, c, op, done) && 0 <= done <= next
    requires forall i :: done <= i < next ==> !InClip(c, At(i, width))
    ensures Progress(now, before, width, c, op, next)
  {
  }

  lemma ProgressSteps(now: seq<Pixel>, before: seq<Pixel>, width: nat, c: Clipped, op: PixelOp, x: nat, y: nat)
    requires x < width && y * width + x < |now| && InClip(c, Vec(x, y))
    requires Progress(now, before, width, c, op, y * width + x)
    ensures now[y * width + x] == before[y * width + x]
    ensures Progress(now[y * width + x := op(Vec(x, y), now[y * width + x])], before, width, c, op, y * width + x + 1)
  {
    IndexIsAt(width, x, y);
  }

  // The same, for a loop that keeps the index.
  lemma ProgressStepsTo(now: seq<Pixel>, before: seq<Pixel>, width: nat, c: Clipped, op: PixelOp, x: nat, y: nat,
                        at: nat, pixel: Pixel, next: nat)
    requires x < width && at == y * width + x < |now| && next == at + 1 && InClip(c, Vec(x, y))
    requires Progress(now, before, width, c, op, at) && pixel == op(Vec(x, y), now[at])
    ensures Progress(now[at := pixel], before, width, c, op, next)
  {
    ProgressSteps(now, before, width, c, op, x, y);
  }

  // Run an operation on every pixel of a rectangle that is on the surface.
  method RasterOperation(dst: array<Pixel>, dimensions: Vec, rect: Rect, op: PixelOp)
    requires 0 <= dimensions.x && 0 <= dimensions.y && dst.Length == dimensions.x * dimensions.y
    modifies dst
    ensures dimensions.x > 0 ==> dst[..] == Painted(old(dst[..]), dimensions.x, rect, op)
  {
    var clipped := ClipRect(rect, dimensions);
    if clipped.None? {
      if dimensions.x > 0 {
        NothingPainted(dst[..], dimensions, rect, op);
      }
      return;
    }
    var c := clipped.value;
    ClipIsOnSurface(rect, dimensions);
    ghost var before, width := dst[..], dimensions.x;
    var row := c.begin.y * dimensions.x;
    var y := c.begin.y;
    StartOfRaster(before, width, c, op);
    while y < c.end.y
      invariant c.begin.y <= y <= c.end.y && row == y * width
      invariant Progress(dst[..], before, width, c, op, row + c.begin.x)
    {
      IndexInSurface(dimensions, 0, y);
      var x := c.begin.x;
      while x < c.end.x
        invariant c.begin.x <= x <= c.end.x
        invariant Progress(dst[..], before, width, c, op, row + x)
      {
        ghost var now := dst[..];
        ProgressSteps(now, before, width, c, op, x, y);
        dst[row + x] := op(Vec(x, y), dst[row + x]);
        assert dst[..] == now[row + x := op(Vec(x, y), now[row + x])];
        x := x + 1;
      }
      assert (y + 1) * width == y * width + width;
      forall i | row + c.end.x <= i < row + width + c.begin.x ensures !InClip(c, At(i, width)) {
        NoneBetween(width, c, y, i);
      }
      ProgressSkips(dst[..], before, width, c, op, row + c.end.x, row + width + c.begin.x);
      row := row + dimensions.x;
      y := y + 1;
    }
    RasterComplete(dst[..], before, dimensions, rect, op, row + c.begin.x);
  }

  lemma StartOfRaster(before: seq<Pixel>, width: nat, c: Clipped, op: PixelOp)
    requires 0 <= c.begin.x < c.end.x <= width && 0 <= c.begin.y
    ensures Progress(before, before, width, c, op, c.begin.y * width + c.begin.x)
  {
    ProductOrder(0, c.begin.y, width);
    forall i | 0 <= i < c.begin.y * width + c.begin.x ensures !InClip(c, At(i, width)) {
      NoneBefore(width, c, i);
    }
  }

  /** Premultiplied surfaces. */

  ghost predicate AllPremultiplied(pixels: seq<Pixel>) {
    forall i :: 0 <= i < |pixels| ==> Premultiplied(pixels[i])
  }

  // An operation that keeps every pixel of a rectangle premultiplied.
  ghost predicate KeepsPremultiplied(op: PixelOp, rect: Rect) {
    forall p: Vec, pixel: Pixel :: InRect(rect, p) && Premultiplied(pixel) ==> Premultiplied(op(p, pixel))
  }

  lemma PaintedIsPremultiplied(before: seq<Pixel>, width: nat, rect: Rect, op: PixelOp)
    requires 0 < width && AllPremultiplied(before) && KeepsPremultiplied(op, rect)
    ensures AllPremultiplied(Painted(before, width, rect, op))
  {
    var after := Painted(before, width, rect, op);
    forall i | 0 <= i < |after| ensures Premultiplied(after[i]) {
      assert Premultiplied(before[i]);
    }
  }
}
