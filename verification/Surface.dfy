/** The software surface: drawing operations as the pointwise change they make to its pixels. */
module Surface {
  import opened Common
  import opened Pixels
  import opened Raster
  import opened StridedImage
  import opened Lines

  function FillOp(color: Pixel): PixelOp { (p: Vec, pixel: Pixel) => color }

  function SourceOverOp(source: Pixel): PixelOp { (p: Vec, pixel: Pixel) => CompositeSourceOver(source, pixel) }

  function HorizontalOp(rect: Rect, left: Pixel, right: Pixel): PixelOp {
    (p: Vec, pixel: Pixel) => Interpolate(left, right, p.x - rect.pos.x, Max(rect.size.x - 1, 1))
  }

  function VerticalOp(rect: Rect, top: Pixel, bottom: Pixel): PixelOp {
    (p: Vec, pixel: Pixel) => Interpolate(top, bottom, p.y - rect.pos.y, Max(rect.size.y - 1, 1))
  }

  function BilinearOp(rect: Rect, topLeft: Pixel, topRight: Pixel, bottomLeft: Pixel, bottomRight: Pixel): PixelOp {
    (p: Vec, pixel: Pixel) =>
      Interpolate(HorizontalOp(rect, topLeft, topRight)(p, pixel), HorizontalOp(rect, bottomLeft, bottomRight)(p, pixel),
                  p.y - rect.pos.y, Max(rect.size.y - 1, 1))
  }

  function CheckerOp(rect: Rect, cell: Vec, first: Pixel, second: Pixel): PixelOp
    requires 0 < cell.x && 0 < cell.y
  {
    (p: Vec, pixel: Pixel) =>
      if ((p.x - rect.pos.x) / cell.x + (p.y - rect.pos.y) / cell.y) % 2 == 0 then first else second
  }

  // Shapes: how far a pixel is covered decides how far it is replaced or drawn over; uncovered ones are left.
  function ReplaceOp(coverage: Vec -> real, color: Pixel): PixelOp {
    (p: Vec, pixel: Pixel) => if coverage(p) > 0.0 then ReplaceCoverage(color, coverage(p), pixel) else pixel
  }

  function OverOp(coverage: Vec -> real, color: StraightPixel): PixelOp {
    (p: Vec, pixel: Pixel) => if coverage(p) > 0.0 then SourceOverCoverage(color, coverage(p), pixel) else pixel
  }

  function DrawStraight(source: StraightPixel, pixel: Pixel): Pixel {
    CompositeSourceOver(Premultiply(source), pixel)
  }

  function DrawSrgb(table: Channel -> Channel): (Pixel, Pixel) -> Pixel {
    (source: Pixel, pixel: Pixel) => CompositeSourceOver(ConvertSrgb(source, table), pixel)
  }

  function DrawCoverage(color: StraightPixel): (Channel, Pixel) -> Pixel {
    (coverage: Channel, pixel: Pixel) => SourceOverCoverage(color, coverage as real / 255.0, pixel)
  }

  /** Every operation keeps pixels premultiplied, given premultiplied colours. */

  lemma GradientStep(offset: int, size: int)
    requires 0 <= offset < size
    ensures 0 <= offset <= Max(size - 1, 1)
  {
  }

  lemma HorizontalKeeps(rect: Rect, left: Pixel, right: Pixel)
    requires Premultiplied(left) && Premultiplied(right)
    ensures KeepsPremultiplied(HorizontalOp(rect, left, right), rect)
  {
    forall p: Vec, pixel: Pixel | InRect(rect, p) && Premultiplied(pixel)
      ensures Premultiplied(HorizontalOp(rect, left, right)(p, pixel))
    {
      GradientStep(p.x - rect.pos.x, rect.size.x);
      InterpolateIsPremultiplied(left, right, p.x - rect.pos.x, Max(rect.size.x - 1, 1));
    }
  }

  // Gradients have their colours at the edges and corners of their rectangle.
  lemma GradientEdges(rect: Rect, p: Vec, a: Pixel, b: Pixel, pixel: Pixel)
    requires InRect(rect, p)
    ensures p.x == rect.pos.x ==> HorizontalOp(rect, a, b)(p, pixel) == a
    ensures p.x == rect.pos.x + rect.size.x - 1 && 1 < rect.size.x ==> HorizontalOp(rect, a, b)(p, pixel) == b
    ensures p.y == rect.pos.y ==> VerticalOp(rect, a, b)(p, pixel) == a
    ensures p.y == rect.pos.y + rect.size.y - 1 && 1 < rect.size.y ==> VerticalOp(rect, a, b)(p, pixel) == b
  {
    InterpolateEnds(a, b, Max(rect.size.x - 1, 1));
    InterpolateEnds(a, b, Max(rect.size.y - 1, 1));
  }

  // Along its first and last row a bilinear gradient is the horizontal one between that row's corners.
  lemma BilinearRows(rect: Rect, p: Vec, topLeft: Pixel, topRight: Pixel, bottomLeft: Pixel, bottomRight: Pixel,
                     pixel: Pixel)
    requires InRect(rect, p)
    ensures var r := BilinearOp(rect, topLeft, topRight, bottomLeft, bottomRight)(p, pixel);
            (p.y == rect.pos.y ==> r == HorizontalOp(rect, topLeft, topRight)(p, pixel))
            && (p.y == rect.pos.y + rect.size.y - 1 && 1 < rect.size.y ==>
                  r == HorizontalOp(rect, bottomLeft, bottomRight)(p, pixel))
  {
    InterpolateEnds(HorizontalOp(rect, topLeft, topRight)(p, pixel),
                    HorizontalOp(rect, bottomLeft, bottomRight)(p, pixel), Max(rect.size.y - 1, 1));
  }

  // Neighbouring cells of a checkerboard have different colours, and the first cell the first.
  lemma CheckerAlternates(rect: Rect, cell: Vec, first: Pixel, second: Pixel, p: Vec, pixel: Pixel)
    requires 0 < cell.x && 0 < cell.y && InRect(rect, p) && first != second
    ensures var op := CheckerOp(rect, cell, first, second);
            op(Vec(p.x + cell.x, p.y), pixel) != op(p, pixel) && op(Vec(p.x, p.y + cell.y), pixel) != op(p, pixel)
            && op(Vec(p.x + cell.x, p.y + cell.y), pixel) == op(p, pixel)
            && (p.x < rect.pos.x + cell.x && p.y < rect.pos.y + cell.y ==> op(p, pixel) == first)
  {
    NextCell(p.x - rect.pos.x, cell.x);
    NextCell(p.y - rect.pos.y, cell.y);
  }

  lemma NextCell(n: nat, d: nat)
    requires 0 < d
    ensures (n + d) / d == n / d + 1
    ensures n < d ==> n / d == 0
  {
    var q, r := n / d, n % d;
    assert n == q * d + r;
    QuotientOfMultiple(q + 1, d, r);
    assert (q + 1) * d == q * d + d;
    if n < d { QuotientOfMultiple(0, d, n); }
  }

  lemma VerticalKeeps(rect: Rect, top: Pixel, bottom: Pixel)
    requires Premultiplied(top) && Premultiplied(bottom)
    ensures KeepsPremultiplied(VerticalOp(rect, top, bottom), rect)
  {
    forall p: Vec, pixel: Pixel | InRect(rect, p) && Premultiplied(pixel)
      ensures Premultiplied(VerticalOp(rect, top, bottom)(p, pixel))
    {
      GradientStep(p.y - rect.pos.y, rect.size.y);
      InterpolateIsPremultiplied(top, bottom, p.y - rect.pos.y, Max(rect.size.y - 1, 1));
    }
  }

  lemma BilinearKeeps(rect: Rect, topLeft: Pixel, topRight: Pixel, bottomLeft: Pixel, bottomRight: Pixel)
    requires Premultiplied(topLeft) && Premultiplied(topRight) && Premultiplied(bottomLeft) && Premultiplied(bottomRight)
    ensures KeepsPremultiplied(BilinearOp(rect, topLeft, topRight, bottomLeft, bottomRight), rect)
  {
    var op := BilinearOp(rect, topLeft, topRight, bottomLeft, bottomRight);
    var above, below := HorizontalOp(rect, topLeft, topRight), HorizontalOp(rect, bottomLeft, bottomRight);
    HorizontalKeeps(rect, topLeft, topRight);
    HorizontalKeeps(rect, bottomLeft, bottomRight);
    forall p: Vec, pixel: Pixel | InRect(rect, p) && Premultiplied(pixel) ensures Premultiplied(op(p, pixel)) {
      GradientStep(p.y - rect.pos.y, rect.size.y);
      assert Premultiplied(above(p, pixel)) && Premultiplied(below(p, pixel));
      InterpolateIsPremultiplied(above(p, pixel), below(p, pixel), p.y - rect.pos.y, Max(rect.size.y - 1, 1));
    }
  }

  lemma SourceOverKeeps(source: Pixel, rect: Rect)
    requires Premultiplied(source)
    ensures KeepsPremultiplied(SourceOverOp(source), rect)
  {
    forall p: Vec, pixel: Pixel | InRect(rect, p) && Premultiplied(pixel)
      ensures Premultiplied(SourceOverOp(source)(p, pixel))
    {
      CompositeIsPremultiplied(source, pixel);
    }
  }

  lemma ReplaceKeeps(coverage: Vec -> real, color: Pixel, rect: Rect)
    requires Premultiplied(color)
    ensures KeepsPremultiplied(ReplaceOp(coverage, color), rect)
  {
    forall p: Vec, pixel: Pixel | InRect(rect, p) && Premultiplied(pixel)
      ensures Premultiplied(ReplaceOp(coverage, color)(p, pixel))
    {
      if coverage(p) > 0.0 {
        ReplaceIsPremultiplied(color, coverage(p), pixel);
      }
    }
  }

  lemma OverKeeps(coverage: Vec -> real, color: StraightPixel, rect: Rect)
    ensures KeepsPremultiplied(OverOp(coverage, color), rect)
  {
    forall p: Vec, pixel: Pixel | InRect(rect, p) && Premultiplied(pixel)
      ensures Premultiplied(OverOp(coverage, color)(p, pixel))
    {
      if coverage(p) > 0.0 {
        SourceOverCoverageIsPremultiplied(color, coverage(p), pixel);
      }
    }
  }

  // Whatever pixel of the image is drawn, the surface's pixel stays premultiplied.
  ghost predicate DrawsPremultiplied<S(!new)>(op: (S, Pixel) -> Pixel) {
    forall s: S, pixel: Pixel :: Premultiplied(pixel) ==> Premultiplied(op(s, pixel))
  }

  lemma CopyKeeps<S(!new)>(v: View<S>, pos: Vec, op: (S, Pixel) -> Pixel, rect: Rect)
    requires DrawsPremultiplied(op)
    ensures KeepsPremultiplied(CopyOp(v, pos, op), rect)
  {
  }

  lemma StraightDrawsPremultiplied()
    ensures DrawsPremultiplied(DrawStraight)
  {
    forall s: StraightPixel, pixel: Pixel | Premultiplied(pixel) ensures Premultiplied(DrawStraight(s, pixel)) {
      PremultiplyIsPremultiplied(s);
      CompositeIsPremultiplied(Premultiply(s), pixel);
    }
  }

  lemma SrgbDrawsPremultiplied(table: Channel -> Channel)
    ensures DrawsPremultiplied(DrawSrgb(table))
  {
    forall s: Pixel, pixel: Pixel | Premultiplied(pixel) ensures Premultiplied(DrawSrgb(table)(s, pixel)) {
      ConvertIsPremultiplied(s, table);
      CompositeIsPremultiplied(ConvertSrgb(s, table), pixel);
    }
  }

  lemma CoverageDrawsPremultiplied(color: StraightPixel)
    ensures DrawsPremultiplied(DrawCoverage(color))
  {
    forall s: Channel, pixel: Pixel | Premultiplied(pixel) ensures Premultiplied(DrawCoverage(color)(s, pixel)) {
      SourceOverCoverageIsPremultiplied(color, s as real / 255.0, pixel);
    }
  }

  /** Frames and strokes, made of filled rectangles. */

  // A rectangle's border of some thickness; all of it when the thickness reaches across.
  predicate InFrame(rect: Rect, thickness: int, p: Vec) {
    var horizontal, vertical := Min(thickness, rect.size.y), Min(thickness, rect.size.x);
    InRect(rect, p) && (p.y < rect.pos.y + horizontal || p.y >= rect.pos.y + rect.size.y - horizontal
                        || p.x < rect.pos.x + vertical || p.x >= rect.pos.x + rect.size.x - vertical)
  }

  function FrameOp(rect: Rect, thickness: int, color: Pixel): PixelOp {
    (p: Vec, pixel: Pixel) => if InFrame(rect, thickness, p) then color else pixel
  }

  // The square drawn for each point of a line.
  function Brush(p: Vec, thickness: int): Rect
    requires 0 < thickness
  {
    var radius := (thickness - 1) / 2;
    Rect(Vec(p.x - radius, p.y - radius), Vec(thickness, thickness))
  }

  // The first so many squares of a line, one after the other.
  ghost function Stroke(before: seq<Pixel>, width: nat, from: Vec, to: Vec, thickness: int, color: Pixel, n: nat)
    : (after: seq<Pixel>)
    requires 0 < width && 0 < thickness
    ensures |after| == |before|
  {
    if n == 0 then before
    else Painted(Stroke(before, width, from, to, thickness, color, n - 1), width,
                 Brush(LinePoint(from, to, n - 1), thickness), FillOp(color))
  }

  // A pixel has the line's colour when a square of the line covers it, and is left otherwise.
  lemma {:induction false} StrokeIsPointwise(before: seq<Pixel>, width: nat, from: Vec, to: Vec, thickness: int,
                                             color: Pixel, n: nat, i: nat)
    requires 0 < width && 0 < thickness && i < |before|
    ensures Stroke(before, width, from, to, thickness, color, n)[i] ==
            if exists k :: 0 <= k < n && InRect(Brush(LinePoint(from, to, k), thickness), At(i, width)) then color
            else before[i]
  {
    if n > 0 {
      StrokeIsPointwise(before, width, from, to, thickness, color, n - 1, i);
      assert InRect(Brush(LinePoint(from, to, n - 1), thickness), At(i, width)) ==>
          exists k :: 0 <= k < n && InRect(Brush(LinePoint(from, to, k), thickness), At(i, width));
    }
  }

  lemma {:induction false} StrokeIsPremultiplied(before: seq<Pixel>, width: nat, from: Vec, to: Vec, thickness: int,
                                                 color: Pixel, n: nat)
    requires 0 < width && 0 < thickness && AllPremultiplied(before) && Premultiplied(color)
    ensures AllPremultiplied(Stroke(before, width, from, to, thickness, color, n))
  {
    if n > 0 {
      StrokeIsPremultiplied(before, width, from, to, thickness, color, n - 1);
      PaintedIsPremultiplied(Stroke(before, width, from, to, thickness, color, n - 1), width,
                             Brush(LinePoint(from, to, n - 1), thickness), FillOp(color));
    }
  }

  class Surface {
    const dimensions: Vec
    const pixels: array<Pixel>

    // Pixels for every point, row after row.
    ghost predicate Valid()
      reads this
    {
      0 <= dimensions.x && 0 <= dimensions.y && pixels.Length == dimensions.x * dimensions.y
    }

    constructor (dimensions: Vec, pixels: array<Pixel>)
      requires 0 <= dimensions.x && 0 <= dimensions.y && pixels.Length == dimensions.x * dimensions.y
      ensures Valid() && this.dimensions == dimensions && this.pixels == pixels
    {
      this.dimensions, this.pixels := dimensions, pixels;
    }

    // A change of the pixels in a rectangle and of no others.
    twostate predicate Paints(rect: Rect, op: PixelOp)
      reads this, pixels
    {
      dimensions.x > 0 ==> pixels[..] == Painted(old(pixels[..]), dimensions.x, rect, op)
    }

    twostate predicate StaysPremultiplied()
      reads this, pixels
    {
      old(AllPremultiplied(pixels[..])) ==> AllPremultiplied(pixels[..])
    }

    method Raster(rect: Rect, op: PixelOp)
      requires Valid()
      modifies pixels
      ensures Paints(rect, op)
      ensures KeepsPremultiplied(op, rect) ==> StaysPremultiplied()
    {
      ghost var before := pixels[..];
      RasterOperation(pixels, dimensions, rect, op);
      if dimensions.x > 0 && KeepsPremultiplied(op, rect) && AllPremultiplied(before) {
        PaintedIsPremultiplied(before, dimensions.x, rect, op);
      }
    }

    method Fill(rect: Rect, color: Pixel)
      requires Valid()
      modifies pixels
      ensures Paints(rect, FillOp(color))
      ensures Premultiplied(color) ==> StaysPremultiplied()
    {
      Raster(rect, FillOp(color));
    }

    method SourceOver(rect: Rect, color: StraightPixel)
      requires Valid()
      modifies pixels
      ensures Paints(rect, SourceOverOp(Premultiply(color))) && StaysPremultiplied()
    {
      PremultiplyIsPremultiplied(color);
      SourceOverKeeps(Premultiply(color), rect);
      Raster(rect, SourceOverOp(Premultiply(color)));
    }

    method HorizontalGradient(rect: Rect, left: Pixel, right: Pixel)
      requires Valid()
      modifies pixels
      ensures Paints(rect, HorizontalOp(rect, left, right))
      ensures Premultiplied(left) && Premultiplied(right) ==> StaysPremultiplied()
    {
      if Premultiplied(left) && Premultiplied(right) {
        HorizontalKeeps(rect, left, right);
      }
      Raster(rect, HorizontalOp(rect, left, right));
    }

    method VerticalGradient(rect: Rect, top: Pixel, bottom: Pixel)
      requires Valid()
      modifies pixels
      ensures Paints(rect, VerticalOp(rect, top, bottom))
      ensures Premultiplied(top) && Premultiplied(bottom) ==> StaysPremultiplied()
    {
      if Premultiplied(top) && Premultiplied(bottom) {
        VerticalKeeps(rect, top, bottom);
      }
      Raster(rect, VerticalOp(rect, top, bottom));
    }

    method BilinearGradient(rect: Rect, topLeft: Pixel, topRight: Pixel, bottomLeft: Pixel, bottomRight: Pixel)
      requires Valid()
      modifies pixels
      ensures Paints(rect, BilinearOp(rect, topLeft, topRight, bottomLeft, bottomRight))
      ensures (forall c :: c in {topLeft, topRight, bottomLeft, bottomRight} ==> Premultiplied(c))
              ==> StaysPremultiplied()
    {
      if Premultiplied(topLeft) && Premultiplied(topRight) && Premultiplied(bottomLeft) && Premultiplied(bottomRight) {
        BilinearKeeps(rect, topLeft, topRight, bottomLeft, bottomRight);
      }
      Raster(rect, BilinearOp(rect, topLeft, topRight, bottomLeft, bottomRight));
    }

    method Checkerboard(rect: Rect, cell: Vec, first: Pixel, second: Pixel)
      requires Valid()
      modifies pixels
      ensures 0 < cell.x && 0 < cell.y ==> Paints(rect, CheckerOp(rect, cell, first, second))
      ensures cell.x <= 0 || cell.y <= 0 ==> pixels[..] == old(pixels[..])
      ensures Premultiplied(first) && Premultiplied(second) ==> StaysPremultiplied()
    {
      if cell.x <= 0 || cell.y <= 0 {
        return;
      }
      Raster(rect, CheckerOp(rect, cell, first, second));
    }

    // Ellipses and pills, filled or as rings, by the coverage their geometry gives each point.
    method FillShape(bounds: Rect, coverage: Vec -> real, color: Pixel)
      requires Valid()
      modifies pixels
      ensures Paints(bounds, ReplaceOp(coverage, color))
      ensures Premultiplied(color) ==> StaysPremultiplied()
    {
      if Premultiplied(color) {
        ReplaceKeeps(coverage, color, bounds);
      }
      Raster(bounds, ReplaceOp(coverage, color));
    }

    method SourceOverShape(bounds: Rect, coverage: Vec -> real, color: StraightPixel)
      requires Valid()
      modifies pixels
      ensures Paints(bounds, OverOp(coverage, color)) && StaysPremultiplied()
    {
      OverKeeps(coverage, color, bounds);
      Raster(bounds, OverOp(coverage, color));
    }

    method CopyImage<S(!new)>(v: View<S>, pos: Vec, op: (S, Pixel) -> Pixel)
      requires Valid() && StridedImage.Valid(v) && DrawsPremultiplied(op)
      modifies pixels
      ensures Paints(Rect(pos, v.dimensions), CopyOp(v, pos, op)) && StaysPremultiplied()
    {
      ghost var before := pixels[..];
      CopyOperation(v, pixels, dimensions, pos, op);
      if dimensions.x > 0 && AllPremultiplied(before) {
        CopyKeeps(v, pos, op, Rect(pos, v.dimensions));
        PaintedIsPremultiplied(before, dimensions.x, Rect(pos, v.dimensions), CopyOp(v, pos, op));
      }
    }

    method SourceOverStraight(source: View<StraightPixel>, pos: Vec)
      requires Valid() && StridedImage.Valid(source)
      modifies pixels
      ensures Paints(Rect(pos, source.dimensions), CopyOp(source, pos, DrawStraight)) && StaysPremultiplied()
    {
      StraightDrawsPremultiplied();
      CopyImage(source, pos, DrawStraight);
    }

    method SourceOverSrgb(source: View<Pixel>, pos: Vec, table: Channel -> Channel)
      requires Valid() && StridedImage.Valid(source)
      modifies pixels
      ensures Paints(Rect(pos, source.dimensions), CopyOp(source, pos, DrawSrgb(table))) && StaysPremultiplied()
    {
      SrgbDrawsPremultiplied(table);
      CopyImage(source, pos, DrawSrgb(table));
    }

    method SourceOverCoverage(source: View<Channel>, pos: Vec, color: StraightPixel)
      requires Valid() && StridedImage.Valid(source)
      modifies pixels
      ensures Paints(Rect(pos, source.dimensions), CopyOp(source, pos, DrawCoverage(color))) && StaysPremultiplied()
    {
      CoverageDrawsPremultiplied(color);
      CopyImage(source, pos, DrawCoverage(color));
    }

    method DrawRect(rect: Rect, color: Pixel, thickness: int)
      requires Valid()
      modifies pixels
      ensures thickness > 0 ==> Paints(rect, FrameOp(rect, thickness, color))
      ensures thickness <= 0 ==> pixels[..] == old(pixels[..])
      ensures Premultiplied(color) ==> StaysPremultiplied()
    {
      if thickness <= 0 {
        return;
      }
      ghost var before := pixels[..];
      if rect.size.x <= 0 || rect.size.y <= 0 {
        if dimensions.x > 0 {
          assert Painted(before, dimensions.x, rect, FrameOp(rect, thickness, color)) == before;
        }
        return;
      }
      var horizontal, vertical := Min(thickness, rect.size.y), Min(thickness, rect.size.x);
      Fill(Rect(rect.pos, Vec(rect.size.x, horizontal)), color);
      Fill(Rect(Vec(rect.pos.x, rect.pos.y + rect.size.y - horizontal), Vec(rect.size.x, horizontal)), color);
      Fill(Rect(rect.pos, Vec(vertical, rect.size.y)), color);
      Fill(Rect(Vec(rect.pos.x + rect.size.x - vertical, rect.pos.y), Vec(vertical, rect.size.y)), color);
    }

    // Clip the line, then walk it, filling a square at each point. The walk ends.
    method DrawLine(from: Vec, to: Vec, color: Pixel, thickness: int)
      requires Valid()
      modifies pixels
      ensures thickness <= 0 || ClipLine(dimensions, from, to).None? ==> pixels[..] == old(pixels[..])
      ensures thickness > 0 && ClipLine(dimensions, from, to).Some? ==>
                var (first, last) := ClipLine(dimensions, from, to).value;
                dimensions.x > 0 &&
                pixels[..] == Stroke(old(pixels[..]), dimensions.x, first, last, thickness, color,
                                     Steps(Distance(first.x, last.x), Distance(first.y, last.y)) + 1)
      ensures Premultiplied(color) ==> StaysPremultiplied()
    {
      if thickness <= 0 {
        return;
      }
      var clipped := ClipLine(dimensions, from, to);
      if clipped.None? {
        return;
      }
      ghost var before := pixels[..];
      var start, end := clipped.value.0, clipped.value.1;
      StrokeLine(start, end, color, thickness);
      if AllPremultiplied(before) && Premultiplied(color) {
        StrokeIsPremultiplied(before, dimensions.x, start, end, thickness, color,
                              Steps(Distance(start.x, end.x), Distance(start.y, end.y)) + 1);
      }
    }

    // From one end to the other, a square at each point.
    method StrokeLine(start: Vec, end: Vec, color: Pixel, thickness: int)
      requires Valid() && 0 < dimensions.x && 0 < thickness
      modifies pixels
      ensures pixels[..] == Stroke(old(pixels[..]), dimensions.x, start, end, thickness, color,
                                   Steps(Distance(start.x, end.x), Distance(start.y, end.y)) + 1)
    {
      ghost var before := pixels[..];
      ghost var columns, rows := Distance(start.x, end.x), Distance(start.y, end.y);
      var at := start;
      var radius := (thickness - 1) / 2;
      var dx: int, dy: int := Distance(start.x, end.x), -(Distance(start.y, end.y) as int);
      var sx, sy := Direction(start.x, end.x), Direction(start.y, end.y);
      var error := dx + dy;
      ghost var k, total := 0, Steps(columns, rows);
      LineStaysInBox(start, end, 0);
      WalkStarts(columns, rows);
      while true
        invariant k <= total && Walking(start, end, at, error, k)
        invariant pixels[..] == Stroke(before, dimensions.x, start, end, thickness, color, k)
        decreases total - k
      {
        Fill(Rect(Vec(at.x - radius, at.y - radius), Vec(thickness, thickness)), color);
        LineStaysInBox(start, end, k);
        if at == end {
          break;
        }
        WalkAdvances(start, end, k);
        var twice := error * 2;
        if twice >= dy {
          error := error + dy;
          at := at.(x := at.x + sx);
        }
        if twice <= dx {
          error := error + dx;
          at := at.(y := at.y + sy);
        }
        k := k + 1;
      }
    }
  }
}
