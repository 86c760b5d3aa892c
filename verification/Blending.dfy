/** What drawing means for every channel of every pixel: products, blends and gradients, exact to the nearest. */
module Blending {
  import opened Options
  import opened Pixels
  import opened Raster
  import opened Surface

  // A channel is the nearest to a product of two channels, both out of 255.
  ghost predicate IsProduct(c: int, x: int, y: int) { Near(255 * c, x * y, 127) }

  // A straight colour is scaled by its alpha, every channel in its own place.
  lemma PremultiplyScales(s: StraightPixel)
    ensures var p := Premultiply(s);
            IsProduct(p.r, s.r, s.a) && IsProduct(p.g, s.g, s.a) && IsProduct(p.b, s.b, s.a) && p.a == s.a
  {
    MultiplyIsRounded(s.r, s.a);
    MultiplyIsRounded(s.g, s.a);
    MultiplyIsRounded(s.b, s.a);
  }

  lemma ChannelIsOver(source: Channel, destination: Channel, alpha: Channel)
    requires source <= alpha
    ensures IsProduct(CompositeChannel(source, destination, 255 - alpha) - source, destination, 255 - alpha)
  {
    CompositeInRange(source, destination, alpha);
    MultiplyIsRounded(destination, 255 - alpha);
  }

  // Compositing adds to the source what its alpha lets through of the destination.
  lemma CompositeIsOver(s: Pixel, d: Pixel)
    requires Premultiplied(s)
    ensures var p, rest := CompositeSourceOver(s, d), 255 - s.a;
            IsProduct(p.r - s.r, d.r, rest) && IsProduct(p.g - s.g, d.g, rest) && IsProduct(p.b - s.b, d.b, rest)
            && IsProduct(p.a - s.a, d.a, rest)
  {
    ChannelIsOver(s.r, d.r, s.a);
    ChannelIsOver(s.g, d.g, s.a);
    ChannelIsOver(s.b, d.b, s.a);
    ChannelIsOver(s.a, d.a, s.a);
  }

  // A colour image is taken out of its alpha, looked up, and scaled by its alpha again.
  lemma ConvertLooksUp(s: Pixel, table: Channel -> Channel)
    ensures var p := ConvertSrgb(s, table);
            IsProduct(p.r, table(UnpremultiplyChannel(s.r, s.a)), s.a)
            && IsProduct(p.g, table(UnpremultiplyChannel(s.g, s.a)), s.a)
            && IsProduct(p.b, table(UnpremultiplyChannel(s.b, s.a)), s.a) && p.a == s.a
  {
    MultiplyIsRounded(table(UnpremultiplyChannel(s.r, s.a)), s.a);
    MultiplyIsRounded(table(UnpremultiplyChannel(s.g, s.a)), s.a);
    MultiplyIsRounded(table(UnpremultiplyChannel(s.b, s.a)), s.a);
  }

  // A channel is the nearest to the mean of two, the second weighing as much as the coverage.
  ghost predicate IsMix(c: int, from: int, to: int, coverage: real) {
    -0.5 <= c as real - (from as real + (to - from) as real * coverage) <= 0.5
  }

  lemma RoundsToNearest(x: real)
    ensures -0.5 <= RoundHalfAway(x) as real - x <= 0.5
  {
    if x < 0.0 { assert (-x + 0.5).Floor as real <= -x + 0.5 < (-x + 0.5).Floor as real + 1.0; }
  }

  lemma MixIsNearest(from: Channel, to: Channel, coverage: real)
    requires 0.0 <= coverage <= 1.0
    ensures IsMix(MixChannel(from, to, coverage), from, to, coverage)
  {
    MixIsBetween(from, to, coverage);
    RoundsToNearest(Between(from as real, to as real, coverage));
    assert (to - from) as real == to as real - from as real;
  }

  // Replacing by coverage mixes every channel of the pixel with the colour's; fully covered, the colour is there.
  lemma ReplaceIsMix(color: Pixel, coverage: real, d: Pixel)
    requires 0.0 <= coverage
    ensures var p := ReplaceCoverage(color, coverage, d);
            if coverage >= 1.0 then p == color
            else IsMix(p.r, d.r, color.r, coverage) && IsMix(p.g, d.g, color.g, coverage)
                 && IsMix(p.b, d.b, color.b, coverage) && IsMix(p.a, d.a, color.a, coverage)
    ensures ReplaceCoverage(color, 0.0, d) == d
  {
    if coverage < 1.0 {
      MixIsNearest(d.r, color.r, coverage);
      MixIsNearest(d.g, color.g, coverage);
      MixIsNearest(d.b, color.b, coverage);
      MixIsNearest(d.a, color.a, coverage);
    }
    UncoveredChannel(d.r, color.r);
    UncoveredChannel(d.g, color.g);
    UncoveredChannel(d.b, color.b);
    UncoveredChannel(d.a, color.a);
  }

  lemma UncoveredChannel(from: Channel, to: Channel)
    ensures MixChannel(from, to, 0.0) == from
  {
    MixIsNearest(from, to, 0.0);
    assert (to - from) as real * 0.0 == 0.0;
  }

  // Drawing by coverage composites the colour with its alpha scaled to the nearest; fully covered it is the whole
  // colour, uncovered it is nothing.
  lemma CoveredSourceOver(color: StraightPixel, coverage: real, d: Pixel) returns (alpha: Channel)
    requires 0.0 <= coverage <= 1.0
    ensures -0.5 <= alpha as real - color.a as real * coverage <= 0.5
    ensures SourceOverCoverage(color, coverage, d) == DrawStraight(color.(a := alpha), d)
    ensures coverage == 1.0 ==> SourceOverCoverage(color, coverage, d) == DrawStraight(color, d)
    ensures coverage == 0.0 ==> SourceOverCoverage(color, coverage, d) == d
  {
    alpha := CoveredAlpha(color.a, coverage);
    CoveredAlphaInRange(color.a, coverage);
    RoundsToNearest(Times(color.a as real, coverage));
    if coverage == 1.0 {
      assert Times(color.a as real, coverage) == color.a as real;
      assert alpha == color.a && color.(a := alpha) == color;
    } else if coverage == 0.0 {
      assert Times(color.a as real, coverage) == 0.0;
      assert alpha == 0;
      PremultiplyIsPremultiplied(color.(a := 0));
      TransparentLeaves(Premultiply(color.(a := 0)), d);
    }
  }

  // Shapes leave what they do not cover.
  lemma ShapesLeaveUncovered(coverage: Vec -> real, color: Pixel, straight: StraightPixel, p: Vec, d: Pixel)
    requires coverage(p) <= 0.0
    ensures ReplaceOp(coverage, color)(p, d) == d && OverOp(coverage, straight)(p, d) == d
  {
  }

  // A channel is the nearest to the mean of two, part of the whole way from the first to the second.
  ghost predicate IsStep(c: int, from: int, to: int, part: int, whole: int) {
    Near(2 * whole * c, 2 * (from * (whole - part) + to * part), whole)
  }

  ghost predicate IsColourStep(p: Pixel, from: Pixel, to: Pixel, part: int, whole: int) {
    && IsStep(p.r, from.r, to.r, part, whole) && IsStep(p.g, from.g, to.g, part, whole)
    && IsStep(p.b, from.b, to.b, part, whole) && IsStep(p.a, from.a, to.a, part, whole)
  }

  lemma InterpolateIsStep(from: Pixel, to: Pixel, part: int, whole: int)
    requires 0 <= part <= whole && 0 < whole
    ensures IsColourStep(Interpolate(from, to, part, whole), from, to, part, whole)
  {
    InterpolateIsNearest(from.r, to.r, part, whole);
    InterpolateIsNearest(from.g, to.g, part, whole);
    InterpolateIsNearest(from.b, to.b, part, whole);
    InterpolateIsNearest(from.a, to.a, part, whole);
  }

  // Everywhere in its rectangle a gradient is as far from one colour to the other as the pixel is from edge to edge.
  lemma GradientsAreEven(rect: Rect, p: Vec, a: Pixel, b: Pixel, d: Pixel)
    requires InRect(rect, p)
    ensures 1 < rect.size.x ==>
              IsColourStep(HorizontalOp(rect, a, b)(p, d), a, b, p.x - rect.pos.x, rect.size.x - 1)
    ensures 1 < rect.size.y ==>
              IsColourStep(VerticalOp(rect, a, b)(p, d), a, b, p.y - rect.pos.y, rect.size.y - 1)
  {
    InterpolateIsStep(a, b, p.x - rect.pos.x, Max(rect.size.x - 1, 1));
    InterpolateIsStep(a, b, p.y - rect.pos.y, Max(rect.size.y - 1, 1));
  }

  // A bilinear gradient is, in every column, the vertical gradient between its rows.
  lemma BilinearIsEven(rect: Rect, p: Vec, topLeft: Pixel, topRight: Pixel, bottomLeft: Pixel, bottomRight: Pixel,
                       d: Pixel)
    requires InRect(rect, p) && 1 < rect.size.y
    ensures IsColourStep(BilinearOp(rect, topLeft, topRight, bottomLeft, bottomRight)(p, d),
                         HorizontalOp(rect, topLeft, topRight)(p, d), HorizontalOp(rect, bottomLeft, bottomRight)(p, d),
                         p.y - rect.pos.y, rect.size.y - 1)
  {
    InterpolateIsStep(HorizontalOp(rect, topLeft, topRight)(p, d), HorizontalOp(rect, bottomLeft, bottomRight)(p, d),
                      p.y - rect.pos.y, rect.size.y - 1);
  }
}
