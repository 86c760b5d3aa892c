/** Eight-bit pixel arithmetic: rounding products, premultiplied alpha, compositing, interpolation and mixing. */
module Pixels {
  import opened Options

  type Channel = c: int | 0 <= c <= 255

  datatype Pixel = Pixel(r: Channel, g: Channel, b: Channel, a: Channel)

  // A colour whose channels are not yet scaled by its alpha.
  datatype StraightPixel = StraightPixel(r: Channel, g: Channel, b: Channel, a: Channel)

  // Each colour channel is at most alpha.
  predicate Premultiplied(p: Pixel) { p.r <= p.a && p.g <= p.a && p.b <= p.a }

  // The cast to a channel keeps the low eight bits.
  function ToChannel(value: int): Channel { value % 256 }

  function MultiplyChannel(lhs: Channel, rhs: Channel): Channel { ToChannel((lhs * rhs + 255 / 2) / 255) }

  function Premultiply(source: StraightPixel): Pixel {
    Pixel(MultiplyChannel(source.r, source.a), MultiplyChannel(source.g, source.a),
          MultiplyChannel(source.b, source.a), source.a)
  }

  function CompositeChannel(source: Channel, destination: Channel, inverse: Channel): Channel {
    ToChannel(source + MultiplyChannel(destination, inverse))
  }

  function CompositeSourceOver(source: Pixel, destination: Pixel): Pixel {
    var inverse := 255 - source.a;
    Pixel(CompositeChannel(source.r, destination.r, inverse), CompositeChannel(source.g, destination.g, inverse),
          CompositeChannel(source.b, destination.b, inverse), CompositeChannel(source.a, destination.a, inverse))
  }

  function UnpremultiplyChannel(channel: Channel, alpha: Channel): Channel {
    if alpha == 0 then 0
    else
      var scaled := (channel * 255 + alpha / 2) / alpha;
      if scaled > 255 then 255 else scaled
  }

  // A premultiplied sRGB pixel, made linear through a table.
  function ConvertSrgb(source: Pixel, table: Channel -> Channel): Pixel {
    Pixel(MultiplyChannel(table(UnpremultiplyChannel(source.r, source.a)), source.a),
          MultiplyChannel(table(UnpremultiplyChannel(source.g, source.a)), source.a),
          MultiplyChannel(table(UnpremultiplyChannel(source.b, source.a)), source.a), source.a)
  }

  // Quotients of the source truncate towards zero.
  function TruncatedQuotient(n: int, d: int): int
    requires d > 0
  {
    if n >= 0 then n / d else -((-n) / d)
  }

  function InterpolateChannel(from: Channel, to: Channel, numerator: int, denominator: int): Channel {
    if denominator <= 0 then from
    else ToChannel(TruncatedQuotient(from * (denominator - numerator) + to * numerator + denominator / 2, denominator))
  }

  function Interpolate(from: Pixel, to: Pixel, numerator: int, denominator: int): Pixel {
    Pixel(InterpolateChannel(from.r, to.r, numerator, denominator),
          InterpolateChannel(from.g, to.g, numerator, denominator),
          InterpolateChannel(from.b, to.b, numerator, denominator),
          InterpolateChannel(from.a, to.a, numerator, denominator))
  }

  function Times(x: real, y: real): real { x * y }

  // The point between two values at a share of the way.
  function Between(from: real, to: real, share: real): real { from + Times(to - from, share) }

  function MixChannel(from: Channel, to: Channel, coverage: real): Channel {
    ToChannel(RoundHalfAway(Between(from as real, to as real, coverage)))
  }

  // Replace a pixel as far as it is covered.
  function ReplaceCoverage(color: Pixel, coverage: real, destination: Pixel): Pixel {
    if coverage >= 1.0 then color
    else Pixel(MixChannel(destination.r, color.r, coverage), MixChannel(destination.g, color.g, coverage),
               MixChannel(destination.b, color.b, coverage), MixChannel(destination.a, color.a, coverage))
  }

  function CoveredAlpha(alpha: Channel, coverage: real): Channel { ToChannel(RoundHalfAway(Times(alpha as real, coverage))) }

  function SourceOverCoverage(color: StraightPixel, coverage: real, destination: Pixel): Pixel {
    CompositeSourceOver(Premultiply(color.(a := CoveredAlpha(color.a, coverage))), destination)
  }

  /** No cast loses bits, and premultiplied pixels stay premultiplied. */

  lemma ProductOrder(a: int, b: int, c: int)
    requires a <= b && 0 <= c
    ensures a * c <= b * c
  {
  }

  lemma QuotientOrder(a: int, b: int, d: int)
    requires a <= b && d > 0
    ensures a / d <= b / d
  {
    var p, q := a / d, b / d;
    assert a == p * d + a % d && b == q * d + b % d;
    Multiples(d, q, p);
  }

  lemma Multiples(d: int, p: int, q: int)
    requires d > 0
    ensures p < q ==> p * d + d <= q * d
  {
    if p < q {
      ProductOrder(p + 1, q, d);
      assert (p + 1) * d == p * d + d;
    }
  }

  // A rounded product: exact to the nearest, at most either factor, and growing with the first.
  lemma MultiplyIsRounded(lhs: Channel, rhs: Channel)
    ensures MultiplyChannel(lhs, rhs) == (lhs * rhs + 127) / 255
    ensures -127 <= 255 * MultiplyChannel(lhs, rhs) - lhs * rhs <= 127
    ensures MultiplyChannel(lhs, rhs) <= lhs && MultiplyChannel(lhs, rhs) <= rhs
  {
    ProductOrder(lhs, 255, rhs);
    ProductOrder(rhs, 255, lhs);
    var n := lhs * rhs;
    assert 0 <= n <= 255 * rhs && n <= 255 * lhs;
  }

  lemma MultiplyGrows(a: Channel, b: Channel, rhs: Channel)
    requires a <= b
    ensures MultiplyChannel(a, rhs) <= MultiplyChannel(b, rhs)
  {
    ProductOrder(a, b, rhs);
    MultiplyIsRounded(a, rhs);
    MultiplyIsRounded(b, rhs);
    QuotientOrder(a * rhs + 127, b * rhs + 127, 255);
  }

  lemma PremultiplyIsPremultiplied(source: StraightPixel)
    ensures Premultiplied(Premultiply(source))
  {
    MultiplyIsRounded(source.r, source.a);
    MultiplyIsRounded(source.g, source.a);
    MultiplyIsRounded(source.b, source.a);
  }

  // Converting an opaque pixel looks every channel up in its own place.
  lemma OpaqueIsLookedUp(source: Pixel, table: Channel -> Channel)
    requires source.a == 255
    ensures ConvertSrgb(source, table) == Pixel(table(source.r), table(source.g), table(source.b), 255)
  {
    OpaqueChannel(source.r, table);
    OpaqueChannel(source.g, table);
    OpaqueChannel(source.b, table);
  }

  lemma OpaqueChannel(channel: Channel, table: Channel -> Channel)
    ensures UnpremultiplyChannel(channel, 255) == channel
    ensures MultiplyChannel(table(channel), 255) == table(channel)
  {
    QuotientOfMultiple(channel, 255, 127);
    QuotientOfMultiple(table(channel), 255, 127);
  }

  lemma ConvertIsPremultiplied(source: Pixel, table: Channel -> Channel)
    ensures Premultiplied(ConvertSrgb(source, table))
  {
    MultiplyIsRounded(table(UnpremultiplyChannel(source.r, source.a)), source.a);
    MultiplyIsRounded(table(UnpremultiplyChannel(source.g, source.a)), source.a);
    MultiplyIsRounded(table(UnpremultiplyChannel(source.b, source.a)), source.a);
  }

  // Taking the alpha out of what was scaled by it gives the colour back, up to what the scaling rounded away.
  lemma UnpremultiplyUndoes(channel: Channel, alpha: Channel)
    requires alpha > 0
    ensures var back := UnpremultiplyChannel(MultiplyChannel(channel, alpha), alpha);
            Near(2 * alpha * back, 2 * alpha * channel, 254 + alpha)
  {
    MultiplyIsRounded(channel, alpha);
    var m := MultiplyChannel(channel, alpha);
    NearestQuotient(m * 255, alpha);
    NearClamped(channel, alpha, m, (m * 255 + alpha / 2) / alpha);
  }

  predicate Near(a: int, b: int, distance: int) { a <= b + distance && b <= a + distance }

  lemma NearClamped(channel: Channel, alpha: Channel, m: int, q: int)
    requires Near(255 * m, channel * alpha, 127) && Near(2 * alpha * q, 2 * (m * 255), alpha)
    ensures Near(2 * alpha * (if q > 255 then 255 else q), 2 * alpha * channel, 254 + alpha)
  {
    var c := 2 * alpha * channel;
    assert c == 2 * (channel * alpha);
    assert Near(2 * (m * 255), c, 254);
    assert Near(2 * alpha * q, c, 254 + alpha);
    if q > 255 {
      Ordered(channel, 255, q, alpha);
    }
  }

  lemma Ordered(a: int, b: int, c: int, d: int)
    requires a <= b <= c && 0 <= d
    ensures 2 * d * a <= 2 * d * b <= 2 * d * c
  {
    ProductOrder(a, b, 2 * d);
    ProductOrder(b, c, 2 * d);
  }

  lemma NearestQuotient(n: nat, d: nat)
    requires d > 0
    ensures Near(2 * d * ((n + d / 2) / d), 2 * n, d)
  {
    var q, r := (n + d / 2) / d, (n + d / 2) % d;
    assert n + d / 2 == d * q + r;
    assert 2 * d * q == 2 * (d * q);
  }

  lemma CompositeInRange(source: Channel, destination: Channel, alpha: Channel)
    requires source <= alpha
    ensures CompositeChannel(source, destination, 255 - alpha) == source + MultiplyChannel(destination, 255 - alpha)
  {
    MultiplyIsRounded(destination, 255 - alpha);
  }

  // Compositing a premultiplied pixel over another keeps it premultiplied, and no channel overflows.
  lemma CompositeIsPremultiplied(source: Pixel, destination: Pixel)
    requires Premultiplied(source) && Premultiplied(destination)
    ensures Premultiplied(CompositeSourceOver(source, destination))
    ensures CompositeSourceOver(source, destination).a >= source.a
  {
    var inverse := 255 - source.a;
    CompositeInRange(source.r, destination.r, source.a);
    CompositeInRange(source.g, destination.g, source.a);
    CompositeInRange(source.b, destination.b, source.a);
    CompositeInRange(source.a, destination.a, source.a);
    MultiplyGrows(destination.r, destination.a, inverse);
    MultiplyGrows(destination.g, destination.a, inverse);
    MultiplyGrows(destination.b, destination.a, inverse);
  }

  // An opaque source replaces, a transparent one leaves the pixel.
  lemma OpaqueReplaces(source: Pixel, destination: Pixel)
    requires source.a == 255
    ensures CompositeSourceOver(source, destination) == source
  {
    CompositeChannelExtremes(source.r, destination.r);
    CompositeChannelExtremes(source.g, destination.g);
    CompositeChannelExtremes(source.b, destination.b);
    CompositeChannelExtremes(source.a, destination.a);
  }

  lemma TransparentLeaves(source: Pixel, destination: Pixel)
    requires Premultiplied(source) && source.a == 0
    ensures CompositeSourceOver(source, destination) == destination
  {
    CompositeChannelExtremes(source.r, destination.r);
    CompositeChannelExtremes(source.g, destination.g);
    CompositeChannelExtremes(source.b, destination.b);
    CompositeChannelExtremes(source.a, destination.a);
  }

  lemma CompositeChannelExtremes(source: Channel, destination: Channel)
    ensures CompositeChannel(source, destination, 0) == source
    ensures CompositeChannel(0, destination, 255) == destination
  {
    assert MultiplyChannel(destination, 0) == 0;
    QuotientOfMultiple(destination, 255, 127);
    assert MultiplyChannel(destination, 255) == destination;
  }

  lemma InterpolateInRange(from: Channel, to: Channel, numerator: int, denominator: int)
    requires 0 <= numerator <= denominator && 0 < denominator
    ensures InterpolateChannel(from, to, numerator, denominator) ==
            (from * (denominator - numerator) + to * numerator + denominator / 2) / denominator
  {
    var rest := denominator - numerator;
    ProductOrder(0, from, rest);
    ProductOrder(0, to, numerator);
    ProductOrder(from, 255, rest);
    ProductOrder(to, 255, numerator);
    var value := from * rest + to * numerator + denominator / 2;
    assert 255 * rest + 255 * numerator == 255 * denominator;
    QuotientOrder(0, value, denominator);
    QuotientOrder(value, 255 * denominator + denominator / 2, denominator);
    QuotientOfMultiple(255, denominator, denominator / 2);
  }

  // An interpolated channel is the weighted mean of the two, rounded to the nearest.
  lemma InterpolateIsNearest(from: Channel, to: Channel, numerator: int, denominator: int)
    requires 0 <= numerator <= denominator && 0 < denominator
    ensures Near(2 * denominator * InterpolateChannel(from, to, numerator, denominator),
                 2 * (from * (denominator - numerator) + to * numerator), denominator)
  {
    InterpolateInRange(from, to, numerator, denominator);
    ProductOrder(0, from, denominator - numerator);
    ProductOrder(0, to, numerator);
    NearestQuotient(from * (denominator - numerator) + to * numerator, denominator);
  }

  lemma QuotientOfMultiple(k: int, d: int, r: int)
    requires 0 <= r < d
    ensures (k * d + r) / d == k
  {
    var q, s := (k * d + r) / d, (k * d + r) % d;
    assert q * d + s == k * d + r;
    Multiples(d, k, q);
    Multiples(d, q, k);
  }

  lemma InterpolateGrows(from: Channel, to: Channel, fromMost: Channel, toMost: Channel, numerator: int, denominator: int)
    requires 0 <= numerator <= denominator && 0 < denominator && from <= fromMost && to <= toMost
    ensures InterpolateChannel(from, to, numerator, denominator)
            <= InterpolateChannel(fromMost, toMost, numerator, denominator)
  {
    InterpolateInRange(from, to, numerator, denominator);
    InterpolateInRange(fromMost, toMost, numerator, denominator);
    ProductOrder(from, fromMost, denominator - numerator);
    ProductOrder(to, toMost, numerator);
    QuotientOrder(from * (denominator - numerator) + to * numerator + denominator / 2,
                  fromMost * (denominator - numerator) + toMost * numerator + denominator / 2, denominator);
  }

  // A colour on the way between two premultiplied ones is premultiplied.
  lemma InterpolateIsPremultiplied(from: Pixel, to: Pixel, numerator: int, denominator: int)
    requires 0 <= numerator <= denominator && 0 < denominator && Premultiplied(from) && Premultiplied(to)
    ensures Premultiplied(Interpolate(from, to, numerator, denominator))
  {
    InterpolateGrows(from.r, to.r, from.a, to.a, numerator, denominator);
    InterpolateGrows(from.g, to.g, from.a, to.a, numerator, denominator);
    InterpolateGrows(from.b, to.b, from.a, to.a, numerator, denominator);
  }

  lemma InterpolateEnds(from: Pixel, to: Pixel, denominator: int)
    requires 0 < denominator
    ensures Interpolate(from, to, 0, denominator) == from
    ensures Interpolate(from, to, denominator, denominator) == to
  {
    InterpolateChannelEnds(from.r, to.r, denominator);
    InterpolateChannelEnds(from.g, to.g, denominator);
    InterpolateChannelEnds(from.b, to.b, denominator);
    InterpolateChannelEnds(from.a, to.a, denominator);
  }

  lemma InterpolateChannelEnds(from: Channel, to: Channel, denominator: int)
    requires 0 < denominator
    ensures InterpolateChannel(from, to, 0, denominator) == from
    ensures InterpolateChannel(from, to, denominator, denominator) == to
  {
    InterpolateInRange(from, to, 0, denominator);
    InterpolateInRange(from, to, denominator, denominator);
    QuotientOfMultiple(from, denominator, denominator / 2);
    QuotientOfMultiple(to, denominator, denominator / 2);
  }

  lemma RoundingOrder(x: real, y: real)
    requires x <= y
    ensures RoundHalfAway(x) <= RoundHalfAway(y)
  {
  }

  lemma NonNegativeProduct(a: real, b: real)
    requires a >= 0.0 && b >= 0.0
    ensures Times(a, b) >= 0.0
  {
  }

  lemma BetweenGrows(from: real, to: real, fromMost: real, toMost: real, share: real)
    requires 0.0 <= share <= 1.0 && from <= fromMost && to <= toMost
    ensures Between(from, to, share) <= Between(fromMost, toMost, share)
  {
    NonNegativeProduct(toMost - to, share);
    NonNegativeProduct(fromMost - from, 1.0 - share);
    BetweenDifference(from, to, fromMost, toMost, share);
  }

  lemma BetweenDifference(from: real, to: real, fromMost: real, toMost: real, share: real)
    ensures Between(fromMost, toMost, share) - Between(from, to, share)
            == Times(fromMost - from, 1.0 - share) + Times(toMost - to, share)
  {
  }

  lemma BetweenEqual(x: real, share: real)
    ensures Between(x, x, share) == x
  {
  }

  lemma RoundedIsChannel(x: real)
    requires 0.0 <= x <= 255.0
    ensures ToChannel(RoundHalfAway(x)) == RoundHalfAway(x)
  {
    RoundingKeepsBounds(x, 0);
    RoundingKeepsBounds(x, 255);
  }

  lemma MixIsBetween(from: Channel, to: Channel, coverage: real)
    requires 0.0 <= coverage <= 1.0
    ensures MixChannel(from, to, coverage) == RoundHalfAway(Between(from as real, to as real, coverage))
  {
    BetweenGrows(0.0, 0.0, from as real, to as real, coverage);
    BetweenGrows(from as real, to as real, 255.0, 255.0, coverage);
    BetweenEqual(0.0, coverage);
    BetweenEqual(255.0, coverage);
    RoundedIsChannel(Between(from as real, to as real, coverage));
  }

  lemma MixGrows(from: Channel, to: Channel, fromMost: Channel, toMost: Channel, coverage: real)
    requires 0.0 <= coverage <= 1.0 && from <= fromMost && to <= toMost
    ensures MixChannel(from, to, coverage) <= MixChannel(fromMost, toMost, coverage)
  {
    MixIsBetween(from, to, coverage);
    MixIsBetween(fromMost, toMost, coverage);
    BetweenGrows(from as real, to as real, fromMost as real, toMost as real, coverage);
    RoundingOrder(Between(from as real, to as real, coverage), Between(fromMost as real, toMost as real, coverage));
  }

  lemma ReplaceIsPremultiplied(color: Pixel, coverage: real, destination: Pixel)
    requires 0.0 <= coverage && Premultiplied(color) && Premultiplied(destination)
    ensures Premultiplied(ReplaceCoverage(color, coverage, destination))
  {
    if coverage < 1.0 {
      MixGrows(destination.r, color.r, destination.a, color.a, coverage);
      MixGrows(destination.g, color.g, destination.a, color.a, coverage);
      MixGrows(destination.b, color.b, destination.a, color.a, coverage);
    }
  }

  lemma SourceOverCoverageIsPremultiplied(color: StraightPixel, coverage: real, destination: Pixel)
    requires Premultiplied(destination)
    ensures Premultiplied(SourceOverCoverage(color, coverage, destination))
  {
    var source := color.(a := CoveredAlpha(color.a, coverage));
    PremultiplyIsPremultiplied(source);
    CompositeIsPremultiplied(Premultiply(source), destination);
  }

  // The alpha of a partly covered source is the colour's, scaled and rounded, without overflow.
  lemma CoveredAlphaInRange(alpha: Channel, coverage: real)
    requires 0.0 <= coverage <= 1.0
    ensures CoveredAlpha(alpha, coverage) == RoundHalfAway(Times(alpha as real, coverage)) <= alpha
  {
    ScaledDown(alpha as real, coverage);
    RoundedIsChannel(Times(alpha as real, coverage));
    RoundingKeepsBounds(Times(alpha as real, coverage), alpha);
  }

  lemma ScaledDown(d: real, weight: real)
    requires 0.0 <= weight <= 1.0 && 0.0 <= d
    ensures 0.0 <= Times(d, weight) <= d
  {
    NonNegativeProduct(d, weight);
    NonNegativeProduct(d, 1.0 - weight);
    Complement(d, weight);
  }

  lemma Complement(d: real, weight: real)
    ensures Times(d, 1.0 - weight) == d - Times(d, weight)
  {
  }
}
