/**
 The filter that maps a source's media timestamps to program time: a phase correction bounded per
 observation and a rate found by least squares over a window of observations. Times are whole flicks,
 rates are real numbers.
 */
module MediaClock {
  import opened Common

  datatype Sample = Sample(streamEpoch: nat, frameSequence: nat, mediaPts: int, frameDuration: int)

  datatype Config = Config(
    phaseFilterDivisor: nat,
    rateFilterDivisor: nat,
    rateObservationFrames: nat,
    // parts per million
    maximumRateDeviation: real,
    maximumPhaseAdjustment: int,
    discontinuityThreshold: int)

  // What the constructor insists on.
  ghost predicate ValidConfig(cfg: Config) {
    && 0 < cfg.phaseFilterDivisor && 0 < cfg.rateFilterDivisor && 0 < cfg.rateObservationFrames
    && 0 <= cfg.maximumPhaseAdjustment && 0 < cfg.discontinuityThreshold && 0.0 < cfg.maximumRateDeviation
  }

  datatype Observation = Initialized | Updated | Discontinuity

  datatype Sums = Sums(count: nat, media: real, program: real, mediaSquared: real, mediaProgram: real)

  const NO_SUMS := Sums(0, 0.0, 0.0, 0.0, 0.0)

  datatype Clock = Clock(
    streamEpoch: Option<nat>,
    frameSequence: nat,
    mediaPts: int,
    programTime: int,
    mediaAnchor: int,
    programAnchor: int,
    rateReferenceSequence: nat,
    rateMediaReference: int,
    rateProgramReference: int,
    sums: Sums,
    rate: real,
    observedRate: Option<real>,
    phaseError: Option<int>,
    phaseAdjustment: Option<int>)

  const RESET := Clock(None, 0, 0, 0, 0, 0, 0, 0, 0, NO_SUMS, 1.0, None, None, None)

  // ---------------------------------------------------------------- arithmetic

  const FLICKS_MIN := -0x8000_0000_0000_0000
  const FLICKS_MAX := 0x7FFF_FFFF_FFFF_FFFF

  predicate Representable(t: int) {
    FLICKS_MIN <= t <= FLICKS_MAX
  }

  // std::round: to the nearest whole number, halves away from zero.
  function Round(x: real): int {
    if x >= 0.0 then (x + 0.5).Floor else -((-x + 0.5).Floor)
  }

  // Integer division of durations truncates toward zero.
  function TruncatingDiv(a: int, b: int): int
    requires b > 0
  {
    if a >= 0 then a / b else -((-a) / b)
  }

  function Clamp(x: int, low: int, high: int): int {
    if x < low then low else if x > high then high else x
  }

  function ClampReal(x: real, low: real, high: real): real {
    if x < low then low else if x > high then high else x
  }

  function Abs(x: int): int {
    if x < 0 then -x else x
  }

  // ---------------------------------------------------------------- the filter

  function ScaledOffset(c: Clock, mediaPts: int): real {
    (mediaPts - c.mediaAnchor) as real * c.rate
  }

  function MapPts(c: Clock, mediaPts: int): Option<int> {
    if c.streamEpoch.None? then None
    else
      var mapped := c.programAnchor + Round(ScaledOffset(c, mediaPts));
      if Representable(mapped) then Some(mapped) else None
  }

  function Initialize(sample: Sample, programTime: int): Clock {
    Clock(Some(sample.streamEpoch), sample.frameSequence, sample.mediaPts, programTime,
          sample.mediaPts, programTime, sample.frameSequence, sample.mediaPts, programTime,
          NO_SUMS, 1.0, None, None, None)
  }

  predicate Breaks(cfg: Config, c: Clock, sample: Sample, programTime: int)
    requires c.streamEpoch.Some?
  {
    var mediaDelta := sample.mediaPts - c.mediaPts;
    || sample.streamEpoch != c.streamEpoch.value
    || sample.frameSequence <= c.frameSequence
    || mediaDelta <= 0
    || Abs(programTime - c.programTime - mediaDelta) > cfg.discontinuityThreshold
  }

  function AddPoint(s: Sums, media: real, program: real): Sums {
    Sums(s.count + 1, s.media + media, s.program + program,
         s.mediaSquared + media * media, s.mediaProgram + media * program)
  }

  // An observation joins the regression only where both time lines moved past the window's reference.
  predicate Contributes(c: Clock, sample: Sample, programTime: int) {
    sample.mediaPts > c.rateMediaReference && programTime > c.rateProgramReference
  }

  function Accumulate(c: Clock, sample: Sample, programTime: int): Sums {
    if Contributes(c, sample, programTime) then
      AddPoint(c.sums, (sample.mediaPts - c.rateMediaReference) as real,
               (programTime - c.rateProgramReference) as real)
    else c.sums
  }

  function Denominator(s: Sums): real {
    s.count as real * s.mediaSquared - s.media * s.media
  }

  function Numerator(s: Sums): real {
    s.count as real * s.mediaProgram - s.media * s.program
  }

  predicate WindowComplete(cfg: Config, c: Clock, sample: Sample)
    requires sample.frameSequence >= c.rateReferenceSequence
  {
    sample.frameSequence - c.rateReferenceSequence >= cfg.rateObservationFrames
  }

  function MaximumDeviation(cfg: Config): real {
    cfg.maximumRateDeviation / 1000000.0
  }

  // At the end of a window: adopt the fitted rate, bounded and smoothed, without moving the sample at hand.
  function RateStep(cfg: Config, c: Clock, sums: Sums, mediaPts: int, predicted: int): Clock
    requires cfg.rateFilterDivisor > 0
  {
    if Denominator(sums) <= 0.0 then c
    else
      var observed := Numerator(sums) / Denominator(sums);
      var d := MaximumDeviation(cfg);
      var bounded := ClampReal(observed, 1.0 - d, 1.0 + d);
      c.(observedRate := Some(observed), mediaAnchor := mediaPts, programAnchor := predicted,
         rate := c.rate + (bounded - c.rate) / cfg.rateFilterDivisor as real)
  }

  function PhaseAdjustment(cfg: Config, error: int): int
    requires cfg.phaseFilterDivisor > 0
  {
    Clamp(TruncatingDiv(error, cfg.phaseFilterDivisor), -cfg.maximumPhaseAdjustment, cfg.maximumPhaseAdjustment)
  }

  function Update(cfg: Config, c: Clock, sample: Sample, programTime: int, predicted: int): Clock
    requires cfg.phaseFilterDivisor > 0 && cfg.rateFilterDivisor > 0
    requires sample.frameSequence >= c.rateReferenceSequence
  {
    var sums := Accumulate(c, sample, programTime);
    var fitted :=
      if WindowComplete(cfg, c, sample) then
        RateStep(cfg, c, sums, sample.mediaPts, predicted).(
          rateReferenceSequence := sample.frameSequence, rateMediaReference := sample.mediaPts,
          rateProgramReference := programTime, sums := NO_SUMS)
      else c.(sums := sums);
    var error := programTime - predicted;
    var adjustment := PhaseAdjustment(cfg, error);
    fitted.(phaseError := Some(error), phaseAdjustment := Some(adjustment),
            programAnchor := fitted.programAnchor + adjustment,
            streamEpoch := Some(sample.streamEpoch), frameSequence := sample.frameSequence,
            mediaPts := sample.mediaPts, programTime := programTime)
  }

  ghost predicate ClockOk(cfg: Config, c: Clock) {
    && (c.streamEpoch.Some? ==> c.rateReferenceSequence <= c.frameSequence)
    && 1.0 - MaximumDeviation(cfg) <= c.rate <= 1.0 + MaximumDeviation(cfg)
  }

  function Observe(cfg: Config, c: Clock, sample: Sample, programTime: int): (r: (Clock, Observation))
    requires cfg.phaseFilterDivisor > 0 && cfg.rateFilterDivisor > 0
    requires c.streamEpoch.Some? ==> c.rateReferenceSequence <= c.frameSequence
  {
    if c.streamEpoch.None? then (Initialize(sample, programTime), Initialized)
    else if Breaks(cfg, c, sample, programTime) then (Initialize(sample, programTime), Discontinuity)
    else
      match MapPts(c, sample.mediaPts)
      case None => (Initialize(sample, programTime), Discontinuity)
      case Some(predicted) => (Update(cfg, c, sample, programTime, predicted), Updated)
  }

  // ---------------------------------------------------------------- phase and rate

  lemma RoundZero()
    ensures Round(0.0) == 0
  {
  }

  // A clock anchored at a timestamp maps it to the anchored program time.
  lemma MapsAnchor(c: Clock)
    requires c.streamEpoch.Some?
    ensures MapPts(c, c.mediaAnchor) == if Representable(c.programAnchor) then Some(c.programAnchor) else None
  {
    assert ScaledOffset(c, c.mediaAnchor) == 0.0;
    RoundZero();
  }

  lemma MapsShifted(c: Clock, c': Clock, mediaPts: int, shift: int)
    requires c.streamEpoch.Some? && c'.streamEpoch.Some? && MapPts(c, mediaPts).Some?
    requires c'.mediaAnchor == c.mediaAnchor && c'.rate == c.rate && c'.programAnchor == c.programAnchor + shift
    ensures var moved := MapPts(c, mediaPts).value + shift;
            MapPts(c', mediaPts) == if Representable(moved) then Some(moved) else None
  {
    assert ScaledOffset(c', mediaPts) == ScaledOffset(c, mediaPts);
  }

  // After an update the clock maps the observed sample to its old prediction plus the bounded adjustment,
  // exactly, whether or not the rate was refitted and the anchor moved.
  lemma UpdateMovesPredictionByAdjustment(cfg: Config, c: Clock, sample: Sample, programTime: int)
    requires ValidConfig(cfg) && ClockOk(cfg, c)
    requires Observe(cfg, c, sample, programTime).1 == Updated
    ensures var c' := Observe(cfg, c, sample, programTime).0;
            var predicted := MapPts(c, sample.mediaPts);
            && predicted.Some?
            && c'.phaseError == Some(programTime - predicted.value)
            && c'.phaseAdjustment == Some(PhaseAdjustment(cfg, programTime - predicted.value))
            && var moved := predicted.value + c'.phaseAdjustment.value;
               MapPts(c', sample.mediaPts) == if Representable(moved) then Some(moved) else None
  {
    var c' := Observe(cfg, c, sample, programTime).0;
    var predicted := MapPts(c, sample.mediaPts).value;
    if WindowComplete(cfg, c, sample) && Denominator(Accumulate(c, sample, programTime)) > 0.0 {
      MapsAnchor(c');
    } else {
      MapsShifted(c, c', sample.mediaPts, c'.phaseAdjustment.value);
    }
  }

  // What the adjustment leaves of the phase error keeps its sign and never grows, and it shrinks exactly
  // when the error reaches the filter's divisor and adjustments are allowed at all.
  lemma ResidualErrorShrinks(cfg: Config, error: int)
    requires ValidConfig(cfg)
    ensures var residual := error - PhaseAdjustment(cfg, error);
            && (error >= 0 ==> 0 <= residual <= error)
            && (error <= 0 ==> error <= residual <= 0)
            && (Abs(residual) < Abs(error) <==> Abs(error) >= cfg.phaseFilterDivisor && cfg.maximumPhaseAdjustment > 0)
  {
    var d := cfg.phaseFilterDivisor;
    DivBounds(Abs(error), d);
  }

  lemma DivBounds(a: nat, d: nat)
    requires d > 0
    ensures 0 <= a / d <= a && (a / d >= 1 <==> a >= d)
  {
    var q, r := a / d, a % d;
    assert a == q * d + r && 0 <= r < d;
    if q >= 1 {
      MulAtLeast(q, d);
      MulAtLeast(d, q);
    }
  }

  lemma MulAtLeast(x: int, y: int)
    requires x >= 1 && y >= 1
    ensures x * y >= x
  {
  }

  lemma BlendBetween(x: real, y: real, n: nat, low: real, high: real)
    requires n > 0 && low <= x <= high && low <= y <= high
    ensures low <= x + (y - x) / n as real <= high
  {
    var k := n as real;
    assert k >= 1.0;
    var step := (y - x) / k;
    assert step * k == y - x;
    if y >= x {
      assert 0.0 <= step <= y - x;
    } else {
      assert y - x <= step <= 0.0;
    }
  }

  lemma ObserveKeepsClockOk(cfg: Config, c: Clock, sample: Sample, programTime: int)
    requires ValidConfig(cfg) && ClockOk(cfg, c)
    ensures ClockOk(cfg, Observe(cfg, c, sample, programTime).0)
  {
    var d := MaximumDeviation(cfg);
    assert d > 0.0;
    if Observe(cfg, c, sample, programTime).1 == Updated {
      var sums := Accumulate(c, sample, programTime);
      if WindowComplete(cfg, c, sample) && Denominator(sums) > 0.0 {
        var bounded := ClampReal(Numerator(sums) / Denominator(sums), 1.0 - d, 1.0 + d);
        BlendBetween(c.rate, bounded, cfg.rateFilterDivisor, 1.0 - d, 1.0 + d);
      }
    }
  }

  // An update continues the same source: same epoch, later sequence, later timestamp.
  lemma UpdateContinues(cfg: Config, c: Clock, sample: Sample, programTime: int)
    requires ValidConfig(cfg) && ClockOk(cfg, c)
    ensures var r := Observe(cfg, c, sample, programTime);
            && r.0.streamEpoch == Some(sample.streamEpoch) && r.0.frameSequence == sample.frameSequence
            && r.0.mediaPts == sample.mediaPts
            && (r.1 == Initialized <==> c.streamEpoch.None?)
            && (r.1 == Updated ==>
                  c.streamEpoch == Some(sample.streamEpoch) && c.frameSequence < sample.frameSequence &&
                  c.mediaPts < sample.mediaPts)
  {
  }

  // ---------------------------------------------------------------- the regression

  datatype Point = Point(media: real, program: real)

  // The sums over a batch of points, newest last.
  ghost function BatchSums(points: seq<Point>): Sums {
    if points == [] then NO_SUMS
    else
      var last := points[|points| - 1];
      AddPoint(BatchSums(points[..|points| - 1]), last.media, last.program)
  }

  ghost function Product(x: real, y: real): real {
    x * y
  }

  ghost function Square(x: real): real {
    Product(x, x)
  }

  ghost function Sum(points: seq<Point>, f: Point -> real): real {
    if points == [] then 0.0 else Sum(points[..|points| - 1], f) + f(points[|points| - 1])
  }

  ghost function LineResidual(a: real, b: real): Point -> real {
    (p: Point) => p.program - a - b * p.media
  }

  ghost function LineError(a: real, b: real): Point -> real {
    (p: Point) => Square(LineResidual(a, b)(p))
  }

  // The squared error of the line with the given intercept and slope.
  ghost function SquaredError(points: seq<Point>, intercept: real, slope: real): real {
    Sum(points, LineError(intercept, slope))
  }

  // The points of the current window: those that contributed since the last discontinuity or completed window.
  ghost function Window(cfg: Config, c: Clock, points: seq<Point>, sample: Sample, programTime: int): seq<Point>
    requires ValidConfig(cfg) && ClockOk(cfg, c)
  {
    if Observe(cfg, c, sample, programTime).1 != Updated || WindowComplete(cfg, c, sample) then []
    else Contributed(c, points, sample, programTime)
  }

  ghost function Contributed(c: Clock, points: seq<Point>, sample: Sample, programTime: int): seq<Point> {
    if Contributes(c, sample, programTime) then
      points + [Point((sample.mediaPts - c.rateMediaReference) as real,
                      (programTime - c.rateProgramReference) as real)]
    else points
  }

  // The sums kept step by step are the batch sums of the window's points.
  lemma SumsFollowWindow(cfg: Config, c: Clock, points: seq<Point>, sample: Sample, programTime: int)
    requires ValidConfig(cfg) && ClockOk(cfg, c) && c.sums == BatchSums(points)
    ensures Accumulate(c, sample, programTime) == BatchSums(Contributed(c, points, sample, programTime))
    ensures Observe(cfg, c, sample, programTime).0.sums == BatchSums(Window(cfg, c, points, sample, programTime))
  {
    var more := Contributed(c, points, sample, programTime);
    assert |more| > |points| ==> more[..|more| - 1] == points;
  }

  // n * sum of (x - x_i)^2, the growth of the denominator when x joins.
  ghost function Spread(points: seq<Point>, x: real): real {
    if points == [] then 0.0
    else Spread(points[..|points| - 1], x) + Square(x - points[|points| - 1].media)
  }

  lemma PositiveProduct(x: real, y: real)
    requires x > 0.0 && y > 0.0
    ensures Product(x, y) > 0.0
  {
  }

  lemma ProductOfNegations(x: real, y: real)
    ensures Product(-x, -y) == Product(x, y)
  {
  }

  lemma SquareSign(x: real)
    ensures Square(x) >= 0.0
    ensures Square(x) == 0.0 <==> x == 0.0
  {
    if x > 0.0 {
      PositiveProduct(x, x);
    } else if x < 0.0 {
      PositiveProduct(-x, -x);
      ProductOfNegations(x, x);
    } else {
      assert Product(0.0, x) == 0.0;
    }
  }

  lemma {:induction false} SpreadBySums(points: seq<Point>, x: real)
    ensures Spread(points, x) == SpreadOfSums(BatchSums(points), x)
  {
    if points != [] {
      var front, p := points[..|points| - 1], points[|points| - 1];
      SpreadBySums(front, x);
      SpreadGrows(BatchSums(front), p, x);
    }
  }

  ghost function SpreadOfSums(s: Sums, x: real): real {
    s.mediaSquared - 2.0 * x * s.media + s.count as real * (x * x)
  }

  lemma SpreadGrows(s: Sums, p: Point, x: real)
    ensures SpreadOfSums(AddPoint(s, p.media, p.program), x) == SpreadOfSums(s, x) + Square(x - p.media)
  {
    var n, m := s.count as real, p.media;
    assert Square(x - m) == x * x - 2.0 * x * m + m * m;
    assert (n + 1.0) * (x * x) == n * (x * x) + x * x;
    assert 2.0 * x * (s.media + m) == 2.0 * x * s.media + 2.0 * x * m;
  }

  lemma {:induction false} SpreadSign(points: seq<Point>, x: real)
    ensures Spread(points, x) >= 0.0
    ensures Spread(points, x) == 0.0 <==> forall i :: 0 <= i < |points| ==> points[i].media == x
  {
    if points != [] {
      var front, last := points[..|points| - 1], points[|points| - 1];
      SpreadSign(front, x);
      SquareSign(x - last.media);
      assert forall i :: 0 <= i < |front| ==> front[i] == points[i];
    }
  }

  ghost predicate SameOffsets(points: seq<Point>) {
    forall i, j :: 0 <= i < |points| && 0 <= j < |points| ==> points[i].media == points[j].media
  }

  lemma SameOffsetsExtend(points: seq<Point>)
    requires points != []
    ensures var front, last := points[..|points| - 1], points[|points| - 1];
            SameOffsets(points) <==>
              SameOffsets(front) && forall i :: 0 <= i < |front| ==> front[i].media == last.media
  {
    var front := points[..|points| - 1];
    assert forall i :: 0 <= i < |front| ==> front[i] == points[i];
  }

  // The denominator is never negative, and it is zero exactly when all points share one media offset.
  lemma {:induction false} DenominatorNonNegative(points: seq<Point>)
    ensures Denominator(BatchSums(points)) >= 0.0
    ensures Denominator(BatchSums(points)) == 0.0 <==> SameOffsets(points)
  {
    if points != [] {
      var front, last := points[..|points| - 1], points[|points| - 1];
      DenominatorNonNegative(front);
      SpreadSign(front, last.media);
      SameOffsetsExtend(points);
      DenominatorByPoints(points);
    }
  }

  lemma DenominatorByPoints(points: seq<Point>)
    requires points != []
    ensures var front, last := points[..|points| - 1], points[|points| - 1];
            Denominator(BatchSums(points)) == Denominator(BatchSums(front)) + Spread(front, last.media)
  {
    var front, last := points[..|points| - 1], points[|points| - 1];
    SpreadBySums(front, last.media);
    DenominatorGrows(BatchSums(front), last);
  }

  lemma DenominatorGrows(s: Sums, p: Point)
    ensures Denominator(AddPoint(s, p.media, p.program)) == Denominator(s) + SpreadOfSums(s, p.media)
  {
    var n, x := s.count as real, p.media;
    assert (n + 1.0) * (s.mediaSquared + x * x) == n * s.mediaSquared + n * (x * x) + s.mediaSquared + x * x;
    assert (s.media + x) * (s.media + x) == s.media * s.media + 2.0 * x * s.media + x * x;
  }

  ghost function Slope(s: Sums): real
    requires Denominator(s) != 0.0
  {
    Numerator(s) / Denominator(s)
  }

  ghost function Intercept(s: Sums): real
    requires Denominator(s) != 0.0 && s.count > 0
  {
    (s.program - Slope(s) * s.media) / s.count as real
  }

  // The residuals of a line, and the residuals weighted by the media offset, summed over a batch.
  ghost function Residual(s: Sums, a: real, b: real): real {
    s.program - s.count as real * a - b * s.media
  }

  ghost function WeightedResidual(s: Sums, a: real, b: real): real {
    s.mediaProgram - a * s.media - b * s.mediaSquared
  }

  ghost function WeightedLineResidual(a: real, b: real): Point -> real {
    (p: Point) => p.media * LineResidual(a, b)(p)
  }

  lemma PointMoved(p: Point, a: real, b: real, da: real, db: real)
    ensures LineError(a + da, b + db)(p) >=
            LineError(a, b)(p) - 2.0 * (da * LineResidual(a, b)(p) + db * WeightedLineResidual(a, b)(p))
  {
    var r := p.program - a - b * p.media;
    var m := da + db * p.media;
    assert (b + db) * p.media == b * p.media + db * p.media;
    assert LineResidual(a + da, b + db)(p) == r - m;
    assert Square(r - m) == Square(r) - 2.0 * (r * m) + Square(m);
    assert r * m == da * r + db * (p.media * r);
    assert LineResidual(a, b)(p) == r;
    assert WeightedLineResidual(a, b)(p) == p.media * r;
    SquareSign(m);
  }

  lemma {:induction false} SumBound(points: seq<Point>, e: Point -> real, f: Point -> real, g: Point -> real,
                                    h: Point -> real,
                                    da: real, db: real)
    requires forall p :: e(p) >= f(p) - 2.0 * (da * g(p) + db * h(p))
    ensures Sum(points, e) >= Sum(points, f) - 2.0 * (da * Sum(points, g) + db * Sum(points, h))
  {
    if points != [] {
      var front, p := points[..|points| - 1], points[|points| - 1];
      SumBound(front, e, f, g, h, da, db);
      Distribute(da, Sum(front, g), g(p));
      Distribute(db, Sum(front, h), h(p));
      assert e(p) >= f(p) - 2.0 * (da * g(p) + db * h(p));
    }
  }

  lemma Distribute(k: real, x: real, y: real)
    ensures k * (x + y) == k * x + k * y
  {
  }

  lemma {:induction false} ResidualsBySums(points: seq<Point>, a: real, b: real)
    ensures Sum(points, LineResidual(a, b)) == Residual(BatchSums(points), a, b)
    ensures Sum(points, WeightedLineResidual(a, b)) == WeightedResidual(BatchSums(points), a, b)
  {
    if points != [] {
      ResidualsBySums(points[..|points| - 1], a, b);
      ResidualsGrow(BatchSums(points[..|points| - 1]), points[|points| - 1], a, b);
    }
  }

  lemma ResidualsGrow(s: Sums, p: Point, a: real, b: real)
    ensures var t := AddPoint(s, p.media, p.program);
            && Residual(t, a, b) == Residual(s, a, b) + LineResidual(a, b)(p)
            && WeightedResidual(t, a, b) == WeightedResidual(s, a, b) + WeightedLineResidual(a, b)(p)
  {
    var r := p.program - a - b * p.media;
    assert p.media * r == p.media * p.program - a * p.media - b * (p.media * p.media);
    assert (s.count + 1) as real * a == s.count as real * a + a;
  }

  lemma NormalEquations(s: Sums)
    requires Denominator(s) > 0.0 && s.count > 0
    ensures Residual(s, Intercept(s), Slope(s)) == 0.0
    ensures WeightedResidual(s, Intercept(s), Slope(s)) == 0.0
  {
    var n, d, b, a := s.count as real, Denominator(s), Slope(s), Intercept(s);
    assert b * d == Numerator(s);
    assert a * n == s.program - b * s.media;
    assert n * WeightedResidual(s, a, b) == n * s.mediaProgram - (a * n) * s.media - b * (n * s.mediaSquared);
    assert (a * n) * s.media == s.program * s.media - b * (s.media * s.media);
    assert n * WeightedResidual(s, a, b) == Numerator(s) - b * d;
    assert n * WeightedResidual(s, a, b) == 0.0;
  }

  // The observed rate is the slope of the least-squares line: no line through the window's points has a
  // smaller squared error.
  lemma ObservedRateIsLeastSquares(cfg: Config, c: Clock, points: seq<Point>, sample: Sample, programTime: int,
                                   intercept: real, slope: real)
    requires ValidConfig(cfg) && ClockOk(cfg, c) && c.sums == BatchSums(points)
    requires Observe(cfg, c, sample, programTime).1 == Updated && WindowComplete(cfg, c, sample)
    requires Denominator(Accumulate(c, sample, programTime)) > 0.0
    ensures var all := Contributed(c, points, sample, programTime);
            var s := BatchSums(all);
            && Denominator(s) > 0.0 && s.count > 0
            && Observe(cfg, c, sample, programTime).0.observedRate == Some(Slope(s))
            && SquaredError(all, Intercept(s), Slope(s)) <= SquaredError(all, intercept, slope)
  {
    var all := Contributed(c, points, sample, programTime);
    var s := BatchSums(all);
    SumsFollowWindow(cfg, c, points, sample, programTime);
    LeastSquares(all, intercept, slope);
  }

  lemma LeastSquares(points: seq<Point>, intercept: real, slope: real)
    requires Denominator(BatchSums(points)) > 0.0
    ensures var s := BatchSums(points);
            s.count > 0 && SquaredError(points, Intercept(s), Slope(s)) <= SquaredError(points, intercept, slope)
  {
    var s := BatchSums(points);
    var a, b := Intercept(s), Slope(s);
    NormalEquations(s);
    var da, db := intercept - a, slope - b;
    forall p: Point ensures LineError(a + da, b + db)(p) >=
                     LineError(a, b)(p) - 2.0 * (da * LineResidual(a, b)(p) + db * WeightedLineResidual(a, b)(p)) {
      PointMoved(p, a, b, da, db);
    }
    SumBound(points, LineError(a + da, b + db), LineError(a, b), LineResidual(a, b), WeightedLineResidual(a, b), da, db);
    ResidualsBySums(points, a, b);
    assert a + (intercept - a) == intercept && b + (slope - b) == slope;
  }

  // ---------------------------------------------------------------- runs

  datatype Input = Input(sample: Sample, programTime: int)

  // The clock and its window after a run of observations.
  ghost function Run(cfg: Config, inputs: seq<Input>): (r: (Clock, seq<Point>))
    requires ValidConfig(cfg)
    ensures ClockOk(cfg, r.0)
  {
    assert MaximumDeviation(cfg) > 0.0;
    if inputs == [] then (RESET, [])
    else
      var (c, points) := Run(cfg, inputs[..|inputs| - 1]);
      var last := inputs[|inputs| - 1];
      ObserveKeepsClockOk(cfg, c, last.sample, last.programTime);
      (Observe(cfg, c, last.sample, last.programTime).0, Window(cfg, c, points, last.sample, last.programTime))
  }

  // Media offsets in a window grow, and stay behind the last observed timestamp.
  ghost predicate Increasing(points: seq<Point>, bound: real) {
    && (forall i, j :: 0 <= i < j < |points| ==> points[i].media < points[j].media)
    && (forall i :: 0 <= i < |points| ==> points[i].media <= bound)
  }

  ghost function Reached(c: Clock): real {
    (c.mediaPts - c.rateMediaReference) as real
  }

  lemma ContributedIncreases(c: Clock, points: seq<Point>, sample: Sample, programTime: int)
    requires Increasing(points, Reached(c)) && c.mediaPts < sample.mediaPts
    ensures Increasing(Contributed(c, points, sample, programTime), (sample.mediaPts - c.rateMediaReference) as real)
  {
    assert (sample.mediaPts - c.rateMediaReference) as real > Reached(c);
  }

  lemma TwoPointsDetermine(points: seq<Point>, bound: real)
    requires Increasing(points, bound)
    ensures Denominator(BatchSums(points)) > 0.0 <==> |points| >= 2
  {
    DenominatorNonNegative(points);
    if |points| >= 2 {
      assert points[0].media < points[1].media;
    }
  }

  // Over every run the incremental sums are the batch sums of the window, whose media offsets increase.
  lemma {:induction false} EveryRunFollowsItsWindow(cfg: Config, inputs: seq<Input>)
    requires ValidConfig(cfg)
    ensures var (c, points) := Run(cfg, inputs);
            c.sums == BatchSums(points) && Increasing(points, Reached(c))
  {
    if inputs != [] {
      var (c, points) := Run(cfg, inputs[..|inputs| - 1]);
      var last := inputs[|inputs| - 1];
      EveryRunFollowsItsWindow(cfg, inputs[..|inputs| - 1]);
      SumsFollowWindow(cfg, c, points, last.sample, last.programTime);
      UpdateContinues(cfg, c, last.sample, last.programTime);
      if c.mediaPts < last.sample.mediaPts {
        ContributedIncreases(c, points, last.sample, last.programTime);
      }
    }
  }

  // In every run the rate stays within the configured deviation of one, and a completed window refits it
  // exactly when at least two points contributed.
  lemma EveryRunRefitsFromTwoPoints(cfg: Config, inputs: seq<Input>, sample: Sample, programTime: int)
    requires ValidConfig(cfg)
    ensures var (c, points) := Run(cfg, inputs);
            var r := Observe(cfg, c, sample, programTime);
            && 1.0 - MaximumDeviation(cfg) <= r.0.rate <= 1.0 + MaximumDeviation(cfg)
            && (r.1 == Updated && WindowComplete(cfg, c, sample) ==>
                 (|Contributed(c, points, sample, programTime)| >= 2 <==>
                    Denominator(Accumulate(c, sample, programTime)) > 0.0))
  {
    var (c, points) := Run(cfg, inputs);
    EveryRunFollowsItsWindow(cfg, inputs);
    ObserveKeepsClockOk(cfg, c, sample, programTime);
    UpdateContinues(cfg, c, sample, programTime);
    SumsFollowWindow(cfg, c, points, sample, programTime);
    if c.mediaPts < sample.mediaPts {
      ContributedIncreases(c, points, sample, programTime);
      TwoPointsDetermine(Contributed(c, points, sample, programTime), (sample.mediaPts - c.rateMediaReference) as real);
    }
  }

  // ---------------------------------------------------------------- the object

  class MediaToProgramClock {
    const config: Config
    var streamEpoch: Option<nat>
    var frameSequence: nat
    var mediaPts: int
    var programTimeObservation: int
    var mediaAnchor: int
    var programAnchor: int
    var rateReferenceFrameSequence: nat
    var rateMediaReference: int
    var rateProgramReference: int
    var sums: Sums
    var rate: real
    var observedRate: Option<real>
    var phaseError: Option<int>
    var phaseAdjustment: Option<int>

    function View(): Clock
      reads this
    {
      Clock(streamEpoch, frameSequence, mediaPts, programTimeObservation, mediaAnchor, programAnchor,
            rateReferenceFrameSequence, rateMediaReference, rateProgramReference, sums, rate, observedRate,
            phaseError, phaseAdjustment)
    }

    ghost predicate Valid()
      reads this
    {
      ValidConfig(config) && ClockOk(config, View())
    }

    constructor (config: Config)
      requires ValidConfig(config)
      ensures Valid() && this.config == config && View() == RESET
    {
      this.config := config;
      streamEpoch, frameSequence, mediaPts, programTimeObservation := None, 0, 0, 0;
      mediaAnchor, programAnchor := 0, 0;
      rateReferenceFrameSequence, rateMediaReference, rateProgramReference := 0, 0, 0;
      sums, rate, observedRate, phaseError, phaseAdjustment := NO_SUMS, 1.0, None, None, None;
      assert MaximumDeviation(config) > 0.0;
    }

    method InitializeAt(sample: Sample, programTime: int)
      modifies this
      ensures View() == Initialize(sample, programTime)
    {
      streamEpoch, frameSequence := Some(sample.streamEpoch), sample.frameSequence;
      mediaPts, programTimeObservation := sample.mediaPts, programTime;
      mediaAnchor, programAnchor := sample.mediaPts, programTime;
      StartWindow(sample, programTime);
      rate, observedRate, phaseError, phaseAdjustment := 1.0, None, None, None;
    }

    method StartWindow(sample: Sample, programTime: int)
      modifies this`rateReferenceFrameSequence, this`rateMediaReference, this`rateProgramReference, this`sums
      ensures View() == old(View()).(rateReferenceSequence := sample.frameSequence,
                                     rateMediaReference := sample.mediaPts,
                                     rateProgramReference := programTime, sums := NO_SUMS)
    {
      rateReferenceFrameSequence, rateMediaReference, rateProgramReference :=
        sample.frameSequence, sample.mediaPts, programTime;
      sums := NO_SUMS;
    }

    method AdoptRate(mediaPts: int, predicted: int)
      requires ValidConfig(config)
      modifies this`observedRate, this`mediaAnchor, this`programAnchor, this`rate
      ensures View() == RateStep(config, old(View()), sums, mediaPts, predicted)
    {
      var denominator := Denominator(sums);
      if denominator > 0.0 {
        var observed := Numerator(sums) / denominator;
        observedRate := Some(observed);
        var deviation := config.maximumRateDeviation / 1000000.0;
        var bounded := ClampReal(observed, 1.0 - deviation, 1.0 + deviation);
        mediaAnchor, programAnchor := mediaPts, predicted;
        rate := rate + (bounded - rate) / config.rateFilterDivisor as real;
      }
    }

    method ObserveSample(sample: Sample, programTime: int) returns (observation: Observation)
      requires Valid()
      modifies this
      ensures Valid()
      ensures (View(), observation) == Observe(config, old(View()), sample, programTime)
    {
      ObserveKeepsClockOk(config, View(), sample, programTime);
      if streamEpoch.None? {
        InitializeAt(sample, programTime);
        return Initialized;
      }
      var predicted := MapPts(View(), sample.mediaPts);
      if Breaks(config, View(), sample, programTime) || predicted.None? {
        InitializeAt(sample, programTime);
        return Discontinuity;
      }
      ghost var before := View();
      sums := Accumulate(View(), sample, programTime);
      if sample.frameSequence - rateReferenceFrameSequence >= config.rateObservationFrames {
        AdoptRate(sample.mediaPts, predicted.value);
        StartWindow(sample, programTime);
      }
      var error := programTime - predicted.value;
      var adjustment := PhaseAdjustment(config, error);
      phaseError, phaseAdjustment := Some(error), Some(adjustment);
      programAnchor := programAnchor + adjustment;
      streamEpoch, frameSequence := Some(sample.streamEpoch), sample.frameSequence;
      mediaPts, programTimeObservation := sample.mediaPts, programTime;
      return Updated;
    }

    method Reset()
      modifies this
      ensures View() == RESET
    {
      streamEpoch, frameSequence, mediaPts, programTimeObservation := None, 0, 0, 0;
      mediaAnchor, programAnchor := 0, 0;
      rateReferenceFrameSequence, rateMediaReference, rateProgramReference := 0, 0, 0;
      sums, rate, observedRate, phaseError, phaseAdjustment := NO_SUMS, 1.0, None, None, None;
    }
  }
}
