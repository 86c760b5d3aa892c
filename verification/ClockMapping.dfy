/** What the media clock's mapping and its observations mean in terms of the times that go in and come out. */
module ClockMapping {
  import opened Common
  import opened MediaClock

  lemma RoundIsNearest(x: real)
    ensures -0.5 <= Round(x) as real - x <= 0.5
  {
    if x < 0.0 { assert (-x + 0.5).Floor as real <= -x + 0.5 < (-x + 0.5).Floor as real + 1.0; }
  }

  lemma RoundIsMonotone(x: real, y: real)
    requires x <= y
    ensures Round(x) <= Round(y)
  {
    if x < 0.0 <= y {
      assert (-x + 0.5).Floor >= 0;
    }
  }

  // Program time runs on from the anchor at the clock's rate, to the nearest flick.
  lemma MapFollowsRate(c: Clock, mediaPts: int, programPts: int)
    requires MapPts(c, mediaPts) == Some(programPts)
    ensures var exact := (mediaPts - c.mediaAnchor) as real * c.rate;
            -0.5 <= (programPts - c.programAnchor) as real - exact <= 0.5
  {
    RoundIsNearest(ScaledOffset(c, mediaPts));
  }

  // It is defined exactly once a sample has been observed, as long as the time fits 64 bits.
  lemma MapIsDefined(c: Clock, mediaPts: int)
    ensures MapPts(c, mediaPts).Some? ==> c.streamEpoch.Some?
    ensures MapPts(c, mediaPts).Some? ==> Representable(MapPts(c, mediaPts).value)
    ensures c.streamEpoch.Some? && MapPts(c, mediaPts).None? ==>
              exists time :: !Representable(time) &&
                -0.5 <= (time - c.programAnchor) as real - (mediaPts - c.mediaAnchor) as real * c.rate <= 0.5
  {
    RoundIsNearest(ScaledOffset(c, mediaPts));
    assert c.streamEpoch.Some? && MapPts(c, mediaPts).None? ==>
             !Representable(c.programAnchor + Round(ScaledOffset(c, mediaPts)));
  }

  lemma ProductKeepsOrder(x: real, y: real, r: real, xr: real, yr: real)
    requires x <= y && 0.0 <= r && xr == x * r && yr == y * r
    ensures xr <= yr
  {
    var gap := y - x;
    assert gap * r >= 0.0;
    assert yr == xr + gap * r;
  }

  // Later media time is never earlier program time.
  lemma MapIsMonotone(c: Clock, p: int, q: int)
    requires p <= q && 0.0 <= c.rate && MapPts(c, p).Some? && MapPts(c, q).Some?
    ensures MapPts(c, p).value <= MapPts(c, q).value
  {
    ProductKeepsOrder((p - c.mediaAnchor) as real, (q - c.mediaAnchor) as real, c.rate,
                      ScaledOffset(c, p), ScaledOffset(c, q));
    RoundIsMonotone(ScaledOffset(c, p), ScaledOffset(c, q));
  }

  lemma Distributes(x: real, y: real, r: real)
    ensures y * r - x * r == (y - x) * r
  {
  }

  // A stretch of media time lasts its length times the rate in program time, within a flick.
  lemma MappedStretch(c: Clock, p: int, q: int)
    requires MapPts(c, p).Some? && MapPts(c, q).Some?
    ensures -1.0 <= (MapPts(c, q).value - MapPts(c, p).value) as real - (q - p) as real * c.rate <= 1.0
  {
    var x, y := (p - c.mediaAnchor) as real, (q - c.mediaAnchor) as real;
    MapFollowsRate(c, p, MapPts(c, p).value);
    MapFollowsRate(c, q, MapPts(c, q).value);
    Distributes(x, y, c.rate);
    assert y - x == (q - p) as real;
  }

  lemma StretchBounds(span: real, low: real, rate: real, high: real, elapsed: real)
    requires 0.0 <= span && low <= rate <= high && -1.0 <= elapsed - span * rate <= 1.0
    ensures span * low - 1.0 <= elapsed <= span * high + 1.0
  {
    ProductKeepsOrder(low, rate, span, span * low, span * rate);
    ProductKeepsOrder(rate, high, span, span * rate, span * high);
  }

  lemma RateIsPositive(cfg: Config, c: Clock)
    requires ValidConfig(cfg) && cfg.maximumRateDeviation < 1000000.0 && ClockOk(cfg, c)
    ensures 0.0 < 1.0 - MaximumDeviation(cfg) <= c.rate <= 1.0 + MaximumDeviation(cfg)
  {
  }

  // Between two mapped times program time does not go back, and lasts as long as media time within a deviation and the
  // rounding of both ends.
  ghost predicate KeepsPace(c: Clock, p: int, q: int, d: real) {
    var from, to := MapPts(c, p), MapPts(c, q);
    from.Some? && to.Some? ==>
      var elapsed := (to.value - from.value) as real;
      0.0 <= elapsed && (q - p) as real * (1.0 - d) - 1.0 <= elapsed <= (q - p) as real * (1.0 + d) + 1.0
  }

  lemma StretchKeepsPace(c: Clock, p: int, q: int, d: real)
    requires p <= q && 0.0 <= 1.0 - d <= c.rate <= 1.0 + d
    ensures KeepsPace(c, p, q, d)
  {
    if MapPts(c, p).Some? && MapPts(c, q).Some? {
      MapIsMonotone(c, p, q);
      MappedStretch(c, p, q);
      StretchBounds((q - p) as real, 1.0 - d, c.rate, 1.0 + d, (MapPts(c, q).value - MapPts(c, p).value) as real);
    }
  }

  // Over every run, with a rate that may deviate by less than all of it, the clock's rate is positive and the mapping
  // keeps pace with media time.
  lemma EveryRunMapsForward(cfg: Config, inputs: seq<Input>, p: int, q: int)
    requires ValidConfig(cfg) && cfg.maximumRateDeviation < 1000000.0 && p <= q
    ensures Run(cfg, inputs).0.rate > 0.0
    ensures KeepsPace(Run(cfg, inputs).0, p, q, MaximumDeviation(cfg))
  {
    var c := Run(cfg, inputs).0;
    RateIsPositive(cfg, c);
    StretchKeepsPace(c, p, q, MaximumDeviation(cfg));
  }

  // The time line is broken exactly when the source starts over, repeats or goes back, when media time and program time
  // have moved apart by more than the threshold since the last sample, or when the sample has no program time.
  lemma TimeLineBreaksExactly(cfg: Config, c: Clock, sample: Sample, programTime: int)
    requires ValidConfig(cfg) && ClockOk(cfg, c)
    ensures Observe(cfg, c, sample, programTime).1 == Discontinuity
            <==> c.streamEpoch.Some?
                 && (sample.streamEpoch != c.streamEpoch.value || sample.frameSequence <= c.frameSequence
                     || sample.mediaPts <= c.mediaPts
                     || (programTime - c.programTime) - (sample.mediaPts - c.mediaPts) > cfg.discontinuityThreshold
                     || (sample.mediaPts - c.mediaPts) - (programTime - c.programTime) > cfg.discontinuityThreshold
                     || MapPts(c, sample.mediaPts).None?)
    ensures Observe(cfg, c, sample, programTime).1 == Initialized <==> c.streamEpoch.None?
  {
  }

  // A clock that starts, or starts over, maps the sample to the time it was observed at and runs at rate one.
  lemma RestartMapsSample(cfg: Config, c: Clock, sample: Sample, programTime: int)
    requires ValidConfig(cfg) && ClockOk(cfg, c) && Observe(cfg, c, sample, programTime).1 != Updated
    ensures var r := Observe(cfg, c, sample, programTime).0;
            r.rate == 1.0 && r.sums == NO_SUMS && r.observedRate.None? && r.phaseError.None?
            && r.programTime == programTime
            && forall pts :: var time := programTime + (pts - sample.mediaPts);
                             MapPts(r, pts) == (if Representable(time) then Some(time) else None)
  {
    var r := Observe(cfg, c, sample, programTime).0;
    forall pts
      ensures var time := programTime + (pts - sample.mediaPts);
              MapPts(r, pts) == (if Representable(time) then Some(time) else None)
    {
      assert ScaledOffset(r, pts) == (pts - sample.mediaPts) as real;
      RoundIsNearest((pts - sample.mediaPts) as real);
    }
  }

  // The whole part of an amount divided by a divisor, cut off at a maximum.
  ghost predicate IsShare(a: int, amount: int, d: nat, most: int) {
    0 <= a <= most && a * d <= amount && (a == most || amount < (a + 1) * d)
  }

  lemma ShareOf(amount: nat, d: nat, most: nat)
    requires 0 < d
    ensures IsShare(if amount / d > most then most else amount / d, amount, d, most)
  {
    var q := amount / d;
    assert amount == q * d + amount % d;
    assert (q + 1) * d == q * d + d;
    if q > most {
      assert (q - most) * d >= 0;
      assert q * d == (q - most) * d + most * d;
    }
  }

  // The adjustment is the error divided by the filter's divisor, in whole flicks towards zero, cut off at the maximum.
  lemma AdjustmentIsShareOfError(cfg: Config, error: int)
    requires ValidConfig(cfg)
    ensures var a, d, most := PhaseAdjustment(cfg, error), cfg.phaseFilterDivisor, cfg.maximumPhaseAdjustment;
            (0 <= error ==> IsShare(a, error, d, most)) && (error <= 0 ==> IsShare(-a, -error, d, most))
  {
    var d, most := cfg.phaseFilterDivisor, cfg.maximumPhaseAdjustment;
    var amount := if error < 0 then -error else error;
    var share := if amount / d > most then most else amount / d;
    ShareOf(amount, d, most);
    assert PhaseAdjustment(cfg, error) == if error < 0 then -share else share;
  }

  // While a window is open the rate stays, and the sample joins the window when both times have moved on from the
  // window's start.
  lemma OpenWindowGathers(cfg: Config, c: Clock, sample: Sample, programTime: int)
    requires ValidConfig(cfg) && ClockOk(cfg, c) && Observe(cfg, c, sample, programTime).1 == Updated
    requires sample.frameSequence < c.rateReferenceSequence + cfg.rateObservationFrames
    ensures var r := Observe(cfg, c, sample, programTime).0;
            var media, program := sample.mediaPts - c.rateMediaReference, programTime - c.rateProgramReference;
            r.rate == c.rate && r.observedRate == c.observedRate && r.mediaAnchor == c.mediaAnchor
            && r.rateReferenceSequence == c.rateReferenceSequence
            && r.rateMediaReference == c.rateMediaReference && r.rateProgramReference == c.rateProgramReference
            && r.sums == if 0 < media && 0 < program then AddPoint(c.sums, media as real, program as real) else c.sums
  {
  }

  // The observed rate within the bounds allowed: itself, or the bound it passes.
  ghost predicate Bounded(observed: real, deviation: real, bounded: real) {
    && (1.0 - deviation <= observed <= 1.0 + deviation ==> bounded == observed)
    && (observed < 1.0 - deviation ==> bounded == 1.0 - deviation)
    && (observed > 1.0 + deviation ==> bounded == 1.0 + deviation)
  }

  // A complete window starts the next one at the sample. When its points determine a rate, the clock's rate moves
  // towards it, by the filter's share of the way to the bounded rate.
  lemma CompleteWindowRefits(cfg: Config, c: Clock, points: seq<Point>, sample: Sample, programTime: int)
    requires ValidConfig(cfg) && ClockOk(cfg, c) && Observe(cfg, c, sample, programTime).1 == Updated
    requires sample.frameSequence >= c.rateReferenceSequence + cfg.rateObservationFrames
    requires c.sums == BatchSums(points)
    ensures var r := Observe(cfg, c, sample, programTime).0;
            var fitted := BatchSums(Contributed(c, points, sample, programTime));
            r.sums == NO_SUMS && r.rateReferenceSequence == sample.frameSequence
            && r.rateMediaReference == sample.mediaPts && r.rateProgramReference == programTime
            && if Denominator(fitted) > 0.0
               then r.observedRate == Some(Slope(fitted))
                    && exists bounded :: Bounded(Slope(fitted), MaximumDeviation(cfg), bounded)
                                         && (r.rate - c.rate) * cfg.rateFilterDivisor as real == bounded - c.rate
               else r.rate == c.rate && r.observedRate == c.observedRate
  {
    SumsFollowWindow(cfg, c, points, sample, programTime);
    var fitted := BatchSums(Contributed(c, points, sample, programTime));
    if Denominator(fitted) > 0.0 {
      var r, d := Observe(cfg, c, sample, programTime).0, MaximumDeviation(cfg);
      assert d > 0.0;
      var bounded := ClampReal(Slope(fitted), 1.0 - d, 1.0 + d);
      assert Bounded(Slope(fitted), d, bounded);
      ShareTimesDivisor(bounded - c.rate, cfg.rateFilterDivisor as real);
      assert r.rate - c.rate == (bounded - c.rate) / cfg.rateFilterDivisor as real;
    }
  }

  lemma ShareTimesDivisor(x: real, d: real)
    requires d > 0.0
    ensures x / d * d == x
  {
  }
}
