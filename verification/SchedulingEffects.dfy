/** What beginning and finishing a frame mean for its times. */
module SchedulingEffects {
  import opened Common
  import opened FrameRate
  import opened FrameScheduler

  // A frame can begin when none is being rendered, unless the rate is a new one whose frames last no whole number of
  // flicks; a frame that cannot begin changes nothing.
  lemma BeginsExactly(s: Scheduler, rate: Rate, anchorNow: int, startNow: int)
    requires rate.Fits()
    ensures CanBegin(s, rate) <==> !s.timeline.active
                                   && (GetFrameDuration(rate).Some?
                                       || (s.timeline.initialized && s.timeline.rate == rate))
    ensures !CanBegin(s, rate) ==> BeginFrame(s, rate, anchorNow, startNow) == s
  {
  }

  // The first frame, and the first at a new rate, starts an epoch: its target is now, it is told to be out of line with
  // the frames before it, and no missed deadline counts against it.
  lemma NewRateStartsEpoch(s: Scheduler, rate: Rate, anchorNow: int, startNow: int)
    requires rate.Fits() && CanBegin(s, rate) && (!s.timeline.initialized || s.timeline.rate != rate)
    ensures var r := BeginFrame(s, rate, anchorNow, startNow);
            r.timeline.active && r.timeline.rate == rate && r.timeline.epoch == s.timeline.epoch + 1
            && GetFrameDuration(rate) == Some(r.timeline.duration) && r.timeline.nextNumber == s.timeline.nextNumber
            && r.context == Context(s.timeline.nextNumber, s.timeline.epoch + 1, 0, r.timeline.duration, anchorNow,
                                    anchorNow + r.timeline.duration, true)
            && r.metrics.renderStart == startNow && r.totals == s.totals.(overload := 0) && r.extremes == s.extremes
  {
  }

  // Any other frame goes on at its place in the epoch: as many durations after the anchor as frames were finished and
  // skipped, due one duration later.
  lemma SameRateGoesOn(s: Scheduler, rate: Rate, anchorNow: int, startNow: int)
    requires rate.Fits() && CanBegin(s, rate) && s.timeline.initialized && s.timeline.rate == rate
    ensures var r, t := BeginFrame(s, rate, anchorNow, startNow), s.timeline;
            r.timeline == t.(active := true) && !r.context.discontinuity
            && r.context.number == t.nextNumber && r.context.epoch == t.epoch && r.context.duration == t.duration
            && r.context.pts == t.duration * t.frame && r.context.target == t.anchor + r.context.pts
            && r.context.deadline == r.context.target + t.duration
            && r.metrics.renderStart == startNow && r.totals == s.totals && r.extremes == s.extremes
  {
  }

  // A frame finished took from its start to now, was late by what its start was past its target, and had until its
  // deadline left, if anything.
  lemma FinishMeasures(s: Scheduler, endNow: int)
    requires s.timeline.active && s.timeline.duration > 0
    ensures var r, m, c := FinishFrame(s, endNow), s.metrics, s.context;
            !r.timeline.active && r.timeline.epoch == s.timeline.epoch && r.timeline.anchor == s.timeline.anchor
            && r.timeline.rate == s.timeline.rate && r.timeline.duration == s.timeline.duration
            && r.timeline.frame == s.timeline.frame + 1 + r.metrics.skipped
            && r.timeline.nextNumber == s.timeline.nextNumber + 1 + r.metrics.skipped
            && r.metrics.renderEnd == endNow && r.metrics.renderDuration == endNow - m.renderStart
            && r.metrics.startLateness == (if m.renderStart > c.target then m.renderStart - c.target else 0)
            && r.metrics.deadlineMargin == c.deadline - endNow
            && r.totals.skipped == s.totals.skipped + r.metrics.skipped
            && r.totals.misses == s.totals.misses + (if endNow > c.deadline then 1 else 0)
            && r.totals.overload == (if endNow > c.deadline then s.totals.overload + s.timeline.duration else 0)
            && (r.metrics.sustainedOverload <==> r.totals.overload >= FLICKS_PER_SECOND)
  {
  }

  lemma IdleFinishDoesNothing(s: Scheduler, endNow: int)
    requires !s.timeline.active
    ensures FinishFrame(s, endNow) == s
  {
  }
}
