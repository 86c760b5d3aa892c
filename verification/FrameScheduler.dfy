/**
 The frame scheduler: frame targets on the exact grid of the frame rate, late frames skipped, overload noticed.
 Clock readings are parameters.
 */
module FrameScheduler {
  import opened Common
  import opened FrameRate

  // The number of grid frames to leave out so that the next one is not later than allowed.
  function FramesToSkip(now: int, nextTarget: int, duration: int, allowed: nat): (skip: nat)
    requires duration > 0
  {
    var permitted := duration * allowed;
    if now <= nextTarget + permitted then 0
    else
      var excess := now - nextTarget - permitted;
      (excess - 1) / duration + 1
  }

  // The skip count is the least that brings the next frame within the allowed lateness.
  lemma FramesToSkipIsLeast(now: int, nextTarget: int, duration: int, allowed: nat, k: nat)
    requires duration > 0
    ensures now <= nextTarget + duration * k + duration * allowed
            <==> FramesToSkip(now, nextTarget, duration, allowed) <= k
  {
    var permitted := duration * allowed;
    if now > nextTarget + permitted {
      var excess := now - nextTarget - permitted;
      QuotientBound(excess - 1, duration, k);
    }
  }

  lemma QuotientBound(a: nat, d: nat, k: nat)
    requires d > 0
    ensures a < d * k <==> a / d < k
  {
    var q, r := a / d, a % d;
    assert a == d * q + r;
    MultipleSteps(d, q, k);
    MultipleSteps(d, k, q);
  }

  lemma MultipleSteps(d: nat, p: nat, q: nat)
    ensures p < q ==> d * p + d <= d * q
  {
    ProductSteps(d, p, q);
    assert d * p == p * d && d * q == q * d;
  }

  datatype Context = Context(
    number: nat,
    epoch: nat,
    pts: int,
    duration: int,
    target: int,
    deadline: int,
    discontinuity: bool)

  datatype Timeline = Timeline(
    rate: Rate,
    duration: int,
    anchor: int,
    frame: nat,
    nextNumber: nat,
    epoch: nat,
    initialized: bool,
    active: bool)

  datatype Extremes = Extremes(
    renderMax: int,
    renderMaxFrame: nat,
    latenessMax: int,
    latenessMaxFrame: nat,
    marginMin: int,
    marginMinFrame: nat,
    marginObserved: bool)

  datatype Totals = Totals(skipped: nat, misses: nat, overload: int)

  datatype Metrics = Metrics(
    number: nat,
    epoch: nat,
    pts: int,
    renderStart: int,
    renderEnd: int,
    renderDuration: int,
    startLateness: int,
    deadlineMargin: int,
    skipped: nat,
    sustainedOverload: bool,
    extremes: Extremes,
    totals: Totals)

  datatype Scheduler = Scheduler(
    allowed: nat,
    timeline: Timeline,
    extremes: Extremes,
    totals: Totals,
    context: Context,
    metrics: Metrics)

  const NO_CONTEXT: Context := Context(0, 0, 0, 0, 0, 0, false)
  const NO_EXTREMES: Extremes := Extremes(0, 0, 0, 0, 0, 0, false)
  const NO_TOTALS: Totals := Totals(0, 0, 0)
  const NO_METRICS: Metrics := Metrics(0, 0, 0, 0, 0, 0, 0, 0, 0, false, NO_EXTREMES, NO_TOTALS)

  function Init(allowed: nat): Scheduler {
    Scheduler(allowed, Timeline(Rate(60, 1), 0, 0, 0, 0, 0, false, false), NO_EXTREMES, NO_TOTALS, NO_CONTEXT,
              NO_METRICS)
  }

  // A frame starts a new epoch when it is the first, or when the rate differs from the last frame's.
  predicate Restarts(t: Timeline, rate: Rate) { !t.initialized || rate != t.rate }

  predicate CanBegin(s: Scheduler, rate: Rate)
    requires rate.Fits()
  {
    !s.timeline.active && (Restarts(s.timeline, rate) ==> GetFrameDuration(rate).Some?)
  }

  function BegunTimeline(t: Timeline, rate: Rate, anchorNow: int): Timeline
    requires rate.Fits() && (Restarts(t, rate) ==> GetFrameDuration(rate).Some?)
  {
    if Restarts(t, rate)
    then Timeline(rate, GetFrameDuration(rate).value, anchorNow, 0, t.nextNumber, t.epoch + 1, true, true)
    else t.(active := true)
  }

  function ContextOf(t: Timeline, discontinuity: bool): Context {
    var offset := t.duration * t.frame;
    Context(t.nextNumber, t.epoch, offset, t.duration, t.anchor + offset, t.anchor + offset + t.duration, discontinuity)
  }

  // A frame begins; otherwise the call throws and changes nothing.
  function BeginFrame(s: Scheduler, rate: Rate, anchorNow: int, startNow: int): Scheduler
    requires rate.Fits()
  {
    if !CanBegin(s, rate) then s
    else
      var t := BegunTimeline(s.timeline, rate, anchorNow);
      var c := ContextOf(t, Restarts(s.timeline, rate));
      s.(timeline := t,
         totals := if Restarts(s.timeline, rate) then s.totals.(overload := 0) else s.totals,
         context := c,
         metrics := NO_METRICS.(number := c.number, epoch := c.epoch, pts := c.pts, renderStart := startNow))
  }

  function Max(a: int, b: int): int { if a >= b then a else b }

  // An extreme and the frame it was first seen in.
  function Observe(e: Extremes, c: Context, duration: int, lateness: int, margin: int): Extremes {
    var render := if duration > e.renderMax then e.(renderMax := duration, renderMaxFrame := c.number) else e;
    var late := if lateness > e.latenessMax then render.(latenessMax := lateness, latenessMaxFrame := c.number)
                else render;
    if !e.marginObserved || margin < e.marginMin
    then late.(marginMin := margin, marginMinFrame := c.number, marginObserved := true)
    else late
  }

  function FinishFrame(s: Scheduler, endNow: int): Scheduler
    requires s.timeline.active ==> s.timeline.duration > 0
  {
    if !s.timeline.active then s
    else
      var t, c, m := s.timeline, s.context, s.metrics;
      var duration := endNow - m.renderStart;
      var lateness := Max(m.renderStart - c.target, 0);
      var margin := c.deadline - endNow;
      var extremes := Observe(s.extremes, c, duration, lateness, margin);
      var missed := margin < 0;
      var skip := FramesToSkip(endNow, t.anchor + t.duration * (t.frame + 1), t.duration, s.allowed);
      var totals := Totals(s.totals.skipped + skip, s.totals.misses + (if missed then 1 else 0),
                           if missed then s.totals.overload + t.duration else 0);
      s.(timeline := t.(frame := t.frame + 1 + skip, nextNumber := t.nextNumber + 1 + skip, active := false),
         extremes := extremes,
         totals := totals,
         metrics := m.(renderEnd := endNow, renderDuration := duration, startLateness := lateness,
                       deadlineMargin := margin, skipped := skip,
                       sustainedOverload := totals.overload >= FLICKS_PER_SECOND,
                       extremes := extremes, totals := totals))
  }

  /** Whole runs. */

  // What is known of a frame once it has finished.
  datatype Finished = Finished(
    number: nat,
    epoch: nat,
    index: nat,
    anchor: int,
    duration: int,
    target: int,
    start: int,
    end: int,
    skipped: nat)

  datatype Action = Begin(rate: Rate, anchorNow: int, startNow: int) | Finish(endNow: int)

  ghost predicate Allowed(a: Action) { a.Begin? ==> a.rate.Fits() }

  predicate Ready(s: Scheduler) { s.timeline.active ==> s.timeline.duration > 0 }

  ghost function Step(s: Scheduler, a: Action): (r: Scheduler)
    requires Allowed(a) && Ready(s)
    ensures r.allowed == s.allowed
  {
    match a
    case Begin(rate, anchorNow, startNow) => BeginFrame(s, rate, anchorNow, startNow)
    case Finish(endNow) => FinishFrame(s, endNow)
  }

  // The record of the frame a finish completes.
  ghost function Recorded(s: Scheduler, endNow: int): Finished
    requires s.timeline.active && s.timeline.duration > 0
  {
    var t := s.timeline;
    Finished(s.context.number, s.context.epoch, t.frame, t.anchor, t.duration, s.context.target,
             s.metrics.renderStart, endNow, FinishFrame(s, endNow).metrics.skipped)
  }

  ghost function Remember(s: Scheduler, a: Action, h: seq<Finished>): seq<Finished>
    requires Ready(s)
  {
    if a.Finish? && s.timeline.active then h + [Recorded(s, a.endNow)] else h
  }

  ghost function SkippedIn(h: seq<Finished>): nat {
    if h == [] then 0 else SkippedIn(h[..|h| - 1]) + h[|h| - 1].skipped
  }

  ghost predicate Missed(f: Finished) { f.end > f.target + f.duration }

  ghost function MissesIn(h: seq<Finished>): nat {
    if h == [] then 0 else MissesIn(h[..|h| - 1]) + if Missed(h[|h| - 1]) then 1 else 0
  }

  // How many frames of an epoch, counted back from the last one, all missed their deadlines.
  ghost function Streak(h: seq<Finished>, epoch: nat): nat {
    if h == [] || h[|h| - 1].epoch != epoch || !Missed(h[|h| - 1]) then 0 else 1 + Streak(h[..|h| - 1], epoch)
  }

  // Frame numbers count finished and skipped frames.
  ghost predicate Numbered(h: seq<Finished>, next: nat) {
    && next == |h| + SkippedIn(h)
    && forall k :: 0 <= k < |h| ==> h[k].number == k + SkippedIn(h[..k])
  }

  // A target is a whole number of frame durations after its epoch's anchor.
  ghost predicate OnGrid(f: Finished) { f.duration > 0 && f.target == f.anchor + f.duration * f.index }

  // Within an epoch the anchor and the duration stay, and a later frame is past the earlier one and what it skipped.
  ghost predicate Follows(a: Finished, b: Finished) {
    && a.epoch <= b.epoch
    && (a.epoch == b.epoch ==> a.anchor == b.anchor && a.duration == b.duration && a.index + 1 + a.skipped <= b.index)
  }

  ghost predicate Leads(f: Finished, t: Timeline) {
    && f.epoch <= t.epoch
    && (f.epoch == t.epoch ==> f.anchor == t.anchor && f.duration == t.duration && f.index + 1 + f.skipped <= t.frame)
  }

  ghost predicate Grid(h: seq<Finished>, t: Timeline) {
    && (forall k :: 0 <= k < |h| ==> OnGrid(h[k]) && Leads(h[k], t))
    && (forall j, k :: 0 <= j < k < |h| ==> Follows(h[j], h[k]))
  }

  // Where the epoch stands: at its anchor, or just past its last frame and what that skipped.
  ghost predicate NextUp(h: seq<Finished>, t: Timeline) {
    t.frame == if h != [] && h[|h| - 1].epoch == t.epoch then h[|h| - 1].index + 1 + h[|h| - 1].skipped else 0
  }

  // A frame takes the place next up after the frames before it.
  ghost predicate Placed(h: seq<Finished>, k: nat)
    requires k < |h|
  {
    h[k].index == if 0 < k && h[k - 1].epoch == h[k].epoch then h[k - 1].index + 1 + h[k - 1].skipped else 0
  }

  ghost predicate Gapless(h: seq<Finished>, t: Timeline) {
    NextUp(h, t) && forall k :: 0 <= k < |h| ==> Placed(h, k)
  }

  // Every skip was the least that kept the next frame within the allowed lateness.
  ghost predicate LeastSkip(f: Finished, allowed: nat) {
    f.duration > 0 &&
    forall k: nat :: f.end <= f.target + f.duration + f.duration * k + f.duration * allowed <==> f.skipped <= k
  }

  ghost predicate Timely(s: Scheduler) {
    && (s.timeline.initialized ==> s.timeline.duration > 0)
    && (s.timeline.active ==> s.timeline.initialized && s.context == ContextOf(s.timeline, s.context.discontinuity))
    && (!s.timeline.initialized ==> s.timeline.epoch == 0)
  }

  ghost predicate Tallied(s: Scheduler, h: seq<Finished>) {
    && s.totals.skipped == SkippedIn(h)
    && s.totals.misses == MissesIn(h)
    && s.totals.overload == s.timeline.duration * Streak(h, s.timeline.epoch)
  }

  // The largest render time and lateness and the smallest margin so far, each with a frame that had it.
  ghost predicate Extreme(e: Extremes, h: seq<Finished>) {
    && (e.marginObserved <==> h != [])
    && (forall k :: 0 <= k < |h| ==> e.renderMax >= h[k].end - h[k].start && e.latenessMax >= h[k].start - h[k].target
                                     && e.marginMin <= h[k].target + h[k].duration - h[k].end)
    && (e.renderMax > 0 ==>
          exists k :: 0 <= k < |h| && h[k].number == e.renderMaxFrame && e.renderMax == h[k].end - h[k].start)
    && (e.latenessMax > 0 ==>
          exists k :: 0 <= k < |h| && h[k].number == e.latenessMaxFrame && e.latenessMax == h[k].start - h[k].target)
    && (h != [] ==> exists k :: 0 <= k < |h| && h[k].number == e.marginMinFrame
                                && e.marginMin == h[k].target + h[k].duration - h[k].end)
    && e.renderMax >= 0 && e.latenessMax >= 0
  }

  ghost predicate Inv(s: Scheduler, h: seq<Finished>) {
    && Timely(s) && Numbered(h, s.timeline.nextNumber) && Grid(h, s.timeline) && Gapless(h, s.timeline)
    && Tallied(s, h)
    && Extreme(s.extremes, h)
    && (forall k :: 0 <= k < |h| ==> LeastSkip(h[k], s.allowed))
  }

  lemma BeginKeepsTimely(s: Scheduler, rate: Rate, anchorNow: int, startNow: int)
    requires Timely(s) && rate.Fits()
    ensures Timely(BeginFrame(s, rate, anchorNow, startNow))
  {
    if CanBegin(s, rate) && Restarts(s.timeline, rate) {
      DurationIsExact(rate);
    }
  }

  lemma BeginKeepsGrid(s: Scheduler, rate: Rate, anchorNow: int, startNow: int, h: seq<Finished>)
    requires Grid(h, s.timeline) && rate.Fits()
    ensures Grid(h, BeginFrame(s, rate, anchorNow, startNow).timeline)
  {
    var t := BeginFrame(s, rate, anchorNow, startNow).timeline;
    forall k | 0 <= k < |h| ensures Leads(h[k], t) {
      assert Leads(h[k], s.timeline);
    }
  }

  lemma BeginKeepsGapless(s: Scheduler, rate: Rate, anchorNow: int, startNow: int, h: seq<Finished>)
    requires Grid(h, s.timeline) && Gapless(h, s.timeline) && rate.Fits()
    ensures Gapless(h, BeginFrame(s, rate, anchorNow, startNow).timeline)
  {
    if h != [] {
      assert Leads(h[|h| - 1], s.timeline);
    }
  }

  lemma FinishKeepsGapless(h: seq<Finished>, f: Finished, t: Timeline, after: Timeline)
    requires Gapless(h, t) && f.epoch == t.epoch && f.index == t.frame
    requires after.epoch == t.epoch && after.frame == t.frame + 1 + f.skipped
    ensures Gapless(h + [f], after)
  {
    forall k | 0 <= k < |h + [f]| ensures Placed(h + [f], k) {
      assert k < |h| ==> Placed(h, k);
    }
  }

  lemma NoStreakInNewEpoch(h: seq<Finished>, t: Timeline)
    requires Grid(h, t)
    ensures Streak(h, t.epoch + 1) == 0
  {
    if h != [] {
      assert Leads(h[|h| - 1], t);
    }
  }

  lemma BeginKeepsTallied(s: Scheduler, rate: Rate, anchorNow: int, startNow: int, h: seq<Finished>)
    requires Tallied(s, h) && Grid(h, s.timeline) && rate.Fits()
    ensures Tallied(BeginFrame(s, rate, anchorNow, startNow), h)
  {
    NoStreakInNewEpoch(h, s.timeline);
  }

  lemma HistoryGrows(h: seq<Finished>, f: Finished)
    ensures SkippedIn(h + [f]) == SkippedIn(h) + f.skipped
    ensures MissesIn(h + [f]) == MissesIn(h) + if Missed(f) then 1 else 0
    ensures Streak(h + [f], f.epoch) == if Missed(f) then 1 + Streak(h, f.epoch) else 0
  {
    assert (h + [f])[..|h|] == h;
  }

  lemma FinishKeepsNumbered(h: seq<Finished>, f: Finished, next: nat)
    requires Numbered(h, next) && f.number == next
    ensures Numbered(h + [f], next + 1 + f.skipped)
  {
    HistoryGrows(h, f);
    var g := h + [f];
    forall k | 0 <= k < |g| ensures g[k].number == k + SkippedIn(g[..k]) {
      assert g[..k] == if k < |h| then h[..k] else h;
    }
  }

  lemma FinishKeepsGrid(h: seq<Finished>, f: Finished, t: Timeline, after: Timeline)
    requires Grid(h, t) && OnGrid(f)
    requires f.epoch == t.epoch && f.anchor == t.anchor && f.duration == t.duration && f.index == t.frame
    requires after.epoch == t.epoch && after.anchor == t.anchor && after.duration == t.duration
    requires after.frame == t.frame + 1 + f.skipped
    ensures Grid(h + [f], after)
  {
    var g := h + [f];
    forall k | 0 <= k < |g| ensures OnGrid(g[k]) && Leads(g[k], after) {
      if k < |h| { assert OnGrid(h[k]) && Leads(h[k], t); }
    }
    forall j, k | 0 <= j < k < |g| ensures Follows(g[j], g[k]) {
      if k < |h| { assert Follows(h[j], h[k]); } else { assert Leads(h[j], t); }
    }
  }

  lemma FinishKeepsExtreme(e: Extremes, c: Context, h: seq<Finished>, f: Finished)
    requires Extreme(e, h) && f.number == c.number
    ensures Extreme(Observe(e, c, f.end - f.start, Max(f.start - f.target, 0), f.target + f.duration - f.end), h + [f])
  {
    var g := h + [f];
    assert g[|h|] == f;
    assert forall k :: 0 <= k < |h| ==> g[k] == h[k];
    var n := Observe(e, c, f.end - f.start, Max(f.start - f.target, 0), f.target + f.duration - f.end);
    if n.renderMax > 0 && n.renderMax == e.renderMax && n.renderMaxFrame == e.renderMaxFrame {
      var k :| 0 <= k < |h| && h[k].number == e.renderMaxFrame && e.renderMax == h[k].end - h[k].start;
      assert g[k] == h[k];
    }
    if n.latenessMax > 0 && n.latenessMax == e.latenessMax && n.latenessMaxFrame == e.latenessMaxFrame {
      var k :| 0 <= k < |h| && h[k].number == e.latenessMaxFrame && e.latenessMax == h[k].start - h[k].target;
      assert g[k] == h[k];
    }
    if h != [] && n.marginMin == e.marginMin && n.marginMinFrame == e.marginMinFrame {
      var k :| 0 <= k < |h| && h[k].number == e.marginMinFrame
               && e.marginMin == h[k].target + h[k].duration - h[k].end;
      assert g[k] == h[k];
    }
  }

  lemma FinishSkipsLeast(s: Scheduler, endNow: int)
    requires Timely(s) && s.timeline.active
    ensures LeastSkip(Recorded(s, endNow), s.allowed)
  {
    var t, f := s.timeline, Recorded(s, endNow);
    var next := t.anchor + t.duration * (t.frame + 1);
    assert next == f.target + f.duration;
    forall k: nat
      ensures f.end <= f.target + f.duration + f.duration * k + f.duration * s.allowed <==> f.skipped <= k
    {
      FramesToSkipIsLeast(endNow, next, t.duration, s.allowed, k);
    }
  }

  lemma FinishKeepsTallied(s: Scheduler, endNow: int, h: seq<Finished>)
    requires Timely(s) && s.timeline.active && Tallied(s, h)
    ensures Tallied(FinishFrame(s, endNow), h + [Recorded(s, endNow)])
  {
    var f := Recorded(s, endNow);
    HistoryGrows(h, f);
    var d, n := s.timeline.duration, Streak(h, f.epoch);
    assert d * (1 + n) == d + d * n;
    assert Missed(f) <==> s.context.deadline - endNow < 0;
  }

  lemma FinishNumbersAndPlaces(s: Scheduler, endNow: int, h: seq<Finished>)
    requires Timely(s) && s.timeline.active
    requires Numbered(h, s.timeline.nextNumber) && Grid(h, s.timeline) && Gapless(h, s.timeline)
    ensures Numbered(h + [Recorded(s, endNow)], FinishFrame(s, endNow).timeline.nextNumber)
    ensures Grid(h + [Recorded(s, endNow)], FinishFrame(s, endNow).timeline)
    ensures Gapless(h + [Recorded(s, endNow)], FinishFrame(s, endNow).timeline)
  {
    var f, t := Recorded(s, endNow), s.timeline;
    FinishKeepsNumbered(h, f, t.nextNumber);
    assert f.target == f.anchor + f.duration * f.index;
    FinishKeepsGrid(h, f, t, FinishFrame(s, endNow).timeline);
    FinishKeepsGapless(h, f, t, FinishFrame(s, endNow).timeline);
  }

  lemma FinishObserves(s: Scheduler, endNow: int, h: seq<Finished>)
    requires Timely(s) && s.timeline.active && Extreme(s.extremes, h)
    ensures Extreme(FinishFrame(s, endNow).extremes, h + [Recorded(s, endNow)])
  {
    FinishKeepsExtreme(s.extremes, s.context, h, Recorded(s, endNow));
  }

  lemma FinishKeepsInv(s: Scheduler, endNow: int, h: seq<Finished>)
    requires Inv(s, h) && s.timeline.active
    ensures Inv(FinishFrame(s, endNow), h + [Recorded(s, endNow)])
  {
    FinishNumbersAndPlaces(s, endNow, h);
    FinishObserves(s, endNow, h);
    FinishSkipsLeast(s, endNow);
    FinishKeepsTallied(s, endNow, h);
    assert Timely(FinishFrame(s, endNow));
  }

  lemma StepKeepsInv(s: Scheduler, a: Action, h: seq<Finished>)
    requires Inv(s, h) && Allowed(a)
    ensures Inv(Step(s, a), Remember(s, a, h))
  {
    match a
    case Begin(rate, anchorNow, startNow) =>
      BeginKeepsTimely(s, rate, anchorNow, startNow);
      BeginKeepsGrid(s, rate, anchorNow, startNow, h);
      BeginKeepsGapless(s, rate, anchorNow, startNow, h);
      BeginKeepsTallied(s, rate, anchorNow, startNow, h);
    case Finish(endNow) =>
      if s.timeline.active {
        FinishKeepsInv(s, endNow, h);
      }
  }

  ghost predicate LastStep(run: seq<Action>, before: Scheduler, past: seq<Finished>, s: Scheduler, h: seq<Finished>)
    requires run != []
  {
    var a := run[|run| - 1];
    Allowed(a) && Ready(before) && s == Step(before, a) && h == Remember(before, a, past)
  }

  // The scheduler and the frames finished so far, after a run of calls in any order and at any clock readings.
  ghost predicate Reaches(allowed: nat, run: seq<Action>, s: Scheduler, h: seq<Finished>)
    decreases |run|
  {
    if run == [] then s == Init(allowed) && h == []
    else
      exists before, past :: Reaches(allowed, run[..|run| - 1], before, past) && LastStep(run, before, past, s, h)
  }

  lemma {:induction false} RunsKeepInv(allowed: nat, run: seq<Action>, s: Scheduler, h: seq<Finished>)
    requires Reaches(allowed, run, s, h)
    ensures Inv(s, h) && s.allowed == allowed
    decreases |run|
  {
    if run != [] {
      var before, past :| Reaches(allowed, run[..|run| - 1], before, past) && LastStep(run, before, past, s, h);
      RunsKeepInv(allowed, run[..|run| - 1], before, past);
      StepKeepsInv(before, run[|run| - 1], past);
    }
  }

  // Any two frames of an epoch lie on one grid, in order and never on the same point. An epoch starts at its anchor,
  // and from a frame to the next the place on the grid and the number advance by one and by what the frame skipped.
  lemma EveryRunStaysOnGrid(allowed: nat, run: seq<Action>, s: Scheduler, h: seq<Finished>, j: nat, k: nat)
    requires Reaches(allowed, run, s, h) && j < k < |h|
    ensures OnGrid(h[j]) && OnGrid(h[k]) && LeastSkip(h[j], allowed)
    ensures h[j].epoch <= h[k].epoch && h[j].number < h[k].number
    ensures h[j].epoch == h[k].epoch ==> h[j].anchor == h[k].anchor && h[j].duration == h[k].duration
                                         && h[j].index < h[k].index && h[j].target < h[k].target
    ensures h[0].index == 0 && h[0].number == 0
    ensures k == j + 1 ==> h[k].number == h[j].number + 1 + h[j].skipped
                           && h[k].index == if h[j].epoch == h[k].epoch then h[j].index + 1 + h[j].skipped else 0
    ensures s.timeline.nextNumber == |h| + SkippedIn(h) == |h| + s.totals.skipped
  {
    RunsKeepInv(allowed, run, s, h);
    LaterIsPast(h, s.timeline, j, k);
    assert Placed(h, 0);
    if k == j + 1 {
      NextIsNext(h, s.timeline, j);
    }
  }

  lemma LaterIsPast(h: seq<Finished>, t: Timeline, j: nat, k: nat)
    requires Grid(h, t) && Numbered(h, t.nextNumber) && j < k < |h|
    ensures OnGrid(h[j]) && OnGrid(h[k]) && h[j].epoch <= h[k].epoch && h[j].number < h[k].number
    ensures h[j].epoch == h[k].epoch ==> h[j].anchor == h[k].anchor && h[j].duration == h[k].duration
                                         && h[j].index < h[k].index && h[j].target < h[k].target
  {
    assert Follows(h[j], h[k]);
    SkippedGrows(h, j, k);
    if h[j].epoch == h[k].epoch {
      MultipleSteps(h[j].duration, h[j].index, h[k].index);
    }
  }

  lemma NextIsNext(h: seq<Finished>, t: Timeline, j: nat)
    requires Gapless(h, t) && Numbered(h, t.nextNumber) && j + 1 < |h|
    ensures h[j + 1].number == h[j].number + 1 + h[j].skipped
    ensures h[j + 1].index == if h[j].epoch == h[j + 1].epoch then h[j].index + 1 + h[j].skipped else 0
  {
    assert Placed(h, j + 1);
    assert h[..j + 1][..j] == h[..j];
  }

  lemma {:induction false} SkippedGrows(h: seq<Finished>, j: nat, k: nat)
    requires j <= k <= |h|
    ensures SkippedIn(h[..j]) <= SkippedIn(h[..k])
    decreases k
  {
    if j < k {
      assert h[..k][..k - 1] == h[..k - 1];
      SkippedGrows(h, j, k - 1);
    }
  }

  // Overload is reported as sustained exactly when the frames missed in a row in this epoch span a second.
  lemma EveryRunReportsOverload(allowed: nat, run: seq<Action>, s: Scheduler, h: seq<Finished>, endNow: int)
    requires Reaches(allowed, run, s, h) && s.timeline.active && s.timeline.duration > 0
    ensures var g := h + [Recorded(s, endNow)];
            FinishFrame(s, endNow).metrics.sustainedOverload
            <==> s.timeline.duration * Streak(g, s.timeline.epoch) >= FLICKS_PER_SECOND
  {
    RunsKeepInv(allowed, run, s, h);
    FinishKeepsTallied(s, endNow, h);
  }

  /** The scheduler as the object the source updates in place. */

  class FrameScheduler {
    const allowedLatenessFrames: nat
    var timeline: Timeline
    var extremes: Extremes
    var totals: Totals
    var context: Context
    var metrics: Metrics

    ghost function View(): Scheduler
      reads this
    {
      Scheduler(allowedLatenessFrames, timeline, extremes, totals, context, metrics)
    }

    constructor (allowedLatenessFrames: nat)
      ensures View() == Init(allowedLatenessFrames)
    {
      this.allowedLatenessFrames := allowedLatenessFrames;
      timeline := Timeline(Rate(60, 1), 0, 0, 0, 0, 0, false, false);
      extremes, totals, context, metrics := NO_EXTREMES, NO_TOTALS, NO_CONTEXT, NO_METRICS;
    }

    // The result says whether the frame began; the source throws when it did not.
    method Begin(rate: Rate, anchorNow: int, startNow: int) returns (begun: bool)
      requires rate.Fits()
      modifies this
      ensures begun == CanBegin(old(View()), rate)
      ensures View() == BeginFrame(old(View()), rate, anchorNow, startNow)
    {
      if timeline.active {
        return false;
      }
      var discontinuity := false;
      if !timeline.initialized || rate != timeline.rate {
        var duration := GetFrameDuration(rate);
        if duration.None? {
          return false;
        }
        timeline := timeline.(rate := rate, duration := duration.value, anchor := anchorNow, frame := 0,
                              initialized := true, epoch := timeline.epoch + 1);
        totals := totals.(overload := 0);
        discontinuity := true;
      }
      var offset := timeline.duration * timeline.frame;
      var target := timeline.anchor + offset;
      context := Context(timeline.nextNumber, timeline.epoch, offset, timeline.duration, target,
                         target + timeline.duration, discontinuity);
      metrics := NO_METRICS.(number := context.number, epoch := context.epoch, pts := context.pts,
                             renderStart := startNow);
      timeline := timeline.(active := true);
      return true;
    }

    method ObserveExtremes(duration: int, lateness: int, margin: int)
      modifies this`extremes
      ensures extremes == Observe(old(extremes), context, duration, lateness, margin)
    {
      if duration > extremes.renderMax {
        extremes := extremes.(renderMax := duration, renderMaxFrame := context.number);
      }
      if lateness > extremes.latenessMax {
        extremes := extremes.(latenessMax := lateness, latenessMaxFrame := context.number);
      }
      if !extremes.marginObserved || margin < extremes.marginMin {
        extremes := extremes.(marginMin := margin, marginMinFrame := context.number, marginObserved := true);
      }
    }

    method Finish(endNow: int) returns (finished: bool)
      requires timeline.active ==> timeline.duration > 0
      modifies this
      ensures finished == old(timeline.active)
      ensures View() == FinishFrame(old(View()), endNow)
    {
      if !timeline.active {
        return false;
      }
      var duration := endNow - metrics.renderStart;
      var lateness := Max(metrics.renderStart - context.target, 0);
      var margin := context.deadline - endNow;
      ObserveExtremes(duration, lateness, margin);
      if margin < 0 {
        totals := totals.(misses := totals.misses + 1, overload := totals.overload + timeline.duration);
      } else {
        totals := totals.(overload := 0);
      }
      var nextFrame := timeline.frame + 1;
      var skip := FramesToSkip(endNow, timeline.anchor + timeline.duration * nextFrame, timeline.duration,
                               allowedLatenessFrames);
      totals := totals.(skipped := totals.skipped + skip);
      metrics := metrics.(renderEnd := endNow, renderDuration := duration, startLateness := lateness,
                          deadlineMargin := margin, skipped := skip,
                          sustainedOverload := totals.overload >= FLICKS_PER_SECOND,
                          extremes := extremes, totals := totals);
      timeline := timeline.(frame := nextFrame + skip, nextNumber := timeline.nextNumber + 1 + skip, active := false);
      return true;
    }
  }
}
