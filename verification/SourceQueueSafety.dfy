/** What every run of the timed source queue keeps. */
module SourceQueueSafety {
  import opened Common
  import opened MediaClock
  import opened SourceQueue

  // ---------------------------------------------------------------- the invariant

  // The shared counter is the number of frames held, never above capacity, and every frame ever pushed is
  // accounted for exactly once.
  ghost predicate Counts(cfg: QueueConfig, q: Queue) {
    var t := q.tally;
    && q.queued == |q.pending| + |q.transit| + |q.frames| <= cfg.capacity
    && t.pushed == t.overflowDrops + t.selectionDrops + t.committed + t.retired + t.cleared + t.unmappable + q.queued
    && t.repeated == t.starvationRepeats + t.timingRepeats
  }

  ghost function ByTime(): (Aligned, Aligned) -> bool {
    (a: Aligned, b: Aligned) => a.programPts <= b.programPts
  }

  ghost function Differ(): (Aligned, Aligned) -> bool {
    (a: Aligned, b: Aligned) =>
      a.frame.id != b.frame.id && a.frame.sample.frameSequence != b.frame.sample.frameSequence
  }

  ghost function DifferentIds(): (Frame, Frame) -> bool {
    (a: Frame, b: Frame) => a.id != b.id
  }

  ghost predicate Shape(frames: seq<Aligned>) {
    Pairwise(frames, ByTime()) && Pairwise(frames, Differ())
  }

  // A frame on the clock's current time line, newer than the frame on show.
  ghost predicate OnTimeLine(clock: Clock, current: Option<Frame>, f: Frame) {
    && clock.streamEpoch == Some(f.sample.streamEpoch) && f.sample.frameSequence <= clock.frameSequence
    && (current.Some? ==> current.value.sample.frameSequence < f.sample.frameSequence)
  }

  ghost predicate TimeLine(q: Queue) {
    && (forall a :: a in q.frames ==> OnTimeLine(q.clock, q.current, a.frame))
    && (q.current.Some? ==> OnTimeLine(q.clock, None, q.current.value))
  }

  ghost predicate Known(q: Queue, f: Frame) {
    f.id in q.history.pushed && f.id in q.readiness
  }

  // Frames not yet aligned are new to everything behind them.
  ghost predicate Waiting(q: Queue, f: Frame) {
    && Known(q, f)
    && (forall a :: a in q.frames ==> a.frame.id != f.id)
    && (forall g :: g in q.history.issued ==> g.id != f.id)
  }

  ghost predicate Identity(q: Queue) {
    && Pairwise(q.transit + q.pending, DifferentIds())
    && (forall f :: f in q.transit ==> Waiting(q, f))
    && (forall f :: f in q.pending ==> Waiting(q, f))
    && (forall a :: a in q.frames ==> Known(q, a.frame))
    && (forall g :: g in q.history.issued ==> Known(q, g))
    && (forall a, g :: a in q.frames && g in q.history.issued && a.frame.id == g.id ==> a.frame == g)
  }

  // A frame once handed out stays the oldest of the frames still queued.
  ghost predicate Tickets(q: Queue) {
    forall a, b :: a in q.frames && b in q.frames && a.frame in q.history.issued ==>
      a.frame.sample.frameSequence <= b.frame.sample.frameSequence
  }

  ghost predicate CommitOrder(q: Queue) {
    var c := q.history.commits;
    && (forall i, j :: 0 <= i < j < |c| ==> c[i] < c[j])
    && (c == [] <==> q.current.None?)
    && (q.current.Some? ==> c[|c| - 1] == q.current.value.sample.frameSequence)
  }

  ghost predicate Ready2Align(cfg: QueueConfig, q: Queue) {
    ClockOk(cfg.clock, q.clock) && (q.transit != [] ==> q.origin.Some?)
  }

  ghost predicate Inv(cfg: QueueConfig, q: Queue) {
    && Counts(cfg, q) && Shape(q.frames) && TimeLine(q) && Identity(q) && Tickets(q) && CommitOrder(q)
    && Ready2Align(cfg, q)
  }

  lemma InitInv(cfg: QueueConfig)
    requires ValidQueueConfig(cfg)
    ensures Inv(cfg, Init())
  {
    assert MaximumDeviation(cfg.clock) > 0.0;
  }

  // ---------------------------------------------------------------- fewer aligned frames

  ghost predicate Fewer(q: Queue, t: Queue) {
    && t.pending == q.pending && t.transit == q.transit
    && t.readiness.Keys == q.readiness.Keys && t.history.pushed == q.history.pushed
    && Shape(t.frames) && forall a :: a in t.frames ==> a in q.frames
  }

  lemma FewerIdentity(q: Queue, t: Queue)
    requires Fewer(q, t) && Identity(q) && t.history.issued == q.history.issued
    ensures Identity(t)
  {
    forall f | f in t.transit ensures Waiting(t, f) { assert Waiting(q, f); }
    forall f | f in t.pending ensures Waiting(t, f) { assert Waiting(q, f); }
    forall a | a in t.frames ensures Known(t, a.frame) { assert Known(q, a.frame); }
    forall g | g in t.history.issued ensures Known(t, g) { assert Known(q, g); }
  }

  lemma FewerTimeLine(q: Queue, t: Queue)
    requires Fewer(q, t) && TimeLine(q) && t.current == q.current && t.clock == q.clock
    ensures TimeLine(t)
  {
  }

  // ---------------------------------------------------------------- producers

  lemma PushKeepsIdentity(cfg: QueueConfig, q: Queue, f: Frame, observed: int)
    requires Identity(q) && Enabled(cfg, q, PushFrame(f, observed))
    ensures Identity(Push(cfg, q, f, observed))
  {
    var t := Push(cfg, q, f, observed);
    forall g | g in q.transit || g in q.pending ensures Waiting(t, g) && g.id != f.id { assert Waiting(q, g); }
    forall a | a in t.frames ensures Known(t, a.frame) && a.frame.id != f.id { assert Known(q, a.frame); }
    forall g | g in t.history.issued ensures Known(t, g) && g.id != f.id { assert Known(q, g); }
    assert f in t.pending ==> Waiting(t, f);
    PushDiffers(q.transit, q.pending, f);
  }

  lemma PushDiffers(transit: seq<Frame>, pending: seq<Frame>, f: Frame)
    requires Pairwise(transit + pending, DifferentIds())
    requires forall g :: g in transit || g in pending ==> g.id != f.id
    ensures Pairwise(transit + (pending + [f]), DifferentIds())
    ensures pending != [] ==> Pairwise(transit + (pending[1..] + [f]), DifferentIds())
  {
    var all := transit + pending;
    var more := transit + (pending + [f]);
    assert forall i :: 0 <= i < |all| ==> more[i] == all[i] && (all[i] in transit || all[i] in pending);
    if pending != [] {
      var less := transit + (pending[1..] + [f]);
      assert forall i :: 0 <= i < |less| ==> less[i] == more[if i < |transit| then i else i + 1];
    }
  }

  lemma PushKeepsInv(cfg: QueueConfig, q: Queue, f: Frame, observed: int)
    requires Inv(cfg, q) && Enabled(cfg, q, PushFrame(f, observed))
    ensures Inv(cfg, Push(cfg, q, f, observed))
  {
    PushKeepsIdentity(cfg, q, f, observed);
  }

  lemma MarksKeepInv(cfg: QueueConfig, q: Queue, t: Queue)
    requires Inv(cfg, q) && t == q.(readiness := t.readiness) && q.readiness.Keys <= t.readiness.Keys
    ensures Inv(cfg, t)
  {
    forall f | f in t.transit ensures Waiting(t, f) { assert Waiting(q, f); }
    forall f | f in t.pending ensures Waiting(t, f) { assert Waiting(q, f); }
    forall a | a in t.frames ensures Known(t, a.frame) { assert Known(q, a.frame); }
    forall g | g in t.history.issued ensures Known(t, g) { assert Known(q, g); }
  }

  // ---------------------------------------------------------------- clearing

  lemma ClearKeepsInv(cfg: QueueConfig, q: Queue, resetClock: bool)
    requires ValidQueueConfig(cfg) && ClockOk(cfg.clock, q.clock)
    requires Counts(cfg, q) && Identity(q)
    ensures var t := ClearForDiscontinuity(q, resetClock);
            && Counts(cfg, t) && Shape(t.frames) && TimeLine(t) && Identity(t) && Tickets(t) && CommitOrder(t)
            && ClockOk(cfg.clock, t.clock)
  {
    var t := ClearForDiscontinuity(q, resetClock);
    assert MaximumDeviation(cfg.clock) > 0.0;
    FewerIdentity(q, t);
  }

  lemma ResetPendingKeepsInv(cfg: QueueConfig, q: Queue)
    requires Inv(cfg, q) && q.transit == []
    ensures Inv(cfg, ResetPending(q))
  {
    var t := ResetPending(q);
    forall a | a in t.frames ensures Known(t, a.frame) { assert Known(q, a.frame); }
    forall g | g in t.history.issued ensures Known(t, g) { assert Known(q, g); }
  }

  // ---------------------------------------------------------------- alignment

  lemma TakePendingKeepsIdentity(q: Queue, pts: int, target: int)
    requires Identity(q) && q.transit == []
    ensures Identity(TakePending(q, pts, target))
  {
    var t := TakePending(q, pts, target);
    assert t.transit + t.pending == q.transit + q.pending;
    forall f | f in t.transit ensures Waiting(t, f) { assert Waiting(q, f); }
    forall a | a in t.frames ensures Known(t, a.frame) { assert Known(q, a.frame); }
    forall g | g in t.history.issued ensures Known(t, g) { assert Known(q, g); }
  }

  lemma BeginAdvanceKeepsInv(cfg: QueueConfig, q: Queue, pts: int, target: int, programDiscontinuity: bool)
    requires ValidQueueConfig(cfg) && Inv(cfg, q) && q.transit == []
    ensures Inv(cfg, BeginAdvance(q, pts, target, programDiscontinuity))
  {
    var taken := TakePending(q, pts, target);
    TakePendingKeepsIdentity(q, pts, target);
    if programDiscontinuity {
      ClearKeepsInv(cfg, taken, true);
      SameButOrigin(cfg, ClearForDiscontinuity(taken, true), BeginAdvance(q, pts, target, programDiscontinuity));
    } else {
      SameButOrigin(cfg, taken, BeginAdvance(q, pts, target, programDiscontinuity));
    }
  }

  lemma SameButOrigin(cfg: QueueConfig, q: Queue, t: Queue)
    requires t == q.(origin := t.origin) && (t.transit != [] ==> t.origin.Some?)
    requires Counts(cfg, q) && Shape(q.frames) && TimeLine(q) && Identity(q) && Tickets(q) && CommitOrder(q)
    requires ClockOk(cfg.clock, q.clock)
    ensures Inv(cfg, t)
  {
    forall f | f in t.transit ensures Waiting(t, f) { assert Waiting(q, f); }
    forall f | f in t.pending ensures Waiting(t, f) { assert Waiting(q, f); }
    forall a | a in t.frames ensures Known(t, a.frame) { assert Known(q, a.frame); }
    forall g | g in t.history.issued ensures Known(t, g) { assert Known(q, g); }
  }

  // What holds between the clock's look at a frame and the frame's insertion.
  ghost predicate ReadyFor(cfg: QueueConfig, o: Queue, f: Frame) {
    && Counts(cfg, o) && Shape(o.frames) && TimeLine(o) && Identity(o) && Tickets(o) && CommitOrder(o)
    && ClockOk(cfg.clock, o.clock) && o.origin.Some?
    && o.clock.streamEpoch == Some(f.sample.streamEpoch) && o.clock.frameSequence == f.sample.frameSequence
    && (forall a :: a in o.frames ==> a.frame.sample.frameSequence < f.sample.frameSequence)
    && (o.current.Some? ==> o.current.value.sample.frameSequence < f.sample.frameSequence)
  }

  lemma BrokenTimeLine(cfg: QueueConfig, q: Queue, f: Frame, time: int, phase: int)
    requires ValidQueueConfig(cfg) && Counts(cfg, q) && Identity(q)
    ensures var clock := Observe(cfg.clock, RESET, f.sample, time).0;
            ReadyFor(cfg, ClearForDiscontinuity(q.(clock := clock, origin := Some(phase)), false), f)
  {
    var clock := Observe(cfg.clock, RESET, f.sample, time).0;
    RestartedClockOk(cfg.clock, f.sample, time);
    var moved := q.(clock := clock, origin := Some(phase));
    ClockMoved(q, moved);
    ClearKeepsInv(cfg, moved, false);
  }

  lemma ClockMoved(q: Queue, t: Queue)
    requires Identity(q) && t == q.(clock := t.clock, origin := t.origin)
    ensures Identity(t)
  {
    forall f | f in t.transit ensures Waiting(t, f) { assert Waiting(q, f); }
    forall f | f in t.pending ensures Waiting(t, f) { assert Waiting(q, f); }
    forall a | a in t.frames ensures Known(t, a.frame) { assert Known(q, a.frame); }
    forall g | g in t.history.issued ensures Known(t, g) { assert Known(q, g); }
  }

  // What the clock makes of the next frame in an advance.
  ghost function NextObservation(cfg: QueueConfig, q: Queue): (Clock, Observation)
    requires q.transit != [] && q.origin.Some? && ValidQueueConfig(cfg) && ClockOk(cfg.clock, q.clock)
  {
    var f := q.transit[0];
    Observe(cfg.clock, q.clock, f.sample, q.alignPts + (f.arrival - q.alignTarget) - q.origin.value)
  }

  lemma ObserveNextBroken(cfg: QueueConfig, q: Queue)
    requires ValidQueueConfig(cfg) && Inv(cfg, q) && q.transit != [] && NextObservation(cfg, q).1 == Discontinuity
    ensures ReadyFor(cfg, ObserveNext(cfg, q), q.transit[0])
  {
    var f := q.transit[0];
    var offset := f.arrival - q.alignTarget;
    var phase := ArrivalPhase(offset, f.sample.frameDuration);
    BrokenTimeLine(cfg, q, f, q.alignPts + offset - phase, phase);
  }

  lemma ObserveNextContinues(cfg: QueueConfig, q: Queue)
    requires ValidQueueConfig(cfg) && Inv(cfg, q) && q.transit != [] && NextObservation(cfg, q).1 != Discontinuity
    ensures ReadyFor(cfg, ObserveNext(cfg, q), q.transit[0])
  {
    var f := q.transit[0];
    var time := q.alignPts + (f.arrival - q.alignTarget) - q.origin.value;
    ObserveKeepsClockOk(cfg.clock, q.clock, f.sample, time);
    UpdateContinues(cfg.clock, q.clock, f.sample, time);
    SameTimeLine(cfg, q, f, NextObservation(cfg, q).0);
  }

  lemma SameTimeLine(cfg: QueueConfig, q: Queue, f: Frame, clock: Clock)
    requires Inv(cfg, q) && q.transit != [] && f == q.transit[0] && ClockOk(cfg.clock, clock)
    requires clock.streamEpoch == Some(f.sample.streamEpoch) && clock.frameSequence == f.sample.frameSequence
    requires q.clock.streamEpoch.Some? ==>
               q.clock.streamEpoch == clock.streamEpoch && q.clock.frameSequence < f.sample.frameSequence
    ensures ReadyFor(cfg, q.(clock := clock), f)
  {
    ClockMoved(q, q.(clock := clock));
    ContinuesTimeLine(q, clock, f.sample);
  }

  lemma RestartedClockOk(cfg: Config, sample: Sample, time: int)
    requires ValidConfig(cfg)
    ensures ClockOk(cfg, Observe(cfg, RESET, sample, time).0)
  {
    assert MaximumDeviation(cfg) > 0.0;
  }

  lemma ContinuesTimeLine(q: Queue, clock: Clock, sample: Sample)
    requires TimeLine(q) && clock.streamEpoch == Some(sample.streamEpoch) && clock.frameSequence == sample.frameSequence
    requires q.clock.streamEpoch.Some? ==>
               q.clock.streamEpoch == clock.streamEpoch && q.clock.frameSequence < sample.frameSequence
    ensures TimeLine(q.(clock := clock))
    ensures forall a :: a in q.frames ==> a.frame.sample.frameSequence < sample.frameSequence
    ensures q.current.Some? ==> q.current.value.sample.frameSequence < sample.frameSequence
  {
    forall a | a in q.frames ensures OnTimeLine(clock, q.current, a.frame) {
      assert OnTimeLine(q.clock, q.current, a.frame);
    }
  }

  lemma InsertKeepsShape(frames: seq<Aligned>, f: Frame, pts: int)
    requires Shape(frames)
    requires forall a :: a in frames ==> a.frame.id != f.id && a.frame.sample.frameSequence < f.sample.frameSequence
    ensures var t := Insert(frames, DueCount(frames, pts), Aligned(f, pts));
            Shape(t) && forall a :: a in t <==> a == Aligned(f, pts) || a in frames
  {
    var k := DueCount(frames, pts);
    forall j | k <= j < |frames| ensures pts <= frames[j].programPts {
      assert ByTime()(frames[k], frames[j]) || j == k;
    }
    InsertPairwise(frames, k, Aligned(f, pts), ByTime());
    InsertPairwise(frames, k, Aligned(f, pts), Differ());
  }

  // The frame leaves `transit`: everything still waiting differs from it.
  lemma LeaveTransit(o: Queue, t: Queue)
    requires Identity(o) && o.transit != []
    requires t.transit == o.transit[1..] && t.pending == o.pending && t.history == o.history
    requires t.readiness == o.readiness
    requires forall a :: a in t.frames ==> a in o.frames || a.frame == o.transit[0]
    ensures Identity(t)
  {
    var f := o.transit[0];
    var all, rest := o.transit + o.pending, t.transit + t.pending;
    assert Waiting(o, f);
    assert forall i :: 0 <= i < |rest| ==> rest[i] == all[i + 1];
    assert all[0] == f;
    forall g | g in t.transit || g in t.pending ensures Waiting(t, g) {
      assert g in rest && g.id != f.id;
      assert g in o.transit || g in o.pending;
      assert Waiting(o, g);
    }
    forall a | a in t.frames ensures Known(t, a.frame) {
      assert a in o.frames ==> Known(o, a.frame);
    }
    forall g | g in t.history.issued ensures Known(t, g) { assert Known(o, g); }
  }

  lemma DropNextKeepsInv(cfg: QueueConfig, o: Queue)
    requires o.transit != [] && ReadyFor(cfg, o, o.transit[0]) && MapPts(o.clock, o.transit[0].sample.mediaPts).None?
    ensures Inv(cfg, PlaceNext(cfg, o))
  {
    LeaveTransit(o, PlaceNext(cfg, o));
  }

  lemma InsertNextKeepsInv(cfg: QueueConfig, o: Queue, t: Queue, pts: int)
    requires o.transit != [] && ReadyFor(cfg, o, o.transit[0])
    requires t == o.(transit := o.transit[1..],
                     frames := Insert(o.frames, DueCount(o.frames, pts), Aligned(o.transit[0], pts)))
    ensures Inv(cfg, t)
  {
    var f := o.transit[0];
    assert Waiting(o, f);
    InsertKeepsShape(o.frames, f, pts);
    InsertedIsNewest(o, t, f, pts);
    LeaveTransit(o, t);
    InsertNextCounts(cfg, o, t, pts);
  }

  lemma InsertNextCounts(cfg: QueueConfig, o: Queue, t: Queue, pts: int)
    requires o.transit != [] && Counts(cfg, o)
    requires t == o.(transit := o.transit[1..],
                     frames := Insert(o.frames, DueCount(o.frames, pts), Aligned(o.transit[0], pts)))
    ensures Counts(cfg, t)
  {
    assert |t.frames| == |o.frames| + 1;
  }

  lemma AlignNextKeepsInv(cfg: QueueConfig, q: Queue)
    requires ValidQueueConfig(cfg) && Inv(cfg, q) && q.transit != []
    ensures Inv(cfg, AlignNext(cfg, q))
  {
    if NextObservation(cfg, q).1 == Discontinuity {
      ObserveNextBroken(cfg, q);
    } else {
      ObserveNextContinues(cfg, q);
    }
    var o := ObserveNext(cfg, q);
    if MapPts(o.clock, o.transit[0].sample.mediaPts).None? {
      DropNextKeepsInv(cfg, o);
    } else {
      var f := o.transit[0];
      InsertNextKeepsInv(cfg, o, PlaceNext(cfg, o),
        MapPts(o.clock, f.sample.mediaPts).value + cfg.playoutDelay + f.sample.frameDuration * cfg.playoutDelayFrames);
    }
  }

  lemma InsertedIsNewest(o: Queue, t: Queue, f: Frame, pts: int)
    requires TimeLine(o) && Tickets(o) && t.history == o.history && t.current == o.current && t.clock == o.clock
    requires forall a :: a in t.frames <==> a == Aligned(f, pts) || a in o.frames
    requires o.clock.streamEpoch == Some(f.sample.streamEpoch) && o.clock.frameSequence == f.sample.frameSequence
    requires forall a :: a in o.frames ==> a.frame.sample.frameSequence < f.sample.frameSequence
    requires o.current.Some? ==> o.current.value.sample.frameSequence < f.sample.frameSequence
    requires f !in o.history.issued
    ensures TimeLine(t) && Tickets(t)
  {
  }

  // ---------------------------------------------------------------- selection

  lemma SelectNewKeepsInv(cfg: QueueConfig, q: Queue, t: Queue, chosen: Frame)
    requires Inv(cfg, q) && q.transit == [] && (exists a :: a in q.frames && a.frame == chosen)
    requires t.frames == Filter(q.frames, NotOlderThan(chosen))
    requires t.pending == q.pending && t.transit == q.transit && t.clock == q.clock && t.current == q.current
    requires t.readiness.Keys == q.readiness.Keys && t.history == q.history.(issued := q.history.issued + {chosen})
    ensures Shape(t.frames) && TimeLine(t) && Identity(t) && Tickets(t) && CommitOrder(t) && Ready2Align(cfg, t)
  {
    FilterPairwise(q.frames, NotOlderThan(chosen), ByTime());
    FilterPairwise(q.frames, NotOlderThan(chosen), Differ());
    FewerTimeLine(q, t);
    SelectedIdentity(q, t, chosen);
    SelectedTickets(q, t, chosen);
  }

  lemma SelectCounts(cfg: QueueConfig, q: Queue, pts: int, tolerance: int)
    requires Counts(cfg, q)
    ensures Counts(cfg, Select(cfg, q, pts, tolerance).0)
  {
  }

  lemma SelectKeepsInv(cfg: QueueConfig, q: Queue, pts: int, tolerance: int)
    requires Inv(cfg, q) && q.transit == []
    ensures Inv(cfg, Select(cfg, q, pts, tolerance).0)
  {
    var t := Select(cfg, q, pts, tolerance).0;
    SelectCounts(cfg, q, pts, tolerance);
    match Chosen(cfg, q, pts, tolerance) {
      case None =>
        FewerIdentity(q, t);
      case Some(chosen) =>
        ChosenIsQueued(cfg, q, pts, tolerance);
        SelectNewKeepsInv(cfg, q, t, chosen);
    }
  }

  lemma NewestOfAligned(due: seq<Aligned>)
    requires due != []
    ensures exists a :: a in due && a.frame == Newest(JustFrames(due))
    ensures forall a :: a in due ==> !Later(a.frame.sample, Newest(JustFrames(due)).sample)
  {
    var frames := JustFrames(due);
    var i :| 0 <= i < |frames| && frames[i] == Newest(frames);
    assert due[i] in due;
    forall a | a in due ensures !Later(a.frame.sample, Newest(frames).sample) {
      var k :| 0 <= k < |due| && due[k] == a;
      assert frames[k] in frames;
    }
  }

  lemma ChosenIsQueued(cfg: QueueConfig, q: Queue, pts: int, tolerance: int)
    requires Chosen(cfg, q, pts, tolerance).Some?
    ensures exists a :: a in q.frames && a.frame == Chosen(cfg, q, pts, tolerance).value
  {
    NewestOfAligned(q.frames[..DueCount(q.frames, pts + cfg.earlyTolerance + tolerance)]);
  }

  ghost predicate IsDue(q: Queue, limit: int, a: Aligned) {
    a in q.frames && a.programPts <= limit
  }

  // A selection picks no new frame exactly when no queued frame is due.
  lemma SelectFindsDue(cfg: QueueConfig, q: Queue, pts: int, tolerance: int)
    requires Shape(q.frames)
    ensures Chosen(cfg, q, pts, tolerance).None? <==>
              forall a :: a in q.frames ==> !IsDue(q, pts + cfg.earlyTolerance + tolerance, a)
  {
    var limit := pts + cfg.earlyTolerance + tolerance;
    var due := q.frames[..DueCount(q.frames, limit)];
    DueIsPrefix(q.frames, limit);
    if due != [] {
      assert due[0] in due;
      assert IsDue(q, limit, due[0]);
    } else {
      assert forall a :: a in q.frames && a.programPts <= limit ==> a in due;
    }
  }

  // The frame a selection picks is due, and every other due frame is older.
  lemma SelectPicksNewestDue(cfg: QueueConfig, q: Queue, pts: int, tolerance: int) returns (own: Aligned)
    requires Shape(q.frames) && TimeLine(q) && Chosen(cfg, q, pts, tolerance).Some?
    ensures var limit := pts + cfg.earlyTolerance + tolerance;
            && IsDue(q, limit, own) && Chosen(cfg, q, pts, tolerance) == Some(own.frame)
            && (forall a :: IsDue(q, limit, a) && a.frame != own.frame ==>
                 a.frame.sample.frameSequence < own.frame.sample.frameSequence)
  {
    var limit := pts + cfg.earlyTolerance + tolerance;
    var due := q.frames[..DueCount(q.frames, limit)];
    DueIsPrefix(q.frames, limit);
    NewestOfAligned(due);
    own :| own in due && own.frame == Newest(JustFrames(due));
    NewestDueIsLatest(q, own.frame, limit);
  }

  lemma DueIsPrefix(frames: seq<Aligned>, limit: int)
    requires Shape(frames)
    ensures forall a :: a in frames[..DueCount(frames, limit)] <==> a in frames && a.programPts <= limit
  {
    var k := DueCount(frames, limit);
    forall i | k <= i < |frames| ensures frames[i].programPts > limit {
      assert i == k || ByTime()(frames[k], frames[i]);
    }
    forall a | a in frames && a.programPts <= limit ensures a in frames[..k] {
      var i :| 0 <= i < |frames| && frames[i] == a;
      assert frames[..k][i] == a;
    }
  }

  lemma NewestDueIsLatest(q: Queue, chosen: Frame, limit: int)
    requires Shape(q.frames) && TimeLine(q) && (exists a :: a in q.frames && a.frame == chosen)
    requires forall a :: a in q.frames && a.programPts <= limit ==> !Later(a.frame.sample, chosen.sample)
    ensures forall a :: a in q.frames && a.programPts <= limit && a.frame != chosen ==>
              a.frame.sample.frameSequence < chosen.sample.frameSequence
  {
    var i :| 0 <= i < |q.frames| && q.frames[i].frame == chosen;
    assert OnTimeLine(q.clock, q.current, q.frames[i].frame);
    forall a | a in q.frames && a.programPts <= limit && a.frame != chosen
      ensures a.frame.sample.frameSequence < chosen.sample.frameSequence {
      var j :| 0 <= j < |q.frames| && q.frames[j] == a;
      assert OnTimeLine(q.clock, q.current, a.frame);
      assert if i < j then Differ()(q.frames[i], q.frames[j]) else Differ()(q.frames[j], q.frames[i]);
    }
  }

  lemma SelectedIdentity(q: Queue, t: Queue, chosen: Frame)
    requires Fewer(q, t) && Identity(q) && q.transit == []
    requires t.history.issued == q.history.issued + {chosen} && exists a :: a in q.frames && a.frame == chosen
    requires Shape(q.frames)
    ensures Identity(t)
  {
    forall a | a in q.frames && a.frame.id == chosen.id ensures a.frame == chosen {
      SameIdSameFrame(q.frames, a, chosen);
    }
    forall f | f in t.pending ensures Waiting(t, f) { assert Waiting(q, f); }
    forall a | a in t.frames ensures Known(t, a.frame) { assert Known(q, a.frame); }
    forall g | g in t.history.issued ensures Known(t, g) { assert g in q.history.issued ==> Known(q, g); }
  }

  lemma SameIdSameFrame(frames: seq<Aligned>, a: Aligned, f: Frame)
    requires Shape(frames) && a in frames && (exists b :: b in frames && b.frame == f) && a.frame.id == f.id
    ensures a.frame == f
  {
    var i :| 0 <= i < |frames| && frames[i] == a;
    var j :| 0 <= j < |frames| && frames[j].frame == f;
  }

  lemma SelectedTickets(q: Queue, t: Queue, chosen: Frame)
    requires TimeLine(q) && Tickets(q) && (exists a :: a in q.frames && a.frame == chosen)
    requires forall a :: a in t.frames ==> a in q.frames && NotOlderThan(chosen)(a)
    requires t.history.issued == q.history.issued + {chosen}
    ensures Tickets(t)
  {
    var own :| own in q.frames && own.frame == chosen;
    assert OnTimeLine(q.clock, q.current, own.frame);
    forall a, b | a in t.frames && b in t.frames && a.frame in t.history.issued
      ensures a.frame.sample.frameSequence <= b.frame.sample.frameSequence {
      assert OnTimeLine(q.clock, q.current, b.frame);
      assert a.frame == chosen || a.frame in q.history.issued;
    }
  }

  // ---------------------------------------------------------------- commit and retire

  lemma SpliceKeepsShape(frames: seq<Aligned>, i: nat)
    requires Shape(frames) && i < |frames|
    ensures Shape(Splice(frames, i))
    ensures forall a :: a in Splice(frames, i) ==>
              a in frames && a.frame.id != frames[i].frame.id &&
              a.frame.sample.frameSequence != frames[i].frame.sample.frameSequence
  {
    SplicePairwise(frames, i, ByTime());
    SplicePairwise(frames, i, Differ());
    var left := Splice(frames, i);
    forall a | a in left ensures a.frame.id != frames[i].frame.id &&
        a.frame.sample.frameSequence != frames[i].frame.sample.frameSequence {
      var k :| 0 <= k < |left| && left[k] == a;
      var j := if k < i then k else k + 1;
      assert a == frames[j];
      assert if j < i then Differ()(frames[j], frames[i]) else Differ()(frames[i], frames[j]);
    }
  }

  lemma CommitKeepsInv(cfg: QueueConfig, q: Queue, ticket: Ticket)
    requires Inv(cfg, q) && q.transit == [] && Issued(q, ticket)
    ensures Inv(cfg, Commit(q, ticket).0)
  {
    var t := Commit(q, ticket).0;
    if t != q {
      var f := ticket.frame.value;
      var i := FirstIndex(q.frames, IsFrame(f)).value;
      SpliceKeepsShape(q.frames, i);
      FewerIdentity(q, t);
      CommitTakesOldest(q, t, f, q.frames[i]);
    }
  }

  // The committed frame is newer than the one it replaces and older than every frame still queued.
  lemma CommitTakesOldest(q: Queue, t: Queue, f: Frame, own: Aligned)
    requires TimeLine(q) && Tickets(q) && CommitOrder(q) && own in q.frames && own.frame == f && f in q.history.issued
    requires forall a :: a in t.frames ==>
               a in q.frames && a.frame.sample.frameSequence != f.sample.frameSequence
    requires t.clock == q.clock && t.current == Some(f) && t.history.issued == q.history.issued
    requires t.history.commits == q.history.commits + [f.sample.frameSequence]
    ensures TimeLine(t) && Tickets(t) && CommitOrder(t)
  {
    assert OnTimeLine(q.clock, q.current, own.frame);
    forall a | a in t.frames ensures OnTimeLine(t.clock, t.current, a.frame) {
      assert OnTimeLine(q.clock, q.current, a.frame);
      assert own.frame.sample.frameSequence <= a.frame.sample.frameSequence;
    }
  }

  lemma RetireKeepsInv(cfg: QueueConfig, q: Queue, ticket: Ticket)
    requires Inv(cfg, q) && q.transit == []
    ensures Inv(cfg, Retire(q, ticket).0)
  {
    var t := Retire(q, ticket).0;
    if t != q {
      var f := ticket.frame.value;
      var i := FirstIndex(q.frames, IsFrame(f));
      if i.Some? {
        SpliceKeepsShape(q.frames, i.value);
      }
      FewerIdentity(q, t);
      FewerTimeLine(q, t);
    }
  }

  // ---------------------------------------------------------------- runs

  lemma TallyKeepsInv(cfg: QueueConfig, q: Queue, t: Queue)
    requires Inv(cfg, q) && t == q.(tally := t.tally)
    requires t.tally == q.tally.(failures := t.tally.failures, cancellations := t.tally.cancellations)
    ensures Inv(cfg, t)
  {
    FewerIdentity(q, t);
  }

  lemma FailKeepsInv(cfg: QueueConfig, q: Queue, ticket: Ticket)
    requires Inv(cfg, q) && q.transit == []
    ensures Inv(cfg, Fail(q, ticket)) && Inv(cfg, Cancel(q, ticket))
  {
    RetireKeepsInv(cfg, q, ticket);
    TallyKeepsInv(cfg, Retire(q, ticket).0, Fail(q, ticket));
    TallyKeepsInv(cfg, Retire(q, ticket).0, Cancel(q, ticket));
  }

  lemma StepKeepsInv(cfg: QueueConfig, q: Queue, a: Action)
    requires ValidQueueConfig(cfg) && Inv(cfg, q) && Enabled(cfg, q, a)
    ensures Inv(cfg, Step(cfg, q, a))
  {
    match a
    case Create(id, initial) => MarksKeepInv(cfg, q, q.(readiness := q.readiness[id := initial]));
    case ProducerMarks(id, to) => MarksKeepInv(cfg, q, q.(readiness := q.readiness[id := MarkAs(q.readiness[id], to)]));
    case PushFrame(f, observed) => PushKeepsInv(cfg, q, f, observed);
    case StartAdvance(pts, target, programDiscontinuity) => BeginAdvanceKeepsInv(cfg, q, pts, target, programDiscontinuity);
    case AlignOne => AlignNextKeepsInv(cfg, q);
    case SelectAt(pts, tolerance) => SelectKeepsInv(cfg, q, pts, tolerance);
    case CommitTicket(t) => CommitKeepsInv(cfg, q, t);
    case FailTicket(t) => FailKeepsInv(cfg, q, t);
    case CancelTicket(t) => FailKeepsInv(cfg, q, t);
    case ClearPending => ResetPendingKeepsInv(cfg, q);
    case ClearAligned => ClearAlignedKeepsInv(cfg, q);
  }

  lemma ClearAlignedKeepsInv(cfg: QueueConfig, q: Queue)
    requires ValidQueueConfig(cfg) && Inv(cfg, q) && q.transit == []
    ensures Inv(cfg, ClearForDiscontinuity(q, true))
  {
    ClearKeepsInv(cfg, q, true);
  }

  // A run: each action is enabled in the state the earlier ones led to.
  ghost predicate Reaches(cfg: QueueConfig, q: Queue, run: seq<Action>, t: Queue)
    requires ValidQueueConfig(cfg) && Inv(cfg, q)
    decreases |run|
  {
    if run == [] then t == q
    else Enabled(cfg, q, run[0]) && (StepKeepsInv(cfg, q, run[0]); Reaches(cfg, Step(cfg, q, run[0]), run[1..], t))
  }

  lemma {:induction false} RunsKeepInv(cfg: QueueConfig, q: Queue, run: seq<Action>, t: Queue)
    requires ValidQueueConfig(cfg) && Inv(cfg, q) && Reaches(cfg, q, run, t)
    ensures Inv(cfg, t)
    decreases |run|
  {
    if run != [] {
      StepKeepsInv(cfg, q, run[0]);
      RunsKeepInv(cfg, Step(cfg, q, run[0]), run[1..], t);
    }
  }

  ghost function Start(cfg: QueueConfig): (q: Queue)
    requires ValidQueueConfig(cfg)
    ensures Inv(cfg, q)
  {
    InitInv(cfg);
    Init()
  }

  // Over every interleaving of producers and render thread the shared counter never underflows or passes the
  // capacity, and every pushed frame is accounted for once.
  lemma EveryRunCountsFrames(cfg: QueueConfig, run: seq<Action>, t: Queue)
    requires ValidQueueConfig(cfg) && Reaches(cfg, Start(cfg), run, t)
    ensures 0 <= t.queued == |t.pending| + |t.transit| + |t.frames| <= cfg.capacity
    ensures t.tally.pushed == t.tally.overflowDrops + t.tally.selectionDrops + t.tally.committed + t.tally.retired
                              + t.tally.cleared + t.tally.unmappable + t.queued
  {
    RunsKeepInv(cfg, Start(cfg), run, t);
  }

  // Between two discontinuities the committed sequence numbers strictly increase, and every frame still
  // aligned is newer than all of them.
  lemma EveryRunCommitsInOrder(cfg: QueueConfig, run: seq<Action>, t: Queue)
    requires ValidQueueConfig(cfg) && Reaches(cfg, Start(cfg), run, t)
    ensures var c := t.history.commits;
            && (forall i, j :: 0 <= i < j < |c| ==> c[i] < c[j])
            && (forall i, a :: 0 <= i < |c| && a in t.frames ==> c[i] < a.frame.sample.frameSequence)
  {
    RunsKeepInv(cfg, Start(cfg), run, t);
    var c := t.history.commits;
    forall i, a | 0 <= i < |c| && a in t.frames ensures c[i] < a.frame.sample.frameSequence {
      assert OnTimeLine(t.clock, t.current, a.frame);
      assert c[i] <= c[|c| - 1];
    }
  }

  // ---------------------------------------------------------------- tickets that came too late

  // A pushed frame the queue no longer holds.
  ghost predicate Gone(q: Queue, id: nat) {
    && id in q.history.pushed
    && (forall f :: f in q.pending ==> f.id != id)
    && (forall f :: f in q.transit ==> f.id != id)
    && (forall a :: a in q.frames ==> a.frame.id != id)
  }

  lemma CommitOfGoneFails(q: Queue, ticket: Ticket)
    requires ticket.selection == NewFrame && ticket.frame.Some? && Gone(q, ticket.frame.value.id)
    ensures Commit(q, ticket) == (q, false)
  {
  }

  lemma StepKeepsGone(cfg: QueueConfig, q: Queue, a: Action, id: nat)
    requires ValidQueueConfig(cfg) && Inv(cfg, q) && Enabled(cfg, q, a) && Gone(q, id)
    ensures Gone(Step(cfg, q, a), id)
  {
    match a
    case AlignOne => AlignKeepsGone(cfg, q, id);
    case CommitTicket(t) => SpliceKeepsGone(q, t, id);
    case FailTicket(t) => SpliceKeepsGone(q, t, id);
    case CancelTicket(t) => SpliceKeepsGone(q, t, id);
    case Create(_, _) =>
    case ProducerMarks(_, _) =>
    case PushFrame(_, _) =>
    case StartAdvance(_, _, _) =>
    case SelectAt(_, _) =>
    case ClearPending =>
    case ClearAligned =>
  }

  lemma SpliceKeepsGone(q: Queue, t: Ticket, id: nat)
    requires Shape(q.frames) && Gone(q, id)
    ensures Gone(Commit(q, t).0, id) && Gone(Retire(q, t).0, id)
  {
    if t.frame.Some? {
      var i := FirstIndex(q.frames, IsFrame(t.frame.value));
      if i.Some? {
        SplicePairwise(q.frames, i.value, ByTime());
      }
    }
  }

  lemma AlignKeepsGone(cfg: QueueConfig, q: Queue, id: nat)
    requires ValidQueueConfig(cfg) && Inv(cfg, q) && q.transit != [] && Gone(q, id)
    ensures Gone(AlignNext(cfg, q), id)
  {
    var o := ObserveNext(cfg, q);
    assert forall a :: a in o.frames ==> a in q.frames;
    assert o.pending == q.pending && o.history.pushed == q.history.pushed;
    var t := PlaceNext(cfg, o);
    forall a | a in t.frames ensures a.frame.id != id {
      assert a in o.frames || a.frame == q.transit[0];
    }
  }

  // A ticket whose frame has left the queue never commits, however the run goes on.
  lemma {:induction false} GoneTicketNeverCommits(cfg: QueueConfig, q: Queue, run: seq<Action>, t: Queue, ticket: Ticket)
    requires ValidQueueConfig(cfg) && Inv(cfg, q) && Reaches(cfg, q, run, t)
    requires ticket.selection == NewFrame && ticket.frame.Some? && Gone(q, ticket.frame.value.id)
    ensures Commit(t, ticket) == (t, false)
    decreases |run|
  {
    if run == [] {
      CommitOfGoneFails(q, ticket);
    } else {
      StepKeepsInv(cfg, q, run[0]);
      StepKeepsGone(cfg, q, run[0], ticket.frame.value.id);
      GoneTicketNeverCommits(cfg, Step(cfg, q, run[0]), run[1..], t, ticket);
    }
  }

  // Committing a ticket, a discontinuity, and a selection of a newer frame each make a frame gone.
  lemma CommittedIsGone(cfg: QueueConfig, q: Queue, ticket: Ticket)
    requires Inv(cfg, q) && q.transit == [] && Issued(q, ticket)
    requires ticket.selection == NewFrame && Commit(q, ticket).1
    ensures Gone(Commit(q, ticket).0, ticket.frame.value.id)
  {
    var f := ticket.frame.value;
    var i := FirstIndex(q.frames, IsFrame(f)).value;
    assert Known(q, q.frames[i].frame);
    SpliceKeepsShape(q.frames, i);
    forall g | g in q.pending ensures g.id != f.id { assert Waiting(q, g); }
  }

  lemma ClearedIsGone(cfg: QueueConfig, q: Queue, resetClock: bool, f: Frame)
    requires Inv(cfg, q) && f in q.history.issued
    ensures Gone(ClearForDiscontinuity(q, resetClock), f.id)
  {
    assert Known(q, f);
    forall g | g in q.pending || g in q.transit ensures g.id != f.id { assert Waiting(q, g); }
  }

  lemma OvertakenIsGone(cfg: QueueConfig, q: Queue, pts: int, tolerance: int, f: Frame)
    requires Inv(cfg, q) && q.transit == [] && f in q.history.issued
    requires Chosen(cfg, q, pts, tolerance).Some? && Chosen(cfg, q, pts, tolerance).value.id != f.id
    ensures Gone(Select(cfg, q, pts, tolerance).0, f.id)
  {
    var chosen := Chosen(cfg, q, pts, tolerance).value;
    ChosenIsQueued(cfg, q, pts, tolerance);
    var own :| own in q.frames && own.frame == chosen;
    assert Known(q, f);
    forall g | g in q.pending ensures g.id != f.id { assert Waiting(q, g); }
    forall a | a in q.frames && a.frame.id == f.id ensures !NotOlderThan(chosen)(a) {
      assert a.frame == f;
      DifferentSequence(q.frames, a, own);
      assert OnTimeLine(q.clock, q.current, a.frame) && OnTimeLine(q.clock, q.current, own.frame);
      assert f.sample.frameSequence <= own.frame.sample.frameSequence;
    }
  }

  lemma DifferentSequence(frames: seq<Aligned>, a: Aligned, b: Aligned)
    requires Shape(frames) && a in frames && b in frames && a.frame.id != b.frame.id
    ensures a.frame.sample.frameSequence != b.frame.sample.frameSequence
  {
    var i :| 0 <= i < |frames| && frames[i] == a;
    var j :| 0 <= j < |frames| && frames[j] == b;
    assert i < j ==> Differ()(frames[i], frames[j]);
    assert j < i ==> Differ()(frames[j], frames[i]);
  }

  // ---------------------------------------------------------------- readiness and phase

  // Once a frame is ready or failed nothing any thread does changes that.
  lemma {:induction false} DecidedStaysDecided(cfg: QueueConfig, q: Queue, run: seq<Action>, t: Queue, id: nat)
    requires ValidQueueConfig(cfg) && Inv(cfg, q) && Reaches(cfg, q, run, t)
    requires id in q.readiness && Terminal(q.readiness[id])
    ensures id in t.readiness && t.readiness[id] == q.readiness[id]
    decreases |run|
  {
    if run != [] {
      StepKeepsInv(cfg, q, run[0]);
      StepKeepsDecided(cfg, q, run[0], id);
      DecidedStaysDecided(cfg, Step(cfg, q, run[0]), run[1..], t, id);
    }
  }

  lemma StepKeepsDecided(cfg: QueueConfig, q: Queue, a: Action, id: nat)
    requires ValidQueueConfig(cfg) && Ready2Align(cfg, q) && Enabled(cfg, q, a)
    requires id in q.readiness && Terminal(q.readiness[id])
    ensures id in Step(cfg, q, a).readiness && Step(cfg, q, a).readiness[id] == q.readiness[id]
  {
    match a
    case AlignOne =>
      var o := ObserveNext(cfg, q);
      assert id in o.readiness && o.readiness[id] == q.readiness[id];
    case CommitTicket(t) =>
    case FailTicket(t) =>
    case CancelTicket(t) =>
    case Create(_, _) =>
    case ProducerMarks(_, _) =>
    case PushFrame(_, _) =>
    case StartAdvance(_, _, _) =>
    case SelectAt(_, _) =>
    case ClearPending =>
    case ClearAligned =>
  }

  // The arrival phase is the offset less a whole number of frame durations, at most half a duration away
  // from zero.
  lemma ArrivalPhaseIsNearest(offset: int, duration: int) returns (frames: int)
    requires duration > 0
    ensures offset == ArrivalPhase(offset, duration) + frames * duration
    ensures -(duration / 2) <= ArrivalPhase(offset, duration) <= duration / 2
  {
    var q := TruncatingDiv(offset, duration);
    var phase := offset - duration * q;
    TruncatingRemainder(offset, duration);
    frames := if phase > duration / 2 then q + 1 else if phase < -(duration / 2) then q - 1 else q;
    assert (q + 1) * duration == q * duration + duration;
    assert (q - 1) * duration == q * duration - duration;
  }

  lemma TruncatingRemainder(a: int, d: int)
    requires d > 0
    ensures var r := a - d * TruncatingDiv(a, d);
            -d < r < d
  {
    var m := if a >= 0 then a else -a;
    assert m == d * (m / d) + m % d;
    assert d * (-(m / d)) == -(d * (m / d));
  }
}
