/** What the calls on the timed source queue answer and change, and which frames a run commits. */
module SourceQueueEffects {
  import opened Common
  import opened MediaClock
  import opened SourceQueue
  import opened SourceQueueSafety

  ghost predicate IsReady(q: Queue, f: Frame) { f.id in q.readiness && q.readiness[f.id] == Ready }

  ghost predicate IsQueued(q: Queue, f: Frame) { exists a :: a in q.frames && a.frame == f }

  lemma FindsQueued(q: Queue, f: Frame)
    ensures FirstIndex(q.frames, IsFrame(f)).Some? <==> IsQueued(q, f)
  {
    var i := FirstIndex(q.frames, IsFrame(f));
    if i.Some? {
      assert q.frames[i.value] in q.frames && IsFrame(f)(q.frames[i.value]);
    } else {
      forall a | a in q.frames ensures a.frame != f { assert !IsFrame(f)(a); }
    }
  }

  // A commit is granted exactly for a ready frame that is shown again, or is new and still queued; a refused one
  // changes nothing.
  lemma CommitNeedsReadyFrame(q: Queue, t: Ticket)
    ensures Commit(q, t).1 <==> t.frame.Some? && IsReady(q, t.frame.value)
                                && (t.selection == Repeat || (t.selection == NewFrame && IsQueued(q, t.frame.value)))
    ensures !Commit(q, t).1 || t.selection == Repeat ==> Commit(q, t).0 == q
  {
    if t.frame.Some? { FindsQueued(q, t.frame.value); }
  }

  // A new frame committed leaves the queue and is the one on show; the other frames stay, in their order.
  lemma CommitShows(q: Queue, t: Ticket, k: nat)
    requires Shape(q.frames) && t.selection == NewFrame && Commit(q, t).1
    requires k < |q.frames| && q.frames[k].frame == t.frame.value
    ensures var r := Commit(q, t).0;
            r.current == t.frame && r.frames == q.frames[..k] + q.frames[k + 1..] && r.queued == q.queued - 1
            && r.readiness == q.readiness && r.tally == q.tally.(committed := q.tally.committed + 1)
            && r.history.commits == q.history.commits + [t.frame.value.sample.frameSequence]
            && r.pending == q.pending && r.transit == q.transit && r.clock == q.clock
  {
    forall i | 0 <= i < k ensures !IsFrame(t.frame.value)(q.frames[i]) {
      assert Differ()(q.frames[i], q.frames[k]);
    }
    FirstIndexIs(q.frames, IsFrame(t.frame.value), k);
  }

  // A ticket is given up exactly when its new frame was undecided: then the frame has failed, and leaves the queue if
  // it was there. Otherwise nothing changes, and a failure and a cancellation differ in what they count.
  lemma RetireNeedsUndecided(q: Queue, t: Ticket)
    ensures Retire(q, t).1 <==> t.selection == NewFrame && t.frame.Some? && t.frame.value.id in q.readiness
                                && q.readiness[t.frame.value.id] in {Reserved, Submitted}
    ensures !Retire(q, t).1 ==> Fail(q, t) == Cancel(q, t) == q
    ensures Retire(q, t).1 ==>
              var f := t.frame.value;
              Fail(q, t).readiness == q.readiness[f.id := Failed] == Cancel(q, t).readiness
              && Fail(q, t).tally.failures == q.tally.failures + 1
              && Cancel(q, t).tally.cancellations == q.tally.cancellations + 1
              && Fail(q, t).tally.cancellations == q.tally.cancellations
              && Cancel(q, t).tally.failures == q.tally.failures
              && Fail(q, t).frames == Cancel(q, t).frames
              && (!IsQueued(q, f) ==> Fail(q, t).frames == q.frames)
              && Fail(q, t).current == Cancel(q, t).current == q.current
  {
    if t.frame.Some? { FindsQueued(q, t.frame.value); }
  }

  lemma RetireRemoves(q: Queue, t: Ticket, k: nat)
    requires Shape(q.frames) && Retire(q, t).1 && k < |q.frames| && q.frames[k].frame == t.frame.value
    ensures Fail(q, t).frames == q.frames[..k] + q.frames[k + 1..]
    ensures Fail(q, t).queued == Cancel(q, t).queued == q.queued - 1
    ensures Fail(q, t).tally.retired == Cancel(q, t).tally.retired == q.tally.retired + 1
  {
    forall i | 0 <= i < k ensures !IsFrame(t.frame.value)(q.frames[i]) {
      assert Differ()(q.frames[i], q.frames[k]);
    }
    FirstIndexIs(q.frames, IsFrame(t.frame.value), k);
  }

  // Marking never takes back a decision: a frame can become submitted only from reserved, ready only from submitted,
  // and failed from either.
  lemma MarksOnlyForward(r: Readiness, to: Readiness)
    ensures var after := MarkAs(r, to);
            after != r ==> (r == Reserved && after == Submitted && to == Submitted)
                           || (r == Submitted && after == Ready && to == Ready)
                           || (r in {Reserved, Submitted} && after == Failed && to in {Failed, Reserved})
    ensures (to == Submitted && r == Reserved) || (to == Ready && r == Submitted) ==> MarkAs(r, to) == to
    ensures to == Failed && r != Ready ==> MarkAs(r, to) == Failed
  {
  }

  // Frames given up are those among the ids that are not ready; no other frame is affected.
  lemma CancelAllFails(readiness: map<nat, Readiness>, ids: set<nat>, id: nat)
    requires id in readiness
    ensures CancelAll(readiness, ids).Keys == readiness.Keys
    ensures CancelAll(readiness, ids)[id] ==
            if id in ids && readiness[id] != Ready then Failed else readiness[id]
  {
  }

  // A frame joins the pending ones while there is room. A full queue gives up its oldest pending frame for it, or the
  // new frame when none is pending.
  lemma PushJoinsOrDrops(cfg: QueueConfig, q: Queue, f: Frame, observed: int)
    ensures var r := Push(cfg, q, f, observed);
            r.transit == q.transit && r.frames == q.frames && r.current == q.current && r.clock == q.clock
            && (observed < cfg.capacity ==> r.pending == q.pending + [f] && r.queued == q.queued + 1
                                            && r.readiness == q.readiness
                                            && r.tally == q.tally.(pushed := q.tally.pushed + 1))
            && (observed >= cfg.capacity ==> r.queued == q.queued
                                             && r.tally == q.tally.(pushed := q.tally.pushed + 1,
                                                                    overflowDrops := q.tally.overflowDrops + 1))
            && (observed >= cfg.capacity && q.pending == [] ==>
                  r.pending == [] && r.readiness == CancelAll(q.readiness, {f.id}))
            && (observed >= cfg.capacity && q.pending != [] ==>
                  r.pending == q.pending[1..] + [f] && r.readiness == CancelAll(q.readiness, {q.pending[0].id}))
  {
  }

  // A discontinuity gives up every aligned frame and the one on show, and is told of with the next ticket.
  lemma ClearGivesUpFrames(q: Queue, resetClock: bool)
    ensures var r := ClearForDiscontinuity(q, resetClock);
            r.frames == [] && r.current.None? && r.discontinuityPending && r.queued == q.queued - |q.frames|
            && r.pending == q.pending && r.transit == q.transit
            && r.tally.cleared == q.tally.cleared + |q.frames|
            && r.tally.discontinuities == q.tally.discontinuities + 1
            && (if resetClock then r.clock.streamEpoch.None? && r.origin.None?
                else r.clock == q.clock && r.origin == q.origin)
            && forall id :: id in q.readiness ==>
                 id in r.readiness
                 && r.readiness[id] == if (exists a :: a in q.frames && a.frame.id == id)
                                          || (q.current.Some? && q.current.value.id == id)
                                       then (if q.readiness[id] == Ready then Ready else Failed)
                                       else q.readiness[id]
  {
    forall id | id in q.readiness
      ensures id in AlignedIds(q.frames) <==> exists a :: a in q.frames && a.frame.id == id
    {
    }
  }

  // Pending frames given up leave nothing behind but their readiness.
  lemma ResetGivesUpPending(q: Queue)
    ensures var r := ResetPending(q);
            r.pending == [] && r.frames == q.frames && r.current == q.current && r.queued == q.queued - |q.pending|
            && r.tally.cleared == q.tally.cleared + |q.pending|
            && forall id :: id in q.readiness ==>
                 id in r.readiness
                 && r.readiness[id] == if (exists f :: f in q.pending && f.id == id) && q.readiness[id] != Ready
                                       then Failed else q.readiness[id]
  {
    forall id | id in q.readiness ensures id in Ids(q.pending) <==> exists f :: f in q.pending && f.id == id {
    }
  }

  // An advance takes all pending frames. A break in program time gives up the old time line; the first frames after it
  // fix the phase at which frames arrive.
  lemma AdvanceTakesPending(q: Queue, pts: int, target: int, programDiscontinuity: bool)
    requires q.transit == []
    ensures var r := BeginAdvance(q, pts, target, programDiscontinuity);
            r.transit == q.pending && r.pending == [] && r.alignPts == pts && r.alignTarget == target
            && (programDiscontinuity ==> r.frames == [] && r.current.None? && r.clock == RESET)
            && (!programDiscontinuity ==> r.frames == q.frames && r.current == q.current && r.clock == q.clock
                                          && r.readiness == q.readiness)
            && (q.pending == [] ==> r.origin == if programDiscontinuity then None else q.origin)
            && (q.pending != [] && q.origin.Some? && !programDiscontinuity ==> r.origin == q.origin)
            && (q.pending != [] && (q.origin.None? || programDiscontinuity) ==>
                  r.origin == Some(ArrivalPhase(Newest(q.pending).arrival - target,
                                                Newest(q.pending).sample.frameDuration)))
  {
  }

  // A frame joins the aligned ones at a program time, behind all frames due no later.
  ghost predicate JoinsAt(frames: seq<Aligned>, f: Frame, pts: int, after: seq<Aligned>) {
    exists k :: 0 <= k <= |frames| && after == frames[..k] + [Aligned(f, pts)] + frames[k..]
                && (forall i :: 0 <= i < k ==> frames[i].programPts <= pts)
                && (k < |frames| ==> pts < frames[k].programPts)
  }

  // The next frame leaves for its place in program time, if it has one; else it is only counted.
  ghost predicate Placed(o: Queue, place: Option<int>, r: Queue) {
    && o.transit != []
    && r == o.(transit := o.transit[1..], frames := r.frames, queued := r.queued, tally := r.tally)
    && if place.Some? then r.queued == o.queued && r.tally == o.tally
                           && JoinsAt(o.frames, o.transit[0], place.value, r.frames)
       else r.frames == o.frames && r.queued == o.queued - 1
            && r.tally == o.tally.(unmappable := o.tally.unmappable + 1)
  }

  // It is played out a fixed delay and some frames after the time its timestamp maps to.
  ghost predicate IsPlayoutTime(cfg: QueueConfig, f: Frame, mapped: Option<int>, place: Option<int>) {
    && (mapped.Some? <==> place.Some?)
    && (mapped.Some? ==>
          place.value == mapped.value + cfg.playoutDelay + f.sample.frameDuration * cfg.playoutDelayFrames)
  }

  lemma InsertedJoins(frames: seq<Aligned>, f: Frame, pts: int)
    ensures JoinsAt(frames, f, pts, Insert(frames, DueCount(frames, pts), Aligned(f, pts)))
  {
    var k := DueCount(frames, pts);
    assert Insert(frames, k, Aligned(f, pts)) == frames[..k] + [Aligned(f, pts)] + frames[k..];
  }

  lemma PlaceNextInserts(cfg: QueueConfig, o: Queue, place: Option<int>)
    requires o.transit != [] && place.Some?
    requires IsPlayoutTime(cfg, o.transit[0], MapPts(o.clock, o.transit[0].sample.mediaPts), place)
    ensures PlaceNext(cfg, o) ==
            o.(transit := o.transit[1..],
               frames := Insert(o.frames, DueCount(o.frames, place.value), Aligned(o.transit[0], place.value)))
  {
  }

  lemma PlacementIsDelayed(cfg: QueueConfig, o: Queue, place: Option<int>)
    requires o.transit != []
    requires IsPlayoutTime(cfg, o.transit[0], MapPts(o.clock, o.transit[0].sample.mediaPts), place)
    ensures Placed(o, place, PlaceNext(cfg, o))
  {
    if place.Some? {
      PlaceNextInserts(cfg, o, place);
      InsertedJoins(o.frames, o.transit[0], place.value);
    }
  }

  // On a running time line a frame is observed at the program time of its arrival, less the phase, and then placed.
  lemma AlignedFrameIsDelayed(cfg: QueueConfig, q: Queue, at: int, clock: Clock, place: Option<int>)
    requires q.transit != [] && q.origin.Some? && ValidQueueConfig(cfg) && ClockOk(cfg.clock, q.clock)
    requires at == q.alignPts + (q.transit[0].arrival - q.alignTarget) - q.origin.value
    requires Observe(cfg.clock, q.clock, q.transit[0].sample, at).1 != Discontinuity
    requires clock == Observe(cfg.clock, q.clock, q.transit[0].sample, at).0
    requires IsPlayoutTime(cfg, q.transit[0], MapPts(clock, q.transit[0].sample.mediaPts), place)
    ensures Placed(q.(clock := clock), place, AlignNext(cfg, q))
  {
    var o := ObserveNext(cfg, q);
    assert o == q.(clock := clock);
    PlacementIsDelayed(cfg, o, place);
  }

  // A frame that breaks the time line gives up the frames aligned so far and starts a new one, under its own phase.
  lemma BreakingFrameRestarts(cfg: QueueConfig, q: Queue, f: Frame)
    requires q.transit != [] && f == q.transit[0] && q.origin.Some? && ValidQueueConfig(cfg)
    requires ClockOk(cfg.clock, q.clock)
    requires Observe(cfg.clock, q.clock, f.sample,
                     q.alignPts + (f.arrival - q.alignTarget) - q.origin.value).1 == Discontinuity
    ensures var offset := f.arrival - q.alignTarget;
            var phase, r := ArrivalPhase(offset, f.sample.frameDuration), AlignNext(cfg, q);
            r.origin == Some(phase) && r.clock == Initialize(f.sample, q.alignPts + offset - phase)
            && r.transit == q.transit[1..] && r.current.None? && r.discontinuityPending && |r.frames| <= 1
            && r.tally.discontinuities == q.tally.discontinuities + 1
            && forall a :: a in r.frames ==> a.frame == f
  {
  }

  // With a frame due, the newest of those due is handed out as new; every queued frame not older than it stays queued,
  // in order, and every older one is dropped.
  lemma SelectionDropsOlder(cfg: QueueConfig, q: Queue, pts: int, tolerance: int, chosen: Frame)
    requires Inv(cfg, q) && Chosen(cfg, q, pts, tolerance) == Some(chosen)
    ensures var (r, ticket) := Select(cfg, q, pts, tolerance);
            ticket == Ticket(Some(chosen), NewFrame, q.discontinuityPending) && !r.discontinuityPending
            && r.current == q.current && r.pending == q.pending
            && (forall a :: a in r.frames <==>
                  a in q.frames && (a.frame == chosen || a.frame.sample.frameSequence >= chosen.sample.frameSequence))
            && Pairwise(r.frames, ByTime())
            && r.tally.selectionDrops == q.tally.selectionDrops + (|q.frames| - |r.frames|)
  {
    ChosenIsQueued(cfg, q, pts, tolerance);
    var own :| own in q.frames && own.frame == chosen;
    forall a | a in q.frames
      ensures NotOlderThan(chosen)(a)
              <==> a.frame == chosen || a.frame.sample.frameSequence >= chosen.sample.frameSequence
    {
      assert OnTimeLine(q.clock, q.current, a.frame) && OnTimeLine(q.clock, q.current, own.frame);
    }
    FilterPairwise(q.frames, NotOlderThan(chosen), ByTime());
  }

  // The frames dropped have failed, unless they were ready; no other frame is affected.
  lemma SelectionFailsDropped(cfg: QueueConfig, q: Queue, pts: int, tolerance: int, id: nat)
    requires Inv(cfg, q) && Chosen(cfg, q, pts, tolerance).Some? && id in q.readiness
    ensures var r := Select(cfg, q, pts, tolerance).0;
            id in r.readiness
            && r.readiness[id] == if (exists a :: a in q.frames && a !in r.frames && a.frame.id == id)
                                     && q.readiness[id] != Ready
                                  then Failed else q.readiness[id]
  {
    var r := Select(cfg, q, pts, tolerance).0;
    assert forall a :: a in r.frames ==> a in q.frames;
    DroppedIds(q.frames, r.frames, id);
  }

  lemma DroppedIds(frames: seq<Aligned>, kept: seq<Aligned>, id: nat)
    requires Shape(frames) && forall a :: a in kept ==> a in frames
    ensures id in AlignedIds(frames) - AlignedIds(kept)
            <==> exists a :: a in frames && a !in kept && a.frame.id == id
  {
    if a :| a in frames && a !in kept && a.frame.id == id {
      forall b | b in kept ensures b.frame.id != id {
        DifferentAligned(frames, a, b);
      }
    }
  }

  lemma DifferentAligned(frames: seq<Aligned>, a: Aligned, b: Aligned)
    requires Shape(frames) && a in frames && b in frames && a != b
    ensures a.frame.id != b.frame.id
  {
    var i :| 0 <= i < |frames| && frames[i] == a;
    var j :| 0 <= j < |frames| && frames[j] == b;
    assert i < j ==> Differ()(frames[i], frames[j]);
    assert j < i ==> Differ()(frames[j], frames[i]);
  }

  // With none due, the frame on show is repeated, if there is one; the count says whether the queue was empty.
  lemma NothingDueRepeats(cfg: QueueConfig, q: Queue, pts: int, tolerance: int)
    requires Chosen(cfg, q, pts, tolerance).None?
    ensures var (r, ticket) := Select(cfg, q, pts, tolerance);
            ticket.frame == q.current && ticket.discontinuity == q.discontinuityPending && !r.discontinuityPending
            && r == q.(discontinuityPending := false, tally := r.tally)
            && (q.current.Some? ==> ticket.selection == Repeat && r.tally.repeated == q.tally.repeated + 1
                                    && r.tally.missing == q.tally.missing)
            && (q.current.Some? && q.frames == [] ==>
                  r.tally.starvationRepeats == q.tally.starvationRepeats + 1)
            && (q.current.Some? && q.frames != [] ==> r.tally.timingRepeats == q.tally.timingRepeats + 1)
            && (q.current.None? ==> ticket.selection == Missing && r.tally.missing == q.tally.missing + 1
                                    && r.tally.repeated == q.tally.repeated)
  {
  }

  /** The frames a run commits. */

  // The frame an action commits as new.
  ghost function Committed(q: Queue, a: Action): seq<Frame> {
    if a.CommitTicket? && a.ticket.selection == NewFrame && Commit(q, a.ticket).1 then [a.ticket.frame.value] else []
  }

  ghost function CommittedIn(cfg: QueueConfig, q: Queue, run: seq<Action>, t: Queue): seq<Frame>
    requires ValidQueueConfig(cfg) && Inv(cfg, q) && Reaches(cfg, q, run, t)
    decreases |run|
  {
    if run == [] then []
    else
      StepKeepsInv(cfg, q, run[0]);
      Committed(q, run[0]) + CommittedIn(cfg, Step(cfg, q, run[0]), run[1..], t)
  }

  lemma StepCountsCommits(cfg: QueueConfig, q: Queue, a: Action)
    requires ValidQueueConfig(cfg) && Ready2Align(cfg, q) && Enabled(cfg, q, a)
    ensures Step(cfg, q, a).tally.committed == q.tally.committed + |Committed(q, a)|
  {
    match a
    case AlignOne =>
      assert ObserveNext(cfg, q).tally.committed == q.tally.committed;
    case CommitTicket(t) => CommitNeedsReadyFrame(q, t);
    case FailTicket(t) =>
    case CancelTicket(t) =>
    case Create(_, _) =>
    case ProducerMarks(_, _) =>
    case PushFrame(_, _) =>
    case StartAdvance(_, _, _) =>
    case SelectAt(_, _) =>
    case ClearPending =>
    case ClearAligned =>
  }

  lemma CommittedIsReady(cfg: QueueConfig, q: Queue, a: Action, f: Frame)
    requires ValidQueueConfig(cfg) && Ready2Align(cfg, q) && Enabled(cfg, q, a) && f in Committed(q, a)
    ensures IsReady(q, f) && IsReady(Step(cfg, q, a), f)
  {
    CommitNeedsReadyFrame(q, a.ticket);
    StepKeepsDecided(cfg, q, a, f.id);
  }

  // Over every run, every frame counted as committed was ready when it was, and is ready ever after.
  lemma {:induction false} EveryCommittedFrameIsReady(cfg: QueueConfig, q: Queue, run: seq<Action>, t: Queue)
    requires ValidQueueConfig(cfg) && Inv(cfg, q) && Reaches(cfg, q, run, t)
    ensures |CommittedIn(cfg, q, run, t)| == t.tally.committed - q.tally.committed
    ensures forall f :: f in CommittedIn(cfg, q, run, t) ==> IsReady(t, f)
    decreases |run|
  {
    if run != [] {
      var next := Step(cfg, q, run[0]);
      StepKeepsInv(cfg, q, run[0]);
      StepCountsCommits(cfg, q, run[0]);
      EveryCommittedFrameIsReady(cfg, next, run[1..], t);
      forall f | f in Committed(q, run[0]) ensures IsReady(t, f) {
        CommittedIsReady(cfg, q, run[0], f);
        DecidedStaysDecided(cfg, next, run[1..], t, f.id);
      }
    }
  }

  // The frame on show is ready, in every state of every run.
  lemma {:induction false} EveryRunShowsReadyFrames(cfg: QueueConfig, q: Queue, run: seq<Action>, t: Queue)
    requires ValidQueueConfig(cfg) && Inv(cfg, q) && Reaches(cfg, q, run, t)
    requires q.current.Some? ==> IsReady(q, q.current.value)
    ensures t.current.Some? ==> IsReady(t, t.current.value)
    decreases |run|
  {
    if run != [] {
      StepKeepsInv(cfg, q, run[0]);
      StepShowsReady(cfg, q, run[0]);
      EveryRunShowsReadyFrames(cfg, Step(cfg, q, run[0]), run[1..], t);
    }
  }

  lemma StepShowsReady(cfg: QueueConfig, q: Queue, a: Action)
    requires ValidQueueConfig(cfg) && Ready2Align(cfg, q) && Enabled(cfg, q, a)
    requires q.current.Some? ==> IsReady(q, q.current.value)
    ensures var r := Step(cfg, q, a); r.current.Some? ==> IsReady(r, r.current.value)
  {
    if q.current.Some? { StepKeepsDecided(cfg, q, a, q.current.value.id); }
    if a.CommitTicket? {
      CommitNeedsReadyFrame(q, a.ticket);
    } else {
      StepKeepsCurrent(cfg, q, a);
    }
  }

  // Only a commit puts a frame on show.
  lemma StepKeepsCurrent(cfg: QueueConfig, q: Queue, a: Action)
    requires ValidQueueConfig(cfg) && Ready2Align(cfg, q) && Enabled(cfg, q, a) && !a.CommitTicket?
    ensures Step(cfg, q, a).current in {q.current, None}
  {
    match a
    case AlignOne => assert ObserveNext(cfg, q).current in {q.current, None};
    case _ =>
  }
}
