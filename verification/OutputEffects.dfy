/** What the timed output queue answers, and which frame the DeckLink output schedules when. */
module OutputEffects {
  import opened Common
  import Q = OutputQueue
  import opened DeckLinkOutput
  import opened DeckLinkPlayback
  import opened PresentationTimeline

  ghost predicate IsDue(q: Q.Queue, f: Q.Frame, time: int) { f.target <= time + q.earlyTolerance }

  // The last frame that is due, of frames in the order of their targets.
  ghost predicate LastDue(q: Q.Queue, time: int, k: nat) {
    && k < |q.frames| && IsDue(q, q.frames[k], time)
    && forall i :: k < i < |q.frames| ==> !IsDue(q, q.frames[i], time)
  }

  lemma DueCountsLast(q: Q.Queue, time: int, k: nat)
    requires Q.Ordered(q) && LastDue(q, time, k)
    ensures Q.Due(q, time) == k + 1
  {
    forall i | 0 <= i <= k ensures IsDue(q, q.frames[i], time) {
      if i < k { assert Q.Earlier(q.frames[i], q.frames[k]); }
    }
    BoundIsCount(q.frames, time + q.earlyTolerance, k + 1);
  }

  // A bound that has the frames not later in front of it, and the later ones behind, is the upper bound.
  lemma {:induction false} BoundIsCount(frames: seq<Q.Frame>, limit: int, n: nat)
    requires n <= |frames|
    requires forall i :: 0 <= i < n ==> frames[i].target <= limit
    requires forall i :: n <= i < |frames| ==> limit < frames[i].target
    ensures Q.UpperBound(frames, limit) == n
  {
    if n > 0 {
      BoundIsCount(frames[1..], limit, n - 1);
    }
  }

  lemma NoneDue(q: Q.Queue, time: int)
    requires forall f :: f in q.frames ==> !IsDue(q, f, time)
    ensures Q.Due(q, time) == 0
  {
    if q.frames != [] { assert q.frames[0] in q.frames; }
  }

  // The last frame due is shown, those before it are dropped, those after it stay.
  lemma SelectShowsLastDue(q: Q.Queue, time: int, k: nat)
    requires Q.Ordered(q) && LastDue(q, time, k)
    ensures Q.SelectionAt(q, time) == Q.NewFrame
    ensures Q.Select(q, time) == q.(current := Some(q.frames[k]), frames := q.frames[k + 1..],
                                    metrics := q.metrics.(selectionDrops := q.metrics.selectionDrops + k))
  {
    DueCountsLast(q, time, k);
  }

  // With none due the frame on show is repeated, if there is one, and the selection counted as such.
  lemma SelectRepeats(q: Q.Queue, time: int)
    requires forall f :: f in q.frames ==> !IsDue(q, f, time)
    ensures q.current.Some? ==> Q.SelectionAt(q, time) == Q.Repeat
                                && Q.Select(q, time) == q.(metrics := q.metrics.(repeated := q.metrics.repeated + 1))
    ensures q.current.None? ==> Q.SelectionAt(q, time) == Q.Missing
                                && Q.Select(q, time) == q.(metrics := q.metrics.(missing := q.metrics.missing + 1))
  {
    NoneDue(q, time);
  }

  // A frame not later than the one on show is refused, and nothing else changes.
  lemma PushRefuses(q: Q.Queue, f: Q.Frame)
    requires q.current.Some? && f.target <= q.current.value.target
    ensures Q.Push(q, f) == q.(metrics := q.metrics.(selectionDrops := q.metrics.selectionDrops + 1))
  {
  }

  // The frames that are not later than a new one, and only these, are in front of it.
  ghost predicate GoesTo(frames: seq<Q.Frame>, f: Q.Frame, k: nat) {
    && k <= |frames|
    && (forall i :: 0 <= i < k ==> frames[i].target <= f.target)
    && (forall i :: k <= i < |frames| ==> f.target < frames[i].target)
  }

  // Any other is queued in its place, and a queue that was full lets go of its first one.
  lemma PushQueues(q: Q.Queue, f: Q.Frame, k: nat)
    requires Q.Ordered(q) && GoesTo(q.frames, f, k)
    requires q.current.Some? ==> q.current.value.target < f.target
    ensures var r, all, m := Q.Push(q, f), q.frames[..k] + [f] + q.frames[k..], q.metrics;
            if |q.frames| < q.capacity then r == q.(frames := all, metrics := m.(pushed := m.pushed + 1))
            else r == q.(frames := all[1..],
                         metrics := m.(pushed := m.pushed + 1, overflowDrops := m.overflowDrops + 1))
  {
    BoundIsCount(q.frames, f.target, k);
    assert Q.Longer(q, f) == q.frames[..k] + [f] + q.frames[k..];
  }

  // There is always such a place.
  lemma HasPlace(q: Q.Queue, f: Q.Frame)
    requires Q.Ordered(q)
    ensures exists k: nat :: GoesTo(q.frames, f, k)
  {
    var k := Q.UpperBound(q.frames, f.target);
    forall i | k <= i < |q.frames| ensures f.target < q.frames[i].target {
      if i > k { assert Q.Earlier(q.frames[k], q.frames[i]); }
    }
    assert GoesTo(q.frames, f, k);
  }

  // What is scheduled for a time: the last frame due then, or the one used before when none is.
  lemma SchedulesLastDue(o: Output, target: int, k: nat)
    requires Valid(o) && LastDue(o.queue, target, k)
    ensures BufferFor(o, target) == Some(o.queue.frames[k].payload)
  {
    SelectShowsLastDue(o.queue, target, k);
  }

  lemma SchedulesLastUsed(o: Output, target: int)
    requires Valid(o) && forall f :: f in o.queue.frames ==> !IsDue(o.queue, f, target)
    ensures BufferFor(o, target) == o.lastBuffer
  {
    SelectRepeats(o.queue, target);
  }

  // A frame accepted by the device is scheduled behind the others, with the next number and at the next stream time; a
  // frame refused, or none to show, schedules nothing. The next one starts where this one ends.
  lemma ScheduledFrameFollows(o: Output, target: int, accepted: bool)
    ensures var r, buffer := Schedule(o, target, accepted), BufferFor(o, target);
            r.lastBuffer == buffer && r.queue == Q.Select(o.queue, target)
    ensures var r, buffer := Schedule(o, target, accepted), BufferFor(o, target);
            buffer.Some? && accepted ==>
              r.scheduled == o.scheduled + [Scheduled(buffer.value, o.nextSequence, o.frameFlicks * o.nextSequence,
                                                      o.nextStreamTime, target)]
              && r.nextStreamTime == o.nextStreamTime + o.frameTime && r.nextSequence == o.nextSequence + 1
    ensures var r, buffer := Schedule(o, target, accepted), BufferFor(o, target);
            buffer.None? || !accepted ==>
              r.scheduled == o.scheduled && r.nextStreamTime == o.nextStreamTime && r.nextSequence == o.nextSequence
  {
  }

  // A completion takes its own frame off the list.
  lemma CompletionTakesOnlyIt(o: Output, k: nat)
    requires k < |o.scheduled|
    ensures Complete(o, k) == o.(scheduled := o.scheduled[..k] + o.scheduled[k + 1..])
  {
  }

  // The time to schedule for is the presentation less the mean latency, unless that is more than half a program frame
  // before the oldest queued frame; then that frame's own latency counts into the mean first.
  lemma RefillTargetIsMapped(o: Output, history: seq<int>, presentation: int, half: int, programFrameDuration: int)
    requires history != [] && half == programFrameDuration / 2
    ensures var mapped, r := presentation - Latency(history).value,
                             RefillTarget(o, history, Some(presentation), programFrameDuration);
            if o.queue.frames == [] || o.queue.frames[0].target <= mapped + half then r == Some(mapped)
            else r == Some(presentation
                           - Latency(history + [presentation - o.queue.frames[0].target]).value)
  {
    var mapped := presentation - Latency(history).value;
    HistoryCorrected(o, history, presentation, mapped, half, programFrameDuration);
  }

  lemma HistoryCorrected(o: Output, history: seq<int>, presentation: int, mapped: int, half: int,
                         programFrameDuration: int)
    requires Mapped(history, Some(presentation)) == Some(mapped) && half == programFrameDuration / 2
    ensures Corrected(o, history, Some(presentation), programFrameDuration) ==
            if o.queue.frames == [] || o.queue.frames[0].target <= mapped + half then history
            else history + [presentation - o.queue.frames[0].target]
  {
  }

  // Without a presentation time, or anything observed, there is none.
  lemma NothingToMap(o: Output, history: seq<int>, presentation: Option<int>, programFrameDuration: int)
    requires presentation.None? || history == []
    ensures RefillTarget(o, history, presentation, programFrameDuration).None?
  {
  }

  // While few latencies were observed, the time chosen is at most half a program frame before the oldest queued frame
  // or else nearer to it than the time that was mapped, and not past it.
  lemma RefillTargetNearsQueue(o: Output, history: seq<int>, presentation: int, half: int, programFrameDuration: int)
    requires 0 < |history| < LATENCY_OBSERVATION_COUNT && o.queue.frames != []
    requires half == programFrameDuration / 2 && half >= 0
    ensures var mapped, oldest := presentation - Latency(history).value, o.queue.frames[0].target;
            var r := RefillTarget(o, history, Some(presentation), programFrameDuration);
            r.Some? && (if oldest <= mapped + half then r.value == mapped else mapped <= r.value <= oldest)
  {
    if presentation - Latency(history).value + half < o.queue.frames[0].target {
      CorrectionApproaches(history, presentation, o.queue.frames[0].target);
    }
  }

  // Whatever that time is, the frames it refills go on in the device's stream where the last one scheduled so far ends,
  // one frame time apart, and in program time from that time on, one frame apart.
  lemma RefillGoesOn(c: Output, target: int, accepts: nat -> bool, n: nat, j: nat)
    requires Valid(c) && n == ScheduleRow(c, target, RefillCount(c), accepts).count && j < n
    ensures var r := ScheduleRow(c, target, RefillCount(c), accepts).output;
            |r.scheduled| == |c.scheduled| + n && r.scheduled[..|c.scheduled|] == c.scheduled
            && var s := r.scheduled[|c.scheduled| + j];
               s.streamTime == c.frameTime * (c.nextSequence + j) && s.sequence == c.nextSequence + j
               && s.target == target + c.frameFlicks * j
               && forall earlier :: earlier in c.scheduled ==>
                    earlier.sequence < s.sequence && earlier.streamTime == c.frameTime * earlier.sequence
  {
    var row := ScheduleRow(c, target, RefillCount(c), accepts);
    RowIsScheduled(c, target, RefillCount(c), accepts, row);
    assert Placed(row.output.scheduled[|c.scheduled| + j], c, target, j);
    assert c.frameTime * (c.nextSequence + j) == c.frameTime * c.nextSequence + c.frameTime * j;
    forall earlier | earlier in c.scheduled
      ensures earlier.sequence < c.nextSequence && earlier.streamTime == c.frameTime * earlier.sequence
    {
      assert OnDeviceGrid(c, earlier);
    }
  }
}
