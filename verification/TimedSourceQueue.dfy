/** The timed source queue as the object its threads share; each method is a step of SourceQueue. */
module TimedSourceQueue {
  import opened Common
  import opened MediaClock
  import opened SourceQueue
  import opened SourceQueueSafety

  class TimedSourceQueue {
    const config: QueueConfig
    const clock: MediaToProgramClock
    var pending: seq<Frame>
    var frames: seq<Aligned>
    var current: Option<Frame>
    var arrivalOffsetOrigin: Option<int>
    var discontinuityPending: bool
    var queuedFrames: int
    var readiness: map<nat, Readiness>
    var tally: Tally
    // the frames an advance has taken and not yet aligned, and the times it aligns them to
    var transit: seq<Frame>
    var alignPts: int
    var alignTarget: int
    ghost var history: History

    ghost function View(): Queue
      reads this, clock
    {
      Queue(clock.View(), pending, transit, alignPts, alignTarget, frames, current, arrivalOffsetOrigin,
            discontinuityPending, queuedFrames, readiness, tally, history)
    }

    ghost predicate Valid()
      reads this, clock
    {
      ValidQueueConfig(config) && clock.config == config.clock && Inv(config, View())
    }

    constructor (config: QueueConfig)
      requires ValidQueueConfig(config)
      ensures this.config == config && fresh(clock) && Valid() && View() == Init()
    {
      this.config := config;
      clock := new MediaToProgramClock(config.clock);
      pending, frames, current, arrivalOffsetOrigin, discontinuityPending := [], [], None, None, false;
      queuedFrames, readiness, tally, history := 0, map[], NO_TALLY, History({}, {}, []);
      transit, alignPts, alignTarget := [], 0, 0;
      InitInv(config);
    }

    method CancelFrames(ids: set<nat>)
      modifies this`readiness
      ensures readiness == CancelAll(old(readiness), ids)
    {
      readiness := CancelAll(readiness, ids);
    }

    method PushFrame(frame: Frame, observed: int)
      requires Enabled(config, View(), Action.PushFrame(frame, observed))
      modifies this
      ensures View() == Push(config, old(View()), frame, observed)
    {
      tally := tally.(pushed := tally.pushed + 1);
      history := history.(pushed := history.pushed + {frame.id});
      if observed >= config.capacity {
        tally := tally.(overflowDrops := tally.overflowDrops + 1);
        if |pending| == 0 {
          CancelFrames({frame.id});
          return;
        }
        CancelFrames({pending[0].id});
        pending := pending[1..];
      } else {
        queuedFrames := queuedFrames + 1;
      }
      pending := pending + [frame];
    }

    method ClearAligned(resetClock: bool)
      modifies this, clock
      ensures View() == ClearForDiscontinuity(old(View()), resetClock)
    {
      if resetClock {
        clock.Reset();
        arrivalOffsetOrigin := None;
      }
      ForgetFrames();
    }

    method ForgetFrames()
      modifies this
      ensures View() == ClearForDiscontinuity(old(View()), false)
    {
      readiness := CancelAll(readiness, AlignedIds(frames) + (if current.Some? then {current.value.id} else {}));
      tally := tally.(cleared := tally.cleared + |frames|, discontinuities := tally.discontinuities + 1);
      queuedFrames := queuedFrames - |frames|;
      frames, current, discontinuityPending := [], None, true;
      history := history.(commits := []);
    }

    method TakePendingFrames(pts: int, target: int)
      modifies this`transit, this`pending, this`alignPts, this`alignTarget
      ensures View() == TakePending(old(View()), pts, target)
    {
      transit, pending := pending, [];
      alignPts, alignTarget := pts, target;
    }

    method FixArrivalPhase()
      modifies this`arrivalOffsetOrigin
      ensures View() == FixPhase(old(View()))
    {
      if arrivalOffsetOrigin.None? && |transit| != 0 {
        var newest := FindNewest(transit);
        arrivalOffsetOrigin := Some(ArrivalPhase(newest.arrival - alignTarget, newest.sample.frameDuration));
      }
    }

    method StartAdvance(pts: int, target: int, programDiscontinuity: bool)
      requires transit == []
      modifies this, clock
      ensures View() == BeginAdvance(old(View()), pts, target, programDiscontinuity)
    {
      TakePendingFrames(pts, target);
      if programDiscontinuity {
        ClearAligned(true);
      }
      FixArrivalPhase();
    }

    method ObserveFrame()
      requires Valid() && transit != []
      modifies this, clock
      ensures View() == ObserveNext(config, old(View()))
    {
      var f := transit[0];
      var offset := f.arrival - alignTarget;
      var observation := clock.ObserveSample(f.sample, alignPts + offset - arrivalOffsetOrigin.value);
      if observation == Discontinuity {
        var phase := ArrivalPhase(offset, f.sample.frameDuration);
        arrivalOffsetOrigin := Some(phase);
        clock.Reset();
        var _ := RestartClock(f.sample, alignPts + offset - phase);
        ClearAligned(false);
      }
    }

    method RestartClock(sample: Sample, time: int) returns (observation: Observation)
      requires ValidQueueConfig(config) && clock.config == config.clock && clock.View() == RESET
      modifies clock
      ensures (clock.View(), observation) == Observe(config.clock, RESET, sample, time)
    {
      assert MaximumDeviation(config.clock) > 0.0;
      observation := clock.ObserveSample(sample, time);
    }

    method PlaceFrame()
      requires transit != []
      modifies this`transit, this`queuedFrames, this`tally, this`frames
      ensures View() == PlaceNext(config, old(View()))
    {
      var f := transit[0];
      var mapped := MapPts(clock.View(), f.sample.mediaPts);
      transit := transit[1..];
      if mapped.None? {
        queuedFrames := queuedFrames - 1;
        tally := tally.(unmappable := tally.unmappable + 1);
      } else {
        InsertFrame(f, mapped.value + config.playoutDelay + f.sample.frameDuration * config.playoutDelayFrames);
      }
    }

    method InsertFrame(f: Frame, pts: int)
      modifies this`frames
      ensures frames == Insert(old(frames), DueCount(old(frames), pts), Aligned(f, pts))
    {
      var k := CountDue(frames, pts);
      frames := frames[..k] + [Aligned(f, pts)] + frames[k..];
    }

    method AlignFrame()
      requires Valid() && transit != []
      modifies this, clock
      ensures Valid() && View() == AlignNext(config, old(View()))
    {
      AlignNextKeepsInv(config, View());
      ObserveFrame();
      PlaceFrame();
    }

    // Takes everything pending and aligns it, frame by frame.
    method Advance(pts: int, target: int, programDiscontinuity: bool)
      requires Valid() && transit == []
      modifies this, clock
      ensures Valid() && transit == []
      ensures View() == AdvanceAll(config, old(View()), pts, target, programDiscontinuity)
    {
      BeginAdvanceKeepsInv(config, View(), pts, target, programDiscontinuity);
      StartAdvance(pts, target, programDiscontinuity);
      AlignFrames();
    }

    method AlignFrames()
      requires Valid()
      modifies this, clock
      ensures Valid() && transit == [] && View() == AlignRest(config, old(View()))
    {
      ghost var begun := View();
      while |transit| != 0
        invariant Valid()
        invariant AlignRest(config, View()) == AlignRest(config, begun)
        decreases |transit|
      {
        AlignFrame();
      }
    }

    method SelectFrame(pts: int, tolerance: int) returns (ticket: Ticket)
      requires transit == []
      modifies this
      ensures (View(), ticket) == Select(config, old(View()), pts, tolerance)
    {
      var chosen := ChooseFrame(pts, tolerance);
      if chosen.Some? {
        ticket := SelectNewFrame(chosen.value);
      } else {
        ticket := SelectOldFrame();
      }
    }

    method ChooseFrame(pts: int, tolerance: int) returns (chosen: Option<Frame>)
      ensures chosen == Chosen(config, View(), pts, tolerance)
    {
      var due := CountDue(frames, pts + config.earlyTolerance + tolerance);
      if due == 0 {
        return None;
      }
      var newest := FindNewest(JustFrames(frames[..due]));
      return Some(newest);
    }

    // Cancels and erases every queued frame older than the chosen one, which the ticket names.
    method SelectNewFrame(chosen: Frame) returns (ticket: Ticket)
      modifies this
      ensures (View(), ticket) == SelectNew(old(View()), chosen)
    {
      var kept := KeepNewer(frames, chosen);
      var dropped := |frames| - |kept|;
      ticket := Ticket(Some(chosen), NewFrame, discontinuityPending);
      discontinuityPending := false;
      tally := tally.(selectionDrops := tally.selectionDrops + dropped);
      readiness := CancelAll(readiness, AlignedIds(frames) - AlignedIds(kept));
      frames := kept;
      queuedFrames := queuedFrames - dropped;
      history := history.(issued := history.issued + {chosen});
    }

    method SelectOldFrame() returns (ticket: Ticket)
      modifies this
      ensures (View(), ticket) == SelectOld(old(View()))
    {
      ticket := Ticket(current, if current.Some? then Repeat else Missing, discontinuityPending);
      discontinuityPending := false;
      if current.None? {
        tally := tally.(missing := tally.missing + 1);
      } else if |frames| == 0 {
        tally := tally.(repeated := tally.repeated + 1, starvationRepeats := tally.starvationRepeats + 1);
      } else {
        tally := tally.(repeated := tally.repeated + 1, timingRepeats := tally.timingRepeats + 1);
      }
    }

    method CommitFrame(ticket: Ticket) returns (committed: bool)
      requires transit == []
      modifies this
      ensures (View(), committed) == Commit(old(View()), ticket)
    {
      committed := false;
      if ticket.frame.Some? && ticket.frame.value.id in readiness && readiness[ticket.frame.value.id] == Ready {
        var f := ticket.frame.value;
        if ticket.selection == Repeat {
          committed := true;
        } else if ticket.selection == NewFrame {
          var match_ := FindFrame(frames, f);
          if match_.Some? {
            RemoveFrame(match_.value);
            current := Some(f);
            tally := tally.(committed := tally.committed + 1);
            history := history.(commits := history.commits + [f.sample.frameSequence]);
            committed := true;
          }
        }
      }
    }

    method RemoveFrame(i: nat)
      requires i < |frames|
      modifies this`frames, this`queuedFrames
      ensures frames == Splice(old(frames), i) && queuedFrames == old(queuedFrames) - 1
    {
      frames := frames[..i] + frames[i + 1..];
      queuedFrames := queuedFrames - 1;
    }

    method RetireTicket(ticket: Ticket) returns (retired: bool)
      requires transit == []
      modifies this
      ensures (View(), retired) == Retire(old(View()), ticket)
    {
      retired := false;
      if ticket.selection == NewFrame && ticket.frame.Some? {
        var f := ticket.frame.value;
        if f.id in readiness && !Terminal(readiness[f.id]) {
          readiness := readiness[f.id := Failed];
          retired := true;
          var match_ := FindFrame(frames, f);
          if match_.Some? {
            RemoveFrame(match_.value);
            tally := tally.(retired := tally.retired + 1);
          }
        }
      }
    }

    method FailTicket(ticket: Ticket)
      requires transit == []
      modifies this
      ensures View() == Fail(old(View()), ticket)
    {
      var done := RetireTicket(ticket);
      if done {
        tally := tally.(failures := tally.failures + 1);
      }
    }

    method CancelTicket(ticket: Ticket)
      requires transit == []
      modifies this
      ensures View() == Cancel(old(View()), ticket)
    {
      var done := RetireTicket(ticket);
      if done {
        tally := tally.(cancellations := tally.cancellations + 1);
      }
    }

    method Reset()
      requires transit == []
      modifies this, clock
      ensures View() == ClearForDiscontinuity(ResetPending(old(View())), true)
    {
      CancelFrames(Ids(pending));
      tally := tally.(cleared := tally.cleared + |pending|);
      queuedFrames := queuedFrames - |pending|;
      pending := [];
      ClearAligned(true);
    }
  }

  // Aligning all frames in transit, one after the other.
  ghost function AlignRest(cfg: QueueConfig, q: Queue): (t: Queue)
    requires ValidQueueConfig(cfg) && Inv(cfg, q)
    ensures Inv(cfg, t) && t.transit == []
    decreases |q.transit|
  {
    if q.transit == [] then q
    else
      AlignNextKeepsInv(cfg, q);
      AlignRest(cfg, AlignNext(cfg, q))
  }

  ghost function AdvanceAll(cfg: QueueConfig, q: Queue, pts: int, target: int, programDiscontinuity: bool): (t: Queue)
    requires ValidQueueConfig(cfg) && Inv(cfg, q) && q.transit == []
    ensures Inv(cfg, t) && t.transit == []
  {
    BeginAdvanceKeepsInv(cfg, q, pts, target, programDiscontinuity);
    AlignRest(cfg, BeginAdvance(q, pts, target, programDiscontinuity))
  }

  method FindNewest(list: seq<Frame>) returns (newest: Frame)
    requires list != []
    ensures newest == Newest(list)
  {
    newest := list[0];
    assert list[..1] == [list[0]];
    for i := 1 to |list|
      invariant newest == Newest(list[..i])
    {
      assert list[..i + 1][..i] == list[..i];
      if Later(list[i].sample, newest.sample) {
        newest := list[i];
      }
    }
    assert list[..|list|] == list;
  }

  // Where std::upper_bound puts a time among frames in time order; how far a selection's scan gets.
  method CountDue(list: seq<Aligned>, limit: int) returns (k: nat)
    ensures k == DueCount(list, limit)
  {
    k := 0;
    while k < |list| && list[k].programPts <= limit
      invariant k <= |list| && forall i :: 0 <= i < k ==> list[i].programPts <= limit
    {
      k := k + 1;
    }
    DueCountIs(list, limit, k);
  }

  lemma DueCountIs(list: seq<Aligned>, limit: int, k: nat)
    requires k <= |list| && forall i :: 0 <= i < k ==> list[i].programPts <= limit
    requires k < |list| ==> list[k].programPts > limit
    ensures DueCount(list, limit) == k
  {
  }

  method KeepNewer(list: seq<Aligned>, chosen: Frame) returns (kept: seq<Aligned>)
    ensures kept == Filter(list, NotOlderThan(chosen))
  {
    kept := [];
    for i := 0 to |list|
      invariant kept + Filter(list[i..], NotOlderThan(chosen)) == Filter(list, NotOlderThan(chosen))
    {
      FilterHead(list[i..], NotOlderThan(chosen));
      assert list[i..][1..] == list[i + 1..];
      if list[i].frame == chosen || !Later(chosen.sample, list[i].frame.sample) {
        kept := kept + [list[i]];
      }
    }
  }

  lemma FilterHead(list: seq<Aligned>, keep: Aligned -> bool)
    requires list != []
    ensures Filter(list, keep) == (if keep(list[0]) then [list[0]] else []) + Filter(list[1..], keep)
  {
  }

  method FindFrame(list: seq<Aligned>, f: Frame) returns (found: Option<nat>)
    ensures found == FirstIndex(list, IsFrame(f))
    ensures found.Some? ==> found.value < |list|
  {
    for i := 0 to |list|
      invariant forall j :: 0 <= j < i ==> list[j].frame != f
    {
      if list[i].frame == f {
        FirstIndexIs(list, IsFrame(f), i);
        return Some(i);
      }
    }
    return None;
  }
}
