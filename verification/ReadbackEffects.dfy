/** What each critical section of the readback stream does, slot by slot. */
module ReadbackEffects {
  import opened Common
  import opened ReadbackProtocol
  import opened ReadbackSafety

  // No other slot is touched, and no slot comes or goes.
  ghost predicate OnlyMoves(s: Stream, t: Stream, xs: set<SlotId>) {
    && t.slots == s.slots && t.record.Keys == s.record.Keys && t.active == s.active
    && forall y :: y in s.record && y !in xs ==> t.record[y] == s.record[y]
  }

  ghost predicate Moves(s: Stream, t: Stream, x: SlotId, to: SlotState) {
    OnlyMoves(s, t, {x}) && x in t.record && t.record[x].state == to
  }

  // The free list after a slot has been given back: the slot is last, or the closed stream forgets it.
  ghost function FreeWith(s: Stream, x: SlotId): seq<SlotId> { if s.active then s.free + [x] else s.free }

  // A target is the first free slot, and the caller's alone.
  lemma AcquireHandsOut(s: Stream, retryAllowed: bool)
    requires Inv(s) && s.active && s.free != []
    ensures var t, x := Acquire(s, retryAllowed), s.free[0];
            x in s.record && s.record[x].state == Free && Moves(s, t, x, Rendering) && t.record[x].targets == 1
            && t.free == s.free[1..] && t.ready == s.ready && t.activeTargets == s.activeTargets + 1
            && t.counts == s.counts
  {
    assert s.free[0] in s.free && SlotOk(s, s.free[0]);
  }

  // Without a free slot it is a miss, and one more slot is asked for when there is room for one, none is on its way and
  // the last failure is long enough ago.
  lemma AcquireMissesAndAsks(s: Stream, retryAllowed: bool)
    requires s.free == [] || !s.active
    ensures var t := Acquire(s, retryAllowed);
            var asks := |s.slots| + s.pendingAllocations < s.maxSlots && s.pendingAllocations == 0 && retryAllowed;
            t.record == s.record && t.free == s.free && t.ready == s.ready
            && t.counts.acquireMisses == s.counts.acquireMisses + One(s.active)
            && t.pendingAllocations == s.pendingAllocations + One(s.active && asks)
            && t.worker.allocatePosted == s.worker.allocatePosted + One(s.active && asks)
  {
  }

  lemma SubmitQueues(s: Stream, x: SlotId)
    requires Inv(s) && x in s.record && s.record[x].targets > 0
    ensures var t := SubmitTarget(s, x);
            if s.active then Moves(s, t, x, Queued) && Posted(t, Readback(x)) && t.activeTargets == s.activeTargets - 1
                             && t.free == s.free && t.ready == s.ready
            else t == s
  {
    assert SlotOk(s, x);
  }

  // A target given up without a submission frees its slot.
  lemma ReturnTargetFrees(s: Stream, x: SlotId)
    requires Inv(s) && x in s.record && s.record[x].targets > 0
    ensures var t := ReturnTarget(s, x);
            Moves(s, t, x, Free) && t.free == FreeWith(s, x) && t.ready == s.ready
            && t.activeTargets == s.activeTargets - 1
  {
    assert SlotOk(s, x);
  }

  lemma ReturnFrameFrees(s: Stream, x: SlotId)
    requires Inv(s) && x in s.record && s.record[x].frames > 0
    ensures var t := ReturnFrame(s, x);
            Moves(s, t, x, Free) && t.free == FreeWith(s, x) && t.ready == s.ready
            && t.activeFrames == s.activeFrames - 1
  {
    assert SlotOk(s, x);
  }

  // The oldest completed transfer is read first, and the others keep their order.
  lemma TakeOldestReads(s: Stream)
    requires Inv(s)
    ensures var t := TakeOldest(s);
            if s.active && s.ready != []
            then Moves(s, t, s.ready[0], CpuReading) && t.ready == s.ready[1..] && t.free == s.free
                 && t.activeFrames == s.activeFrames + 1 && t.record[s.ready[0]].frames == 1
            else t == s
  {
    if s.active && s.ready != [] {
      assert s.ready[0] in s.ready && SlotOk(s, s.ready[0]);
    }
  }

  // The latest completed transfer is read, and the ones it overtakes are free again, in their order.
  lemma TakeLatestReads(s: Stream)
    requires Inv(s)
    ensures var t := TakeLatest(s);
            if s.active && s.ready != []
            then var x, passed := s.ready[|s.ready| - 1], s.ready[..|s.ready| - 1];
                 x in t.record && t.record[x].state == CpuReading && t.record[x].frames == 1
                 && (forall y :: y in passed ==> y in t.record && t.record[y] == s.record[y].(state := Free))
                 && OnlyMoves(s, t, Elements(s.ready)) && t.ready == [] && t.free == s.free + passed
                 && t.activeFrames == s.activeFrames + 1
            else t == s
  {
    if s.active && s.ready != [] {
      var x := s.ready[|s.ready| - 1];
      assert x in s.ready && SlotOk(s, x);
      LastSplits(s);
    }
  }

  lemma StartedReadbackStays(s: Stream, x: SlotId)
    requires Inv(s) && s.worker.reading.None? && x in s.record && s.record[x].tasks > 0
    ensures var t := StartReadback(s, x);
            Moves(s, t, x, Queued) && t.worker.reading == Some(x) && t.free == s.free && t.ready == s.ready
  {
    assert SlotOk(s, x);
  }

  // A transfer that ends well on an open stream is the last completed one; any other frees its slot. Failures and
  // completions are counted.
  lemma EndedReadbackMoves(s: Stream, succeeded: bool)
    requires Inv(s) && s.worker.reading.Some?
    ensures var x, t := s.worker.reading.value, EndReadback(s, succeeded);
            t.worker.reading.None?
            && t.counts.transferFailures == s.counts.transferFailures + One(!succeeded)
            && t.counts.transfersCompleted == s.counts.transfersCompleted + One(succeeded && s.active)
            && if succeeded && s.active then Moves(s, t, x, Ready) && t.ready == s.ready + [x] && t.free == s.free
               else Moves(s, t, x, Free) && t.free == FreeWith(s, x) && t.ready == s.ready
  {
  }

  lemma AllocationJoins(s: Stream, outcome: Allocation)
    requires Inv(s) && Enabled(s, RunAllocate(outcome))
    ensures var t := AllocateSlot(s, outcome);
            t.pendingAllocations == s.pendingAllocations - 1
            && (forall y :: y in s.record ==> y in t.record && t.record[y] == s.record[y])
            && t.allocationFailed == (outcome.Failed? || (s.allocationFailed && !(outcome.Made? && s.active)))
            && (if outcome.Made? && s.active
                then t.slots == s.slots + [outcome.slot] && t.free == s.free + [outcome.slot]
                     && t.record[outcome.slot] == NEW_SLOT
                else t.slots == s.slots && t.free == s.free)
            && (outcome.Made? ==> t.worker.released[outcome.slot] ==
                                  s.worker.released[outcome.slot] + One(!s.active))
  {
  }
}
