/** The readback stream, its render targets and its frames as the objects the source updates in place. */
module ReadbackStream {
  import opened Common
  import opened ReadbackProtocol

  class ReadbackStream {
    const maxSlots: nat
    var slots: seq<SlotId>
    var record: map<SlotId, Slot>
    var freeSlots: seq<SlotId>
    var readySlots: seq<SlotId>
    var pendingAllocations: int
    var activeTargets: int
    var activeFrames: int
    var allocationFailed: bool
    var active: bool
    var counts: Counts
    var worker: Worker

    ghost function View(): Stream
      reads this
    {
      Stream(maxSlots, slots, record, freeSlots, readySlots, pendingAllocations, activeTargets, activeFrames,
             allocationFailed, active, counts, worker)
    }

    constructor (maxSlots: nat, initialSlots: nat)
      requires 0 < maxSlots && initialSlots <= maxSlots
      ensures View() == Init(maxSlots, initialSlots)
    {
      this.maxSlots := maxSlots;
      slots, record, freeSlots, readySlots := [], map[], [], [];
      pendingAllocations, activeTargets, activeFrames := initialSlots, 0, 0;
      allocationFailed, active, counts := false, true, Counts(0, 0, 0);
      worker := Worker(initialSlots, 0, 0, 0, None, {}, multiset{}, false);
    }

    // The slot is handed out as a target when the texture could be acquired for rendering, and goes back otherwise.
    method TryAcquireRenderTarget(retryAllowed: bool, textureAcquired: bool) returns (slot: Option<SlotId>)
      requires Inv(View())
      modifies this
      ensures slot == if active && old(freeSlots) != [] && textureAcquired then Some(old(freeSlots[0])) else None
      ensures slot.Some? || !old(active) || old(freeSlots) == [] ==> View() == Acquire(old(View()), retryAllowed)
      ensures old(active) && old(freeSlots) != [] && !textureAcquired ==>
                old(freeSlots[0]) in Acquire(old(View()), retryAllowed).record
                && Acquire(old(View()), retryAllowed).record[old(freeSlots[0])].targets > 0
                && View() == ReturnTarget(Missed(Acquire(old(View()), retryAllowed)), old(freeSlots[0]))
    {
      if !active {
        return None;
      }
      if freeSlots == [] {
        if |slots| + pendingAllocations < maxSlots && pendingAllocations == 0 && retryAllowed {
          pendingAllocations := pendingAllocations + 1;
          worker := worker.(allocatePosted := worker.allocatePosted + 1);
        }
        counts := counts.(acquireMisses := counts.acquireMisses + 1);
        return None;
      }
      var x := freeSlots[0];
      freeSlots := freeSlots[1..];
      record := record[x := NEW_SLOT.(state := Rendering, targets := 1)];
      activeTargets := activeTargets + 1;
      if !textureAcquired {
        counts := counts.(acquireMisses := counts.acquireMisses + 1);
        DropTargetOf(x);
        return None;
      }
      return Some(x);
    }

    method DropTargetOf(x: SlotId)
      requires x in record && record[x].targets > 0
      modifies this
      ensures View() == ReturnTarget(old(View()), x)
    {
      var r := record[x];
      r := r.(targets := r.targets - 1);
      if r.state == Rendering {
        activeTargets := activeTargets - 1;
        r := r.(state := Free);
        if active {
          freeSlots := freeSlots + [x];
        }
      }
      record := record[x := r];
    }

    method DropFrameOf(x: SlotId)
      requires x in record && record[x].frames > 0
      modifies this
      ensures View() == ReturnFrame(old(View()), x)
    {
      var r := record[x];
      r := r.(frames := r.frames - 1);
      if r.state == CpuReading {
        activeFrames := activeFrames - 1;
        r := r.(state := Free);
        if active {
          freeSlots := freeSlots + [x];
        }
      }
      record := record[x := r];
    }

    method SubmitSlot(x: SlotId) returns (submitted: bool)
      requires x in record && record[x].targets > 0
      modifies this
      ensures submitted == (old(active) && old(record)[x].state == Rendering)
      ensures View() == SubmitTarget(old(View()), x)
    {
      var r := record[x];
      if !active || r.state != Rendering {
        return false;
      }
      record := record[x := r.(state := Queued, targets := r.targets - 1, posted := r.posted + 1)];
      activeTargets := activeTargets - 1;
      return true;
    }

    method TryConsumeOldest() returns (frame: Option<SlotId>)
      requires Queues(View())
      modifies this
      ensures frame == if active && old(readySlots) != [] then Some(old(readySlots[0])) else None
      ensures View() == TakeOldest(old(View()))
    {
      if !active || readySlots == [] {
        return None;
      }
      var selected := readySlots[0];
      assert Released(record, []) == record;
      assert freeSlots + [] == freeSlots;
      readySlots := readySlots[1..];
      record := record[selected := record[selected].(state := CpuReading, frames := record[selected].frames + 1)];
      activeFrames := activeFrames + 1;
      return Some(selected);
    }

    // Every ready slot but the last goes back to the free list.
    method TryConsumeLatest() returns (frame: Option<SlotId>)
      requires Queues(View())
      modifies this
      ensures frame == if active && old(readySlots) != [] then Some(old(readySlots[|readySlots| - 1])) else None
      ensures View() == TakeLatest(old(View()))
    {
      if !active || readySlots == [] {
        return None;
      }
      var selected, left, longer := PassOver(readySlots, record, freeSlots);
      assert selected !in readySlots[..|readySlots| - 1];
      readySlots, freeSlots := [], longer;
      record := left[selected := left[selected].(state := CpuReading, frames := left[selected].frames + 1)];
      activeFrames := activeFrames + 1;
      return Some(selected);
    }

    method Close()
      modifies this
      ensures View() == CloseStream(old(View()))
    {
      active := false;
      worker := worker.(destroyPosted := worker.destroyPosted + 1);
    }

    // The stream is looked at before the allocation and again after it, when it may have been closed meanwhile.
    method AllocateOne(outcome: Allocation)
      requires worker.allocateTasks > 0 && (outcome.Abandoned? ==> !active)
      modifies this
      ensures View() == AllocateSlot(old(View()), outcome)
    {
      worker := worker.(allocateTasks := worker.allocateTasks - 1);
      pendingAllocations := pendingAllocations - 1;
      if outcome.Abandoned? {
        return;
      }
      if outcome.Failed? {
        allocationFailed := true;
        return;
      }
      var made := outcome.slot;
      worker := worker.(created := worker.created + {made});
      if active {
        allocationFailed := false;
        slots, freeSlots := slots + [made], freeSlots + [made];
        record := record[made := NEW_SLOT];
      } else {
        worker := worker.(released := worker.released + multiset{made});
      }
    }

    method BeginReadbackSlot(x: SlotId)
      requires x in record && record[x].tasks > 0
      modifies this
      ensures View() == StartReadback(old(View()), x)
    {
      record := record[x := record[x].(tasks := record[x].tasks - 1)];
      worker := worker.(reading := Some(x));
    }

    method FinishReadbackSlot(succeeded: bool)
      requires worker.reading.Some? && worker.reading.value in record
      modifies this
      ensures View() == EndReadback(old(View()), succeeded)
    {
      var x := worker.reading.value;
      worker := worker.(reading := None);
      if !succeeded || !active {
        if !succeeded {
          counts := counts.(transferFailures := counts.transferFailures + 1);
        }
        record := record[x := record[x].(state := Free)];
        if active {
          freeSlots := freeSlots + [x];
        }
        return;
      }
      counts := counts.(transfersCompleted := counts.transfersCompleted + 1);
      record := record[x := record[x].(state := Ready)];
      readySlots := readySlots + [x];
    }

    method AnyInFlight() returns (inFlight: bool)
      requires Queues(View())
      ensures inFlight == InFlight(View())
    {
      inFlight := false;
      for i := 0 to |slots|
        invariant inFlight == exists j :: 0 <= j < i && record[slots[j]].state in {Rendering, Queued, CpuReading}
      {
        inFlight := inFlight || record[slots[i]].state in {Rendering, Queued, CpuReading};
      }
      if InFlight(View()) {
        var x :| x in record && record[x].state in {Rendering, Queued, CpuReading};
        assert x in slots;
      }
    }

    method DestroyStream() returns (done: bool)
      requires Queues(View()) && worker.destroyTasks > 0
      modifies this
      ensures View() == Destroy(old(View()))
      ensures done == !DestroyBlocked(old(View()))
    {
      var inFlight := AnyInFlight();
      if pendingAllocations != 0 || activeTargets != 0 || activeFrames != 0 || inFlight {
        return false;
      }
      worker := worker.(destroyTasks := worker.destroyTasks - 1, released := worker.released + multiset(slots),
                        destroyed := true);
      slots, record, freeSlots, readySlots := [], map[], [], [];
      return true;
    }
  }

  // Walks the ready slots, freeing each for the next, and stops at the last.
  method PassOver(ready: seq<SlotId>, record: map<SlotId, Slot>, free: seq<SlotId>)
    returns (selected: SlotId, left: map<SlotId, Slot>, longer: seq<SlotId>)
    requires ready != [] && Distinct(ready) && forall x :: x in ready ==> x in record
    ensures selected == ready[|ready| - 1]
    ensures left == Released(record, ready[..|ready| - 1])
    ensures longer == free + ready[..|ready| - 1]
  {
    selected, left, longer := ready[0], record, free;
    assert Released(record, ready[..0]) == record;
    for k := 1 to |ready|
      invariant selected == ready[k - 1]
      invariant left == Released(record, ready[..k - 1])
      invariant longer == free + ready[..k - 1]
    {
      ReleaseOneMore(ready, record, k);
      assert ready[..k] == ready[..k - 1] + [ready[k - 1]];
      left := left[selected := left[selected].(state := Free)];
      longer := longer + [selected];
      selected := ready[k];
    }
  }

  lemma ReleaseOneMore(xs: seq<SlotId>, record: map<SlotId, Slot>, k: nat)
    requires Distinct(xs) && 0 < k <= |xs| && forall x :: x in xs ==> x in record
    ensures var last := xs[k - 1];
            var most := Released(record, xs[..k - 1]);
            last in most && most[last := most[last].(state := Free)] == Released(record, xs[..k])
  {
    assert xs[..k] == xs[..k - 1] + [xs[k - 1]];
  }

  // A caller's handle on a slot to render into; a moved-from handle is empty.
  class ReadbackTarget {
    var slot: Option<SlotId>
    var submitted: bool

    ghost predicate Live(stream: ReadbackStream)
      reads this, stream
    {
      slot.Some? && !submitted ==> slot.value in stream.record && stream.record[slot.value].targets > 0
    }

    constructor (slot: Option<SlotId>)
      ensures this.slot == slot && !submitted
    {
      this.slot, submitted := slot, false;
    }

    method Submit(stream: ReadbackStream)
      requires Live(stream)
      modifies this`submitted, stream
      ensures Live(stream) && slot == old(slot)
      ensures stream.View() ==
              if slot.Some? && !old(submitted) then SubmitTarget(old(stream.View()), slot.value)
              else old(stream.View())
      ensures submitted == (old(submitted) || (slot.Some? && old(stream.active)
                                               && old(stream.record)[slot.value].state == Rendering))
    {
      if slot.Some? && !submitted {
        submitted := stream.SubmitSlot(slot.value);
      }
    }

    method Destroy(stream: ReadbackStream)
      requires Live(stream)
      modifies stream
      ensures stream.View() == if slot.Some? && !submitted then ReturnTarget(old(stream.View()), slot.value)
                               else old(stream.View())
    {
      if slot.Some? && !submitted {
        stream.DropTargetOf(slot.value);
      }
    }

    // Move assignment gives up this handle's lease and takes over the other's, which is left empty.
    method MoveFrom(other: ReadbackTarget, stream: ReadbackStream)
      requires Live(stream) && other.Live(stream)
      modifies this, other, stream
      ensures other == this ==> stream.View() == old(stream.View()) && slot == old(slot) && submitted == old(submitted)
      ensures other != this ==>
                && stream.View() == (if old(slot).Some? && !old(submitted)
                                     then ReturnTarget(old(stream.View()), old(slot).value) else old(stream.View()))
                && slot == old(other.slot) && submitted == old(other.submitted)
                && other.slot == None && other.submitted
    {
      if other != this {
        Destroy(stream);
        slot, submitted := other.slot, other.submitted;
        other.slot, other.submitted := None, true;
      }
    }
  }

  // The CPU's handle on a slot it reads.
  class ReadbackFrame {
    var slot: Option<SlotId>

    ghost predicate Live(stream: ReadbackStream)
      reads this, stream
    {
      slot.Some? ==> slot.value in stream.record && stream.record[slot.value].frames > 0
    }

    constructor (slot: Option<SlotId>)
      ensures this.slot == slot
    {
      this.slot := slot;
    }

    method Destroy(stream: ReadbackStream)
      requires Live(stream)
      modifies stream
      ensures stream.View() == if slot.Some? then ReturnFrame(old(stream.View()), slot.value) else old(stream.View())
    {
      if slot.Some? {
        stream.DropFrameOf(slot.value);
      }
    }

    method MoveFrom(other: ReadbackFrame, stream: ReadbackStream)
      requires Live(stream) && other.Live(stream)
      modifies this, other, stream
      ensures other == this ==> stream.View() == old(stream.View()) && slot == old(slot)
      ensures other != this ==>
                && stream.View() == (if old(slot).Some? then ReturnFrame(old(stream.View()), old(slot).value)
                                     else old(stream.View()))
                && slot == old(other.slot) && other.slot == None
    {
      if other != this {
        Destroy(stream);
        slot := other.slot;
        other.slot := None;
      }
    }
  }
}
