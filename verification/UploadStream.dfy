/**
 The upload stream and its leases as the objects the source updates in place. Every method is one critical
 section; its contract is the step of the protocol that UploadProtocol defines, so UploadSafety speaks about
 every interleaving of these methods.
 */
module UploadStream {
  import opened Common
  import opened UploadProtocol

  // The worker's side: its tasks that name no slot, those about to be enqueued, the upload it is busy with,
  // and the history of slots made and released.
  datatype Worker = Worker(
    allocateTasks: nat,
    allocatePosted: nat,
    destroyTasks: nat,
    destroyPosted: nat,
    uploading: Option<SlotId>,
    created: set<SlotId>,
    released: multiset<SlotId>,
    destroyed: bool)

  class UploadStream {
    const maxSlots: nat
    var slots: seq<SlotId>
    var record: map<SlotId, Slot>
    var freeSlots: seq<SlotId>
    var readySlots: seq<SlotId>
    var currentSlot: Option<SlotId>
    var pendingAllocations: int
    var activeLeases: int
    var nextUploadIdValue: nat
    var retainedUploadId: nat
    var allocationFailed: bool
    var active: bool
    var worker: Worker

    ghost function View(): Stream
      reads this
    {
      Stream(maxSlots, slots, record, freeSlots, readySlots, currentSlot, pendingAllocations, activeLeases,
             nextUploadIdValue, retainedUploadId, allocationFailed, active,
             worker.allocateTasks, worker.allocatePosted, worker.destroyTasks, worker.destroyPosted,
             worker.uploading, worker.created, worker.released, worker.destroyed)
    }

    constructor (maxSlots: nat, initialSlots: nat)
      requires 0 < maxSlots && initialSlots <= maxSlots
      ensures View() == Init(maxSlots, initialSlots)
    {
      this.maxSlots := maxSlots;
      slots, record, freeSlots, readySlots, currentSlot := [], map[], [], [], None;
      pendingAllocations, activeLeases, nextUploadIdValue, retainedUploadId := initialSlots, 0, 0, 0;
      allocationFailed, active := false, true;
      worker := Worker(initialSlots, 0, 0, 0, None, {}, multiset{}, false);
    }

    method TryAcquireUploadBuffer(retryAllowed: bool) returns (slot: Option<SlotId>)
      requires Queues(View())
      modifies this
      ensures View() == Acquire(old(View()), retryAllowed)
      ensures slot == if active && old(freeSlots) != [] then Some(old(freeSlots[0])) else None
    {
      slot := None;
      if !active {
        return;
      }
      if |freeSlots| != 0 {
        var x := freeSlots[0];
        freeSlots := freeSlots[1..];
        nextUploadIdValue := nextUploadIdValue + 1;
        record := record[x := Slot(CpuWriting, false, false, nextUploadIdValue, NO_CLAIMS.(writing := 1))];
        activeLeases := activeLeases + 1;
        slot := Some(x);
      } else if |slots| + pendingAllocations < maxSlots && pendingAllocations == 0 && retryAllowed {
        pendingAllocations := pendingAllocations + 1;
        worker := worker.(allocatePosted := worker.allocatePosted + 1);
      }
    }

    method SubmitSlot(x: SlotId) returns (accepted: bool)
      requires x in record && record[x].claims.writing > 0
      modifies this`record
      ensures View() == SubmitLease(old(View()), x)
      ensures accepted == (active && old(record)[x].state == CpuWriting)
    {
      var r := record[x];
      accepted := active && r.state == CpuWriting;
      if accepted {
        var c := r.claims;
        c := c.(writing := c.writing - 1, submitted := c.submitted + 1, uploadPosted := c.uploadPosted + 1);
        record := record[x := r.(state := Queued, claims := c)];
      }
    }

    method ReturnUnsubmittedLease(x: SlotId)
      requires x in record && record[x].claims.writing > 0
      modifies this
      ensures View() == Drop(old(View()), x, false)
    {
      var r := record[x];
      var left := r.claims.(writing := r.claims.writing - 1);
      if r.state == CpuWriting {
        activeLeases := activeLeases - 1;
        record := record[x := r.(leaseReleased := true, state := Free, claims := left)];
        if active {
          freeSlots := freeSlots + [x];
        }
      } else {
        record := record[x := r.(claims := left)];
      }
    }

    method ReleaseSubmittedLease(x: SlotId)
      requires x in record && record[x].claims.submitted > 0
      modifies this
      ensures View() == Drop(old(View()), x, true)
    {
      var r := record[x];
      if !r.leaseReleased {
        activeLeases := activeLeases - 1;
      }
      record := record[x := r.(leaseReleased := true, claims := r.claims.(submitted := r.claims.submitted - 1))];
    }

    method MarkReclaim(x: SlotId)
      requires x in record
      modifies this`record
      ensures record == old(record)[x := ToReclaim(old(record)[x])]
    {
      var c := record[x].claims;
      record := record[x := record[x].(state := Reclaim, claims := c.(reclaimPosted := c.reclaimPosted + 1))];
    }

    // The latest of the oldest completed uploads up to an id becomes current, the earlier ones go to reclaim.
    method SelectLatestCompletedThrough(uploadId: nat) returns (result: Option<SlotId>)
      requires Queues(View())
      modifies this
      ensures View() == SelectLatestThrough(old(View()), uploadId)
      ensures result == if active then currentSlot else None
    {
      result := None;
      if active {
        var taken, next, reclaim := LeadingUploads(readySlots, record, uploadId);
        if next.Some? {
          TakeUp(next.value, reclaim, readySlots[taken..]);
        }
        result := currentSlot;
      }
    }

    // One completed upload becomes current; the retired ones and the old current one go to reclaim.
    method TakeUp(next: SlotId, retired: seq<SlotId>, remaining: seq<SlotId>)
      requires Queues(View()) && next in readySlots && next !in retired
      requires Distinct(retired) && forall x :: x in retired ==> x in readySlots
      modifies this`record, this`readySlots, this`currentSlot, this`retainedUploadId
      ensures View() == Promote(old(View()), next, retired, remaining)
    {
      PromoteByParts(View(), next, retired, remaining);
      RetireAll(retired);
      readySlots := remaining;
      MakeCurrent(next);
    }

    method RetireAll(xs: seq<SlotId>)
      requires Distinct(xs) && forall x :: x in xs ==> x in record
      modifies this`record
      ensures record == Retire(old(record), xs)
    {
      ghost var before := record;
      var i := 0;
      while i < |xs|
        invariant i <= |xs| && record == Retire(before, xs[..i])
      {
        MarkReclaim(xs[i]);
        RetireOneMore(xs, before, i + 1);
        i := i + 1;
      }
      assert xs[..i] == xs;
    }

    // Exactly one completed upload becomes current; every other completed one goes to reclaim.
    method SelectCompletedUpload(uploadId: nat) returns (result: Option<SlotId>)
      requires Queues(View())
      modifies this
      ensures View() == SelectUpload(old(View()), uploadId)
      ensures result == if active && FirstIndex(old(readySlots), HasId(old(record), uploadId)).Some? then currentSlot
                        else None
    {
      result := None;
      if active {
        var selected := FindUpload(readySlots, record, uploadId);
        if selected.Some? {
          var next := readySlots[selected.value];
          assert readySlots == readySlots[..selected.value] + [next] + readySlots[selected.value + 1..];
          TakeUp(next, readySlots[..selected.value] + readySlots[selected.value + 1..], []);
          result := currentSlot;
        }
      }
    }

    method RetireCurrentSlot()
      requires currentSlot.Some? ==> currentSlot.value in record
      modifies this`record, this`currentSlot
      ensures currentSlot == None && record == Retire(old(record), OptionSeq(old(currentSlot)))
    {
      ghost var before, leaving := record, OptionSeq(currentSlot);
      if currentSlot.Some? {
        MarkReclaim(currentSlot.value);
        currentSlot := None;
      }
      assert record == Retire(before, leaving);
    }

    method MakeCurrent(next: SlotId)
      requires next in record && (currentSlot.Some? ==> currentSlot.value in record && currentSlot.value != next)
      modifies this`record, this`currentSlot, this`retainedUploadId
      ensures currentSlot == Some(next) && retainedUploadId == old(record)[next].uploadId
      ensures record == Retire(old(record), OptionSeq(old(currentSlot)))[next := old(record)[next].(state := Current)]
    {
      RetireCurrentSlot();
      record := record[next := record[next].(state := Current)];
      retainedUploadId := record[next].uploadId;
      currentSlot := Some(next);
    }

    method DiscardCompletedUpload(uploadId: nat)
      requires Queues(View())
      modifies this
      ensures View() == DiscardUpload(old(View()), uploadId)
    {
      if active {
        var found := FindUpload(slots, record, uploadId);
        if found.Some? {
          Discard(slots[found.value]);
        }
      }
    }

    method Discard(x: SlotId)
      requires x in record
      modifies this`record, this`readySlots
      ensures View() == DiscardSlot(old(View()), x)
    {
      if record[x].state == Queued {
        record := record[x := record[x].(discardRequested := true)];
      } else if record[x].state == Ready {
        var k := FindSlot(readySlots, x);
        if k.Some? {
          EraseIsSplice(readySlots, k.value);
          readySlots := readySlots[..k.value] + readySlots[k.value + 1..];
          record := record[x := record[x].(discardRequested := true)];
          MarkReclaim(x);
        }
      }
    }

    // The stream's destructor: retire the current slot and ask the worker for destruction.
    method Close()
      requires Queues(View()) && active
      modifies this
      ensures View() == CloseStream(old(View()))
    {
      active := false;
      RetireCurrentSlot();
      worker := worker.(destroyPosted := worker.destroyPosted + 1);
    }

    method Allocated(succeeded: bool, made: SlotId)
      requires worker.allocateTasks > 0 && made !in worker.created
      modifies this
      ensures View() == AllocateSlot(old(View()), succeeded, made)
    {
      worker := worker.(allocateTasks := worker.allocateTasks - 1,
                        created := if succeeded then worker.created + {made} else worker.created,
                        released := if succeeded && !active then worker.released + multiset{made} else worker.released);
      pendingAllocations := pendingAllocations - 1;
      if !succeeded {
        allocationFailed := true;
      } else if active {
        allocationFailed := false;
        slots := slots + [made];
        record := record[made := NEW_SLOT];
        freeSlots := freeSlots + [made];
      }
    }

    // upload_slot up to the transfer: a closed stream's upload goes straight to reclaim.
    method BeginUploadSlot(x: SlotId)
      requires x in record && record[x].claims.upload > 0
      modifies this
      ensures View() == StartUpload(old(View()), x)
    {
      var r := record[x];
      var c := r.claims.(upload := r.claims.upload - 1);
      if !active {
        record := record[x := r.(state := Reclaim, claims := c.(reclaim := c.reclaim + 1))];
        return;
      }
      record := record[x := r.(claims := c)];
      worker := worker.(uploading := Some(x));
    }

    // upload_slot after the transfer.
    method FinishUploadSlot(succeeded: bool)
      requires worker.uploading.Some? && worker.uploading.value in record
      modifies this
      ensures View() == EndUpload(old(View()), succeeded)
    {
      var x := worker.uploading.value;
      var r := record[x];
      worker := worker.(uploading := None);
      if !succeeded || !active || r.discardRequested {
        record := record[x := r.(state := Reclaim, claims := r.claims.(reclaim := r.claims.reclaim + 1))];
        return;
      }
      record := record[x := r.(state := Ready)];
      readySlots := readySlots + [x];
    }

    // False keeps the task for a later try.
    method ReclaimSlot(x: SlotId, rendered: bool) returns (done: bool)
      requires x in record && record[x].claims.reclaim > 0
      modifies this
      ensures View() == Reclaimed(old(View()), x, rendered)
      ensures done == (old(record)[x].leaseReleased && rendered)
    {
      var r := record[x];
      if !r.leaseReleased || !rendered {
        return false;
      }
      record := record[x := r.(state := Free, claims := r.claims.(reclaim := r.claims.reclaim - 1))];
      if active {
        freeSlots := freeSlots + [x];
      }
      return true;
    }

    method AnyInFlight() returns (inFlight: bool)
      requires Queues(View())
      ensures inFlight == InFlight(View())
    {
      inFlight := false;
      var i := 0;
      while i < |slots|
        invariant i <= |slots|
        invariant inFlight == exists j :: 0 <= j < i && record[slots[j]].state in {CpuWriting, Queued, Reclaim}
      {
        if record[slots[i]].state in {CpuWriting, Queued, Reclaim} {
          inFlight := true;
        }
        i := i + 1;
      }
      InFlightByPosition(View());
    }

    method DestroyStream() returns (done: bool)
      requires Queues(View()) && worker.destroyTasks > 0
      modifies this
      ensures View() == Destroy(old(View()))
      ensures done == !DestroyBlocked(old(View()))
    {
      var inFlight := AnyInFlight();
      if pendingAllocations != 0 || activeLeases != 0 || inFlight {
        return false;
      }
      worker := worker.(destroyTasks := worker.destroyTasks - 1, released := worker.released + multiset(slots),
                        destroyed := true);
      slots, record, freeSlots, readySlots, currentSlot := [], map[], [], [], None;
      return true;
    }
  }

  lemma InFlightByPosition(s: Stream)
    requires Queues(s)
    ensures InFlight(s) <==> exists j :: 0 <= j < |s.slots| && s.record[s.slots[j]].state in {CpuWriting, Queued, Reclaim}
  {
    if InFlight(s) {
      var x :| x in s.record && s.record[x].state in {CpuWriting, Queued, Reclaim};
      assert x in s.slots;
    }
  }

  // Walks the completed uploads, oldest first, while their ids are within the bound.
  method LeadingUploads(ready: seq<SlotId>, record: map<SlotId, Slot>, uploadId: nat)
    returns (taken: nat, next: Option<SlotId>, reclaim: seq<SlotId>)
    requires forall x :: x in ready ==> x in record
    ensures taken == LeadingThrough(ready, record, uploadId)
    ensures next == if taken == 0 then None else Some(ready[taken - 1])
    ensures reclaim == if taken == 0 then [] else ready[..taken - 1]
  {
    taken, next, reclaim := 0, None, [];
    while taken < |ready| && record[ready[taken]].uploadId <= uploadId
      invariant taken <= |ready|
      invariant next == if taken == 0 then None else Some(ready[taken - 1])
      invariant reclaim == if taken == 0 then [] else ready[..taken - 1]
      invariant forall j :: 0 <= j < taken ==> record[ready[j]].uploadId <= uploadId
    {
      if next.Some? {
        reclaim := reclaim + [next.value];
      }
      next := Some(ready[taken]);
      taken := taken + 1;
    }
    LeadingIs(ready, record, uploadId, taken);
  }

  // The first slot of a list that carries an upload id.
  method FindUpload(list: seq<SlotId>, record: map<SlotId, Slot>, uploadId: nat) returns (found: Option<nat>)
    requires forall x :: x in list ==> x in record
    ensures found == FirstIndex(list, HasId(record, uploadId))
    ensures found.Some? ==> found.value < |list|
  {
    var i := 0;
    while i < |list|
      invariant i <= |list|
      invariant forall j :: 0 <= j < i ==> record[list[j]].uploadId != uploadId
    {
      if record[list[i]].uploadId == uploadId {
        FirstIndexIs(list, HasId(record, uploadId), i);
        return Some(i);
      }
      i := i + 1;
    }
    return None;
  }

  method FindSlot(list: seq<SlotId>, x: SlotId) returns (found: Option<nat>)
    ensures found.None? ==> x !in list
    ensures found.Some? ==> found.value < |list| && list[found.value] == x && x !in list[..found.value]
  {
    var i := 0;
    while i < |list|
      invariant i <= |list| && x !in list[..i]
    {
      if list[i] == x {
        return Some(i);
      }
      i := i + 1;
    }
    return None;
  }

  lemma LeadingIs(ready: seq<SlotId>, record: map<SlotId, Slot>, uploadId: nat, k: nat)
    requires forall x :: x in ready ==> x in record
    requires k <= |ready|
    requires forall j :: 0 <= j < k ==> record[ready[j]].uploadId <= uploadId
    requires k < |ready| ==> record[ready[k]].uploadId > uploadId
    ensures LeadingThrough(ready, record, uploadId) == k
  {
  }

  lemma RetireOneMore(xs: seq<SlotId>, record: map<SlotId, Slot>, k: nat)
    requires Distinct(xs) && 0 < k <= |xs| && forall x :: x in xs ==> x in record
    ensures var last := xs[k - 1];
            var most := Retire(record, xs[..k - 1]);
            last in most && most[last := ToReclaim(most[last])] == Retire(record, xs[..k])
  {
    assert xs[..k] == xs[..k - 1] + [xs[k - 1]];
  }

  // Retiring the passed-over slots and then the old current one is what a promotion does to the records.
  lemma PromoteByParts(s: Stream, chosen: SlotId, retired: seq<SlotId>, remaining: seq<SlotId>)
    requires Queues(s) && chosen in s.ready && chosen !in retired && forall x :: x in retired ==> x in s.ready
    ensures var passed := Retire(s.record, retired);
            && chosen in passed
            && Promote(s, chosen, retired, remaining) ==
               s.(ready := remaining, current := Some(chosen), retainedUploadId := passed[chosen].uploadId,
                  record := Retire(passed, OptionSeq(s.current))[chosen := passed[chosen].(state := Current)])
  {
    assert Retire(Retire(s.record, retired), OptionSeq(s.current)) == Retire(s.record, retired + OptionSeq(s.current));
  }

  // A caller's handle on a slot it may write; moved-from handles are empty.
  class UploadLease {
    var slot: Option<SlotId>
    var submitted: bool

    ghost predicate Live(stream: UploadStream)
      reads this, stream
    {
      slot.Some? ==> slot.value in stream.record && HoldsLease(stream.record[slot.value], submitted)
    }

    constructor (slot: Option<SlotId>)
      ensures this.slot == slot && !submitted
    {
      this.slot, submitted := slot, false;
    }

    method Submit(stream: UploadStream) returns (accepted: bool)
      requires Live(stream) && Queues(stream.View())
      modifies this`submitted, stream`record
      ensures Live(stream)
      ensures accepted == (slot.Some? && !old(submitted) && stream.active
                           && old(stream.record)[slot.value].state == CpuWriting)
      ensures stream.View() ==
              if slot.Some? && !old(submitted) then SubmitLease(old(stream.View()), slot.value) else old(stream.View())
      ensures submitted == (old(submitted) || accepted)
    {
      accepted := false;
      if slot.None? || submitted {
        return;
      }
      accepted := stream.SubmitSlot(slot.value);
      submitted := accepted;
    }

    method Destroy(stream: UploadStream)
      requires Live(stream)
      modifies stream
      ensures stream.View() == if slot.Some? then Drop(old(stream.View()), slot.value, submitted) else old(stream.View())
    {
      if slot.Some? {
        if submitted {
          stream.ReleaseSubmittedLease(slot.value);
        } else {
          stream.ReturnUnsubmittedLease(slot.value);
        }
      }
    }

    // Move assignment gives up this handle's lease and takes over the other's, which is left empty: no
    // claim on any slot is copied or lost.
    method MoveFrom(other: UploadLease, stream: UploadStream)
      requires Live(stream) && other.Live(stream)
      modifies this, other, stream
      ensures other == this ==> stream.View() == old(stream.View()) && slot == old(slot) && submitted == old(submitted)
      ensures other != this ==>
                && stream.View() == (if old(slot).Some? then Drop(old(stream.View()), old(slot).value, old(submitted))
                                     else old(stream.View()))
                && slot == old(other.slot) && submitted == old(other.submitted)
                && other.slot == None && other.submitted
    {
      if other == this {
        return;
      }
      Destroy(stream);
      slot, submitted := other.slot, other.submitted;
      other.slot, other.submitted := None, true;
    }
  }
}
