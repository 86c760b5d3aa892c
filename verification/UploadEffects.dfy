/** What each critical section of the upload stream does, slot by slot. */
module UploadEffects {
  import opened Common
  import opened UploadProtocol
  import opened UploadSafety

  // No other slot is touched, and no slot comes or goes.
  ghost predicate OnlyMoves(s: Stream, t: Stream, xs: set<SlotId>) {
    && t.slots == s.slots && t.record.Keys == s.record.Keys
    && t.active == s.active && t.nextUploadId == s.nextUploadId
    && forall y :: y in s.record && y !in xs ==> t.record[y] == s.record[y]
  }

  // One slot moves to a state, with the upload it carries.
  ghost predicate Moves(s: Stream, t: Stream, x: SlotId, to: SlotState) {
    && OnlyMoves(s, t, {x})
    && x in s.record && t.record[x].state == to && t.record[x].uploadId == s.record[x].uploadId
  }

  // Completed uploads in the order they completed, by id.
  ghost function ReadyIds(s: Stream): seq<nat>
    requires Queues(s)
  {
    seq(|s.ready|, i requires 0 <= i < |s.ready| => s.record[s.ready[i]].uploadId)
  }

  // What a selection does: the winner is shown, the losers and the upload shown before go to reclaim.
  ghost predicate Shows(s: Stream, t: Stream, winner: SlotId, losers: set<SlotId>) {
    && winner in s.record && winner in t.record
    && t.current == Some(winner) && t.record[winner] == s.record[winner].(state := Current)
    && t.retainedUploadId == s.record[winner].uploadId
    && (forall x :: x in losers ==> x in t.record && t.record[x].state == Reclaim)
    && OnlyMoves(s, t, {winner} + losers) && t.free == s.free
  }

  ghost function Shown(s: Stream): set<SlotId> { if s.current.Some? then {s.current.value} else {} }

  lemma LeadingEndsAt(ready: seq<SlotId>, record: map<SlotId, Slot>, uploadId: nat, k: nat)
    requires forall x :: x in ready ==> x in record
    requires k <= |ready| && forall i :: 0 <= i < k ==> record[ready[i]].uploadId <= uploadId
    requires k < |ready| ==> record[ready[k]].uploadId > uploadId
    ensures LeadingThrough(ready, record, uploadId) == k
  {
  }

  lemma PromoteShows(s: Stream, winner: SlotId, passed: seq<SlotId>, rest: seq<SlotId>)
    requires Inv(s) && winner in s.ready && winner !in passed && (forall x :: x in passed ==> x in s.ready)
    ensures Shows(s, Promote(s, winner, passed, rest), winner, Elements(passed) + Shown(s))
    ensures Promote(s, winner, passed, rest).ready == rest
  {
    assert forall x :: x in OptionSeq(s.current) <==> x in Shown(s);
    assert winner !in passed + OptionSeq(s.current);
  }

  // Of the completed uploads at the front of the list with ids up to a bound, the last is shown; those before it and
  // the one shown so far go to reclaim, those behind it stay.
  lemma SelectThroughShows(s: Stream, uploadId: nat, j: nat)
    requires Inv(s) && s.active && j < |s.ready|
    requires forall i :: 0 <= i <= j ==> ReadyIds(s)[i] <= uploadId
    requires j + 1 < |s.ready| ==> ReadyIds(s)[j + 1] > uploadId
    ensures var t := SelectLatestThrough(s, uploadId);
            Shows(s, t, s.ready[j], Elements(s.ready[..j]) + Shown(s)) && t.ready == s.ready[j + 1..]
  {
    forall i | 0 <= i < j + 1 ensures s.record[s.ready[i]].uploadId <= uploadId {
      assert ReadyIds(s)[i] <= uploadId;
    }
    LeadingEndsAt(s.ready, s.record, uploadId, j + 1);
    assert s.ready[..j + 1][..j] == s.ready[..j];
    PromoteShows(s, s.ready[j], s.ready[..j], s.ready[j + 1..]);
  }

  // Nothing is shown in its place when the stream is closed, or no upload at the front is within the bound.
  lemma SelectThroughNothing(s: Stream, uploadId: nat)
    requires Inv(s)
    ensures !s.active || s.ready == [] || ReadyIds(s)[0] > uploadId <==> SelectLatestThrough(s, uploadId) == s
  {
    if s.active && s.ready != [] && ReadyIds(s)[0] <= uploadId {
      var k := LeadingThrough(s.ready, s.record, uploadId);
      assert k > 0;
      var t := SelectLatestThrough(s, uploadId);
      assert |t.ready| == |s.ready| - k;
    }
  }

  lemma OthersOf(xs: seq<SlotId>, j: nat)
    requires Distinct(xs) && j < |xs|
    ensures Elements(xs[..j] + xs[j + 1..]) == Elements(xs) - {xs[j]}
  {
    assert xs == xs[..j] + [xs[j]] + xs[j + 1..];
  }

  lemma FirstWithId(s: Stream, uploadId: nat, j: nat)
    requires Queues(s) && j < |s.ready| && ReadyIds(s)[j] == uploadId
    requires forall i :: 0 <= i < j ==> ReadyIds(s)[i] != uploadId
    ensures FirstIndex(s.ready, HasId(s.record, uploadId)) == Some(j)
  {
    forall i | 0 <= i < j ensures !HasId(s.record, uploadId)(s.ready[i]) {
      assert ReadyIds(s)[i] != uploadId;
    }
    FirstIndexIs(s.ready, HasId(s.record, uploadId), j);
  }

  // A selection by id shows the upload that carries the id, and every other completed one goes to reclaim.
  lemma SelectExactShows(s: Stream, uploadId: nat, j: nat)
    requires Inv(s) && s.active && j < |s.ready| && ReadyIds(s)[j] == uploadId
    requires forall i :: 0 <= i < j ==> ReadyIds(s)[i] != uploadId
    ensures var t := SelectUpload(s, uploadId);
            Shows(s, t, s.ready[j], Elements(s.ready) - {s.ready[j]} + Shown(s)) && t.ready == []
            && t.retainedUploadId == uploadId
  {
    OthersOf(s.ready, j);
    FirstWithId(s, uploadId, j);
    PromoteShows(s, s.ready[j], s.ready[..j] + s.ready[j + 1..], []);
  }

  lemma SelectExactNothing(s: Stream, uploadId: nat)
    requires Inv(s)
    ensures !s.active || uploadId !in ReadyIds(s) <==> SelectUpload(s, uploadId) == s
  {
    var i := FirstIndex(s.ready, HasId(s.record, uploadId));
    if i.Some? {
      assert ReadyIds(s)[i.value] == uploadId;
      assert s.active ==> SelectUpload(s, uploadId).ready == [] != s.ready;
    } else {
      forall k | 0 <= k < |s.ready| ensures ReadyIds(s)[k] != uploadId {
        assert !HasId(s.record, uploadId)(s.ready[k]);
      }
    }
  }

  // A slot is handed out from the front of the free list, to a caller of its own and for an upload of a new id.
  lemma AcquireHandsOut(s: Stream, retryAllowed: bool)
    requires Inv(s) && s.active && s.free != []
    ensures var t, x := Acquire(s, retryAllowed), s.free[0];
            x in s.record && s.record[x].state == Free && t.free == s.free[1..]
            && t.record[x].state == CpuWriting && !t.record[x].leaseReleased && !t.record[x].discardRequested
            && (forall y :: y in s.record ==> s.record[y].uploadId < t.record[x].uploadId)
            && OnlyMoves(s.(nextUploadId := t.nextUploadId), t, {x}) && t.activeLeases == s.activeLeases + 1
  {
    var x := s.free[0];
    assert x in s.free && SlotOk(s, x);
    forall y | y in s.record ensures s.record[y].uploadId <= s.nextUploadId { assert SlotOk(s, y); }
  }

  // Without a free slot one more is asked for, exactly when the stream is open, there is room for one, none is on its
  // way, and the last failure is long enough ago; nothing else changes.
  lemma AcquireAsks(s: Stream, retryAllowed: bool)
    requires !s.active || s.free == []
    ensures var asks := s.active && |s.slots| + s.pendingAllocations < s.maxSlots && s.pendingAllocations == 0
                        && retryAllowed;
            Acquire(s, retryAllowed) == if asks then s.(pendingAllocations := 1, allocatePosted := s.allocatePosted + 1)
                                        else s
  {
  }

  // A lease submitted in time queues its slot and posts the upload; a late one does nothing.
  lemma SubmitQueues(s: Stream, x: SlotId)
    requires Inv(s) && x in s.record && s.record[x].claims.writing > 0
    ensures var t := SubmitLease(s, x);
            if s.active then Moves(s, t, x, Queued) && Posted(t, Upload(x)) && t.ready == s.ready && t.free == s.free
            else t == s
  {
    assert SlotOk(s, x);
  }

  // A lease given up before submission frees its slot, behind the others while the stream is open.
  lemma DropFrees(s: Stream, x: SlotId)
    requires Inv(s) && x in s.record && s.record[x].claims.writing > 0
    ensures var t := Drop(s, x, false);
            Moves(s, t, x, Free) && t.free == (if s.active then s.free + [x] else s.free)
            && t.activeLeases == s.activeLeases - 1 && t.record[x].leaseReleased
  {
    assert SlotOk(s, x);
  }

  // A lease given up after submission leaves its slot where it is.
  lemma DropSubmittedLeaves(s: Stream, x: SlotId)
    requires Inv(s) && x in s.record && s.record[x].claims.submitted > 0
    ensures var t := Drop(s, x, true);
            Moves(s, t, x, s.record[x].state) && t.free == s.free && t.ready == s.ready
            && t.activeLeases == s.activeLeases - 1 && t.record[x].leaseReleased
  {
    assert SlotOk(s, x);
  }

  // A transfer that ends well is the last completed one, if the stream is open and nobody has discarded it; any other
  // goes to reclaim.
  lemma EndedUploadMoves(s: Stream, succeeded: bool)
    requires Inv(s) && s.uploading.Some?
    ensures var x, t := s.uploading.value, EndUpload(s, succeeded);
            t.uploading.None? && t.free == s.free && t.current == s.current
            && if succeeded && s.active && !s.record[x].discardRequested
               then Moves(s, t, x, Ready) && t.ready == s.ready + [x]
               else Moves(s, t, x, Reclaim) && t.ready == s.ready
  {
  }

  // An upload whose transfer failed is never shown.
  lemma FailedUploadIsDoomed(s: Stream, x: SlotId)
    requires Inv(s) && s.uploading == Some(x) && s.record[x].uploadId > 0
    ensures Doomed(EndUpload(s, false), s.record[x].uploadId)
  {
    assert SlotOk(s, x);
    var t, id := EndUpload(s, false), s.record[x].uploadId;
    forall y | y in t.record ensures DoomedAt(t, id, y) {
      assert y != x ==> s.record[y].uploadId != id;
    }
  }

  // A transfer starts on an open stream; on a closed one its slot goes straight to reclaim.
  lemma StartedUploadMoves(s: Stream, x: SlotId)
    requires Inv(s) && s.uploading.None? && x in s.record && s.record[x].claims.upload > 0
    ensures var t := StartUpload(s, x);
            t.free == s.free && t.ready == s.ready && t.current == s.current
            && if s.active then Moves(s, t, x, Queued) && t.uploading == Some(x)
               else Moves(s, t, x, Reclaim) && t.uploading.None?
  {
    assert SlotOk(s, x);
  }

  // A slot comes back from reclaim exactly when its lease is gone and the renderer is done with it.
  lemma ReclaimFrees(s: Stream, x: SlotId, rendered: bool)
    requires Inv(s) && x in s.record && s.record[x].claims.reclaim > 0
    ensures var t := Reclaimed(s, x, rendered);
            if s.record[x].leaseReleased && rendered
            then Moves(s, t, x, Free) && t.free == (if s.active then s.free + [x] else s.free) && t.ready == s.ready
            else t == s
  {
    assert SlotOk(s, x);
  }

  // Discarding an upload concerns the slot that carries it: queued, it is marked; completed, it leaves the list for
  // reclaim; in any other state it is left alone.
  lemma DiscardMoves(s: Stream, x: SlotId)
    requires Inv(s) && s.active && x in s.record && s.record[x].uploadId > 0
    ensures var t := DiscardUpload(s, s.record[x].uploadId);
            match s.record[x].state
            case Queued => Moves(s, t, x, Queued) && t.record[x].discardRequested && t.ready == s.ready
            case Ready => Moves(s, t, x, Reclaim) && t.ready == Erase(s.ready, x)
            case _ => t == s
  {
    assert SlotOk(s, x);
    SlotOfUpload(s, x);
  }

  lemma SlotOfUpload(s: Stream, x: SlotId)
    requires Queues(s) && UploadIdsUnique(s) && x in s.record && s.record[x].uploadId > 0 && s.active
    ensures DiscardUpload(s, s.record[x].uploadId) == DiscardSlot(s, x)
  {
    var i := FirstIndex(s.slots, HasId(s.record, s.record[x].uploadId));
    assert x in s.slots by { assert x in Elements(s.slots); }
    assert i.Some? && s.slots[i.value] == x;
  }

  lemma DiscardNothing(s: Stream, uploadId: nat)
    requires Inv(s) && (!s.active || forall x :: x in s.record ==> s.record[x].uploadId != uploadId)
    ensures DiscardUpload(s, uploadId) == s
  {
  }

  // Closing takes the upload shown off the screen and to reclaim, and asks for the destruction.
  lemma CloseRetires(s: Stream)
    requires Inv(s) && s.active
    ensures var t := CloseStream(s);
            !t.active && t.current.None? && t.destroyPosted == s.destroyPosted + 1
            && OnlyMoves(s.(active := false), t, Shown(s)) && t.free == s.free && t.ready == s.ready
            && (s.current.Some? ==> t.record[s.current.value].state == Reclaim)
  {
    assert forall x :: x in OptionSeq(s.current) <==> x in Shown(s);
  }

  // A slot made while the stream is open is free, behind the others; made too late, it is released at once.
  lemma AllocationJoins(s: Stream, made: SlotId)
    requires Inv(s) && s.allocateTasks > 0 && made !in s.created
    ensures var t := AllocateSlot(s, true, made);
            t.created == s.created + {made} && t.pendingAllocations == s.pendingAllocations - 1
            && (forall y :: y in s.record ==> y in t.record && t.record[y] == s.record[y])
            && if s.active then t.slots == s.slots + [made] && t.free == s.free + [made] && t.record[made] == NEW_SLOT
                                && !t.allocationFailed
               else t.slots == s.slots && t.free == s.free && t.released[made] == s.released[made] + 1
  {
  }
}
