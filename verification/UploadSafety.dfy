/** What every run of the upload protocol keeps, whatever the interleaving. */
module UploadSafety {
  import opened Common
  import opened UploadProtocol

  ghost predicate SamePlace(s: Stream, t: Stream, y: SlotId) {
    && y in s.record && y in t.record && t.record[y] == s.record[y]
    && (y in t.free <==> y in s.free) && (y in t.ready <==> y in s.ready)
    && (t.current == Some(y) <==> s.current == Some(y)) && (t.uploading == Some(y) <==> s.uploading == Some(y))
  }

  // An action about one slot: every other slot keeps its record and its place.
  ghost predicate OnlyTouches(s: Stream, t: Stream, x: SlotId) {
    && x in s.record && t.record.Keys == s.record.Keys
    && t.slots == s.slots && t.active == s.active && t.released == s.released && t.created == s.created
    && t.nextUploadId >= s.nextUploadId
    && (t.record[x].uploadId == s.record[x].uploadId || t.record[x].uploadId > s.nextUploadId)
    && forall y :: y in s.record && y != x ==> SamePlace(s, t, y)
  }

  lemma OneSlotIds(s: Stream, t: Stream, x: SlotId)
    requires UploadIdsUnique(s) && OnlyTouches(s, t, x)
    requires forall y :: y in s.record ==> s.record[y].uploadId <= s.nextUploadId
    ensures UploadIdsUnique(t)
  {
    forall y, z | y in t.record && z in t.record && t.record[y].uploadId == t.record[z].uploadId != 0 ensures y == z {
      assert y != x ==> SamePlace(s, t, y);
      assert z != x ==> SamePlace(s, t, z);
    }
  }

  lemma OneSlotOk(s: Stream, t: Stream, x: SlotId)
    requires OnlyTouches(s, t, x) && SlotOk(t, x)
    requires forall y :: y in s.record ==> SlotOk(s, y)
    ensures forall y :: y in t.record ==> SlotOk(t, y)
  {
    forall y | y in t.record ensures SlotOk(t, y) {
      assert SlotOk(s, y);
      assert y != x ==> SamePlace(s, t, y);
    }
  }

  lemma OneSlot(s: Stream, t: Stream, x: SlotId)
    requires Inv(s) && OnlyTouches(s, t, x) && SlotOk(t, x) && Queues(t) && Counters(t)
    ensures Inv(t)
  {
    OneSlotOk(s, t, x);
    OneSlotIds(s, t, x);
  }

  lemma AcquireMoves(s: Stream, x: SlotId)
    requires s.active && s.free != [] && x == s.free[0] && x in s.record && SlotOk(s, x) && Distinct(s.free)
    ensures SlotOk(Acquire(s, true), x)
  {
  }

  lemma AcquireQueues(s: Stream, x: SlotId)
    requires s.active && s.free != [] && x == s.free[0] && x in s.record && SlotOk(s, x) && Queues(s)
    ensures Queues(Acquire(s, true))
  {
  }

  lemma AcquireKeepsInv(s: Stream, x: SlotId)
    requires Inv(s) && s.active && s.free != [] && x == s.free[0] && x in s.record
    ensures Inv(Acquire(s, true))
  {
    var t := Acquire(s, true);
    assert SlotOk(s, x);
    AcquireMoves(s, x);
    AcquireQueues(s, x);
    assert Leased(t.record) == Leased(s.record) + {x};
    OneSlot(s, t, x);
  }

  lemma SubmitMoves(s: Stream, x: SlotId)
    requires x in s.record && s.record[x].claims.writing > 0 && SlotOk(s, x)
    ensures SlotOk(SubmitLease(s, x), x)
  {
  }

  lemma SubmitQueues(s: Stream, x: SlotId)
    requires x in s.record && s.record[x].claims.writing > 0 && SlotOk(s, x) && Queues(s)
    ensures Queues(SubmitLease(s, x))
  {
  }

  lemma SubmitKeepsInv(s: Stream, x: SlotId)
    requires Inv(s) && x in s.record && s.record[x].claims.writing > 0
    ensures Inv(SubmitLease(s, x))
  {
    var t := SubmitLease(s, x);
    assert SlotOk(s, x);
    SubmitMoves(s, x);
    SubmitQueues(s, x);
    assert Leased(t.record) == Leased(s.record);
    OneSlot(s, t, x);
  }

  lemma DropMoves(s: Stream, x: SlotId, wasSubmitted: bool)
    requires x in s.record && HoldsLease(s.record[x], wasSubmitted) && SlotOk(s, x)
    ensures SlotOk(Drop(s, x, wasSubmitted), x)
  {
  }

  lemma DropQueues(s: Stream, x: SlotId, wasSubmitted: bool)
    requires x in s.record && HoldsLease(s.record[x], wasSubmitted) && SlotOk(s, x) && Queues(s)
    ensures Queues(Drop(s, x, wasSubmitted))
  {
  }

  lemma DropCounters(s: Stream, x: SlotId, wasSubmitted: bool)
    requires x in s.record && HoldsLease(s.record[x], wasSubmitted) && SlotOk(s, x) && Counters(s)
    ensures Counters(Drop(s, x, wasSubmitted))
  {
    assert Leased(Drop(s, x, wasSubmitted).record) == Leased(s.record) - {x};
  }

  lemma DropOther(s: Stream, x: SlotId, wasSubmitted: bool)
    requires x in s.record && HoldsLease(s.record[x], wasSubmitted)
    ensures OnlyTouches(s, Drop(s, x, wasSubmitted), x)
  {
  }

  lemma DropKeepsInv(s: Stream, x: SlotId, wasSubmitted: bool)
    requires Inv(s) && x in s.record && HoldsLease(s.record[x], wasSubmitted)
    ensures Inv(Drop(s, x, wasSubmitted))
  {
    assert SlotOk(s, x);
    DropMoves(s, x, wasSubmitted);
    DropQueues(s, x, wasSubmitted);
    DropCounters(s, x, wasSubmitted);
    DropOther(s, x, wasSubmitted);
    OneSlot(s, Drop(s, x, wasSubmitted), x);
  }

  lemma EnqueueMoves(s: Stream, x: SlotId, task: Task)
    requires Posted(s, task) && task in {Upload(x), ReclaimSlot(x)} && SlotOk(s, x)
    ensures SlotOk(Enqueue(s, task), x)
  {
  }

  lemma EnqueueQueues(s: Stream, x: SlotId, task: Task)
    requires Posted(s, task) && task in {Upload(x), ReclaimSlot(x)} && SlotOk(s, x) && Queues(s)
    ensures Queues(Enqueue(s, task))
  {
  }

  lemma EnqueueKeepsInv(s: Stream, x: SlotId, task: Task)
    requires Inv(s) && Posted(s, task) && task in {Upload(x), ReclaimSlot(x)}
    ensures Inv(Enqueue(s, task))
  {
    var t := Enqueue(s, task);
    assert SlotOk(s, x);
    EnqueueMoves(s, x, task);
    EnqueueQueues(s, x, task);
    assert Leased(t.record) == Leased(s.record);
    OneSlot(s, t, x);
  }

  lemma StartUploadMoves(s: Stream, x: SlotId)
    requires s.uploading.None? && x in s.record && s.record[x].claims.upload > 0 && SlotOk(s, x)
    ensures SlotOk(StartUpload(s, x), x)
  {
  }

  lemma StartUploadQueues(s: Stream, x: SlotId)
    requires s.uploading.None? && x in s.record && s.record[x].claims.upload > 0 && SlotOk(s, x) && Queues(s)
    ensures Queues(StartUpload(s, x))
  {
  }

  lemma StartUploadKeepsInv(s: Stream, x: SlotId)
    requires Inv(s) && s.uploading.None? && x in s.record && s.record[x].claims.upload > 0
    ensures Inv(StartUpload(s, x))
  {
    var t := StartUpload(s, x);
    assert SlotOk(s, x);
    StartUploadMoves(s, x);
    StartUploadQueues(s, x);
    assert Leased(t.record) == Leased(s.record);
    OneSlot(s, t, x);
  }

  lemma EndUploadMoves(s: Stream, x: SlotId, succeeded: bool)
    requires s.uploading == Some(x) && x in s.record && SlotOk(s, x)
    ensures SlotOk(EndUpload(s, succeeded), x)
  {
  }

  lemma EndUploadQueues(s: Stream, x: SlotId, succeeded: bool)
    requires s.uploading == Some(x) && x in s.record && SlotOk(s, x) && Queues(s)
    ensures Queues(EndUpload(s, succeeded))
  {
  }

  lemma EndUploadCounters(s: Stream, x: SlotId, succeeded: bool)
    requires s.uploading == Some(x) && x in s.record && Counters(s)
    ensures Counters(EndUpload(s, succeeded))
  {
    assert Leased(EndUpload(s, succeeded).record) == Leased(s.record);
  }

  lemma EndUploadOther(s: Stream, x: SlotId, succeeded: bool)
    requires s.uploading == Some(x) && x in s.record
    ensures OnlyTouches(s, EndUpload(s, succeeded), x)
  {
  }

  lemma EndUploadKeepsInv(s: Stream, x: SlotId, succeeded: bool)
    requires Inv(s) && s.uploading == Some(x) && x in s.record
    ensures Inv(EndUpload(s, succeeded))
  {
    assert SlotOk(s, x);
    EndUploadMoves(s, x, succeeded);
    EndUploadQueues(s, x, succeeded);
    EndUploadCounters(s, x, succeeded);
    EndUploadOther(s, x, succeeded);
    OneSlot(s, EndUpload(s, succeeded), x);
  }

  lemma ReclaimMoves(s: Stream, x: SlotId, rendered: bool)
    requires x in s.record && s.record[x].claims.reclaim > 0 && SlotOk(s, x)
    ensures SlotOk(Reclaimed(s, x, rendered), x)
  {
  }

  lemma ReclaimQueues(s: Stream, x: SlotId, rendered: bool)
    requires x in s.record && s.record[x].claims.reclaim > 0 && SlotOk(s, x) && Queues(s)
    ensures Queues(Reclaimed(s, x, rendered))
  {
  }

  lemma ReclaimKeepsInv(s: Stream, x: SlotId, rendered: bool)
    requires Inv(s) && x in s.record && s.record[x].claims.reclaim > 0
    ensures Inv(Reclaimed(s, x, rendered))
  {
    var t := Reclaimed(s, x, rendered);
    assert SlotOk(s, x);
    ReclaimMoves(s, x, rendered);
    ReclaimQueues(s, x, rendered);
    assert Leased(t.record) == Leased(s.record);
    OneSlot(s, t, x);
  }


  // An action that moves several slots and leaves ids, leases and the set of slots alone.
  ghost predicate SameSlots(s: Stream, t: Stream) {
    && t.slots == s.slots && t.released == s.released && t.created == s.created && t.nextUploadId == s.nextUploadId
    && t.record.Keys == s.record.Keys
    && forall x :: x in s.record ==>
         t.record[x].uploadId == s.record[x].uploadId && t.record[x].leaseReleased == s.record[x].leaseReleased
  }

  lemma ManySlots(s: Stream, t: Stream)
    requires Inv(s) && SameSlots(s, t) && Queues(t) && Counters(t)
    requires forall x :: x in t.record ==> SlotOk(t, x)
    ensures Inv(t)
  {
  }

  // The chosen, retired and remaining completed uploads are the ready list, each slot once.
  ghost predicate Splits(s: Stream, chosen: SlotId, retired: seq<SlotId>, remaining: seq<SlotId>) {
    && chosen in s.ready && chosen !in retired && chosen !in remaining && Distinct(remaining)
    && (forall x :: x in s.ready ==> x == chosen || x in retired || x in remaining)
    && (forall x :: x in retired ==> x in s.ready && x !in remaining)
    && (forall x :: x in remaining ==> x in s.ready)
  }

  lemma PromoteMoves(s: Stream, chosen: SlotId, retired: seq<SlotId>, remaining: seq<SlotId>, x: SlotId)
    requires Queues(s) && s.active && Splits(s, chosen, retired, remaining)
    requires x in s.record && SlotOk(s, x) && SlotOk(s, chosen)
    ensures SlotOk(Promote(s, chosen, retired, remaining), x)
  {
    var out := retired + OptionSeq(s.current);
    assert x in out <==> x in retired || s.current == Some(x);
  }

  lemma PromoteQueues(s: Stream, chosen: SlotId, retired: seq<SlotId>, remaining: seq<SlotId>)
    requires Queues(s) && Counters(s) && s.active && Splits(s, chosen, retired, remaining)
    ensures var t := Promote(s, chosen, retired, remaining);
            Queues(t) && SameSlots(s, t) && Counters(t)
  {
    assert Leased(Promote(s, chosen, retired, remaining).record) == Leased(s.record);
  }

  lemma PromoteKeepsInv(s: Stream, chosen: SlotId, retired: seq<SlotId>, remaining: seq<SlotId>)
    requires Inv(s) && s.active && Splits(s, chosen, retired, remaining)
    ensures Inv(Promote(s, chosen, retired, remaining))
  {
    var t := Promote(s, chosen, retired, remaining);
    PromoteQueues(s, chosen, retired, remaining);
    forall x | x in t.record ensures SlotOk(t, x) {
      assert SlotOk(s, x) && SlotOk(s, chosen);
      PromoteMoves(s, chosen, retired, remaining, x);
    }
    ManySlots(s, t);
  }

  lemma SplitsAt(s: Stream, k: nat, dropped: nat)
    requires Queues(s) && k < dropped <= |s.ready|
    requires dropped == k + 1 || dropped == |s.ready|
    ensures dropped == k + 1 ==> Splits(s, s.ready[k], s.ready[..k], s.ready[k + 1..])
    ensures dropped == |s.ready| ==> Splits(s, s.ready[k], s.ready[..k] + s.ready[k + 1..], [])
  {
    assert s.ready == s.ready[..k] + [s.ready[k]] + s.ready[k + 1..];
  }

  lemma SelectThroughKeepsInv(s: Stream, uploadId: nat)
    requires Inv(s)
    ensures Inv(SelectLatestThrough(s, uploadId))
  {
    var k := LeadingThrough(s.ready, s.record, uploadId);
    if s.active && k > 0 {
      PromoteAtKeepsInv(s, k);
    }
  }

  lemma PromoteAtKeepsInv(s: Stream, k: nat)
    requires Inv(s) && s.active && 0 < k <= |s.ready|
    ensures s.ready[k - 1] in s.record
    ensures Inv(Promote(s, s.ready[k - 1], s.ready[..k - 1], s.ready[k..]))
  {
    SplitsAt(s, k - 1, k);
    PromoteKeepsInv(s, s.ready[k - 1], s.ready[..k - 1], s.ready[k..]);
  }

  lemma SelectExactKeepsInv(s: Stream, uploadId: nat)
    requires Inv(s)
    ensures Inv(SelectUpload(s, uploadId))
  {
    var i := FirstIndex(s.ready, HasId(s.record, uploadId));
    if s.active && i.Some? {
      SplitsAt(s, i.value, |s.ready|);
      PromoteKeepsInv(s, s.ready[i.value], s.ready[..i.value] + s.ready[i.value + 1..], []);
    }
  }

  lemma DiscardMoves(s: Stream, x: SlotId)
    requires x in s.record && SlotOk(s, x) && Distinct(s.ready)
    ensures SlotOk(DiscardSlot(s, x), x)
  {
  }

  lemma DiscardQueues(s: Stream, x: SlotId)
    requires Queues(s) && x in s.record
    ensures Queues(DiscardSlot(s, x))
  {
  }

  lemma DiscardOther(s: Stream, x: SlotId, y: SlotId)
    requires Distinct(s.ready) && x in s.record && y in s.record && y != x
    ensures SamePlace(s, DiscardSlot(s, x), y)
  {
  }

  lemma DiscardCounters(s: Stream, x: SlotId)
    requires Counters(s) && x in s.record
    ensures Counters(DiscardSlot(s, x))
  {
    assert Leased(DiscardSlot(s, x).record) == Leased(s.record);
  }

  lemma DiscardKeepsInv(s: Stream, x: SlotId)
    requires Inv(s) && x in s.record
    ensures Inv(DiscardSlot(s, x))
  {
    var t := DiscardSlot(s, x);
    assert SlotOk(s, x);
    DiscardMoves(s, x);
    DiscardQueues(s, x);
    forall y | y in s.record && y != x ensures SamePlace(s, t, y) {
      DiscardOther(s, x, y);
    }
    DiscardCounters(s, x);
    OneSlot(s, t, x);
  }

  lemma CloseMoves(s: Stream, x: SlotId)
    requires Queues(s) && s.active && x in s.record && SlotOk(s, x)
    ensures SlotOk(CloseStream(s), x)
  {
  }

  lemma CloseKeepsInv(s: Stream)
    requires Inv(s) && s.active
    ensures Inv(CloseStream(s))
  {
    var t := CloseStream(s);
    forall x | x in t.record ensures SlotOk(t, x) {
      assert SlotOk(s, x);
      CloseMoves(s, x);
    }
    assert Leased(t.record) == Leased(s.record);
    ManySlots(s, t);
  }

  lemma AllocateQueues(s: Stream, succeeded: bool, made: SlotId)
    requires Queues(s) && s.allocateTasks > 0 && made !in s.record
    ensures var t := AllocateSlot(s, succeeded, made);
            Queues(t) && Leased(t.record) == Leased(s.record)
  {
    assert Elements(s.slots + [made]) == Elements(s.slots) + {made};
  }

  lemma AllocateMoves(s: Stream, succeeded: bool, made: SlotId, x: SlotId)
    requires s.allocateTasks > 0 && made !in s.record && Queues(s) && x in AllocateSlot(s, succeeded, made).record
    requires x != made ==> SlotOk(s, x)
    ensures SlotOk(AllocateSlot(s, succeeded, made), x)
  {
  }

  lemma AllocateKeepsInv(s: Stream, succeeded: bool, made: SlotId)
    requires Inv(s) && s.allocateTasks > 0 && made !in s.created
    ensures Inv(AllocateSlot(s, succeeded, made))
  {
    var t := AllocateSlot(s, succeeded, made);
    AllocateQueues(s, succeeded, made);
    forall x | x in t.record ensures SlotOk(t, x) {
      assert x != made ==> SlotOk(s, x);
      AllocateMoves(s, succeeded, made, x);
    }
  }

  lemma DestroyReleases(s: Stream)
    requires Queues(s) && ReleasedOnce(s) && s.destroyTasks > 0
    ensures ReleasedOnce(Destroy(s))
  {
    DistinctCounts(s.slots);
    assert forall x :: x in s.record ==> multiset(s.slots)[x] == 1;
    assert forall x :: x !in s.record ==> multiset(s.slots)[x] == 0;
  }

  lemma DestroyKeepsInv(s: Stream)
    requires Inv(s) && s.destroyTasks > 0
    ensures Inv(Destroy(s))
  {
    var t := Destroy(s);
    DestroyReleases(s);
    assert Elements<SlotId>([]) == {};
    assert t != s ==> Leased(t.record) == {};
  }

  lemma AcquireAlwaysKeepsInv(s: Stream, retryAllowed: bool)
    requires Inv(s)
    ensures Inv(Acquire(s, retryAllowed))
  {
    if s.active && s.free != [] {
      AcquireKeepsInv(s, s.free[0]);
    } else {
      forall x | x in s.record ensures SlotOk(Acquire(s, retryAllowed), x) {
        assert SlotOk(s, x);
        AskMoves(s, retryAllowed, x);
      }
      AskQueues(s, retryAllowed);
      ManySlots(s, Acquire(s, retryAllowed));
    }
  }

  lemma AskMoves(s: Stream, retryAllowed: bool, x: SlotId)
    requires !s.active || s.free == []
    requires x in s.record && SlotOk(s, x)
    ensures SlotOk(Acquire(s, retryAllowed), x)
  {
  }

  lemma AskQueues(s: Stream, retryAllowed: bool)
    requires (!s.active || s.free == []) && Queues(s) && Counters(s)
    ensures var t := Acquire(s, retryAllowed); SameSlots(s, t) && Queues(t) && Counters(t)
  {
  }

  lemma PostKeepsInv(s: Stream, task: Task)
    requires Inv(s) && Posted(s, task)
    ensures Inv(Enqueue(s, task))
  {
    if task.Upload? || task.ReclaimSlot? {
      EnqueueKeepsInv(s, task.slot, task);
    } else {
      var t := Enqueue(s, task);
      forall x | x in t.record ensures SlotOk(t, x) { assert SlotOk(s, x); }
      ManySlots(s, t);
    }
  }

  // ---------------------------------------------------------------- runs

  lemma StepKeepsInv(s: Stream, a: Action)
    requires Inv(s) && Enabled(s, a)
    ensures Inv(Step(s, a))
  {
    match a
    case TryAcquire(retryAllowed) => AcquireAlwaysKeepsInv(s, retryAllowed);
    case Submit(x) => SubmitKeepsInv(s, x);
    case DropLease(x, wasSubmitted) => DropKeepsInv(s, x, wasSubmitted);
    case SelectThrough(id) => SelectThroughKeepsInv(s, id);
    case SelectExact(id) => SelectExactKeepsInv(s, id);
    case Discard(id) =>
      var i := FirstIndex(s.slots, HasId(s.record, id));
      if s.active && i.Some? {
        DiscardKeepsInv(s, s.slots[i.value]);
      }
    case Close => CloseKeepsInv(s);
    case Post(t) => PostKeepsInv(s, t);
    case RunAllocate(ok, made) => AllocateKeepsInv(s, ok, made);
    case BeginUpload(x) => StartUploadKeepsInv(s, x);
    case FinishUpload(ok) => EndUploadKeepsInv(s, s.uploading.value, ok);
    case RunReclaim(x, rendered) => ReclaimKeepsInv(s, x, rendered);
    case RunDestroy => DestroyKeepsInv(s);
  }

  // A run: each action is enabled in the state the earlier ones led to.
  ghost predicate Reaches(s: Stream, run: seq<Action>, t: Stream)
    requires Inv(s)
    decreases |run|
  {
    if run == [] then t == s
    else
      Enabled(s, run[0]) && (StepKeepsInv(s, run[0]); Reaches(Step(s, run[0]), run[1..], t))
  }

  // In every state of every run, each slot is held by exactly the place its state names, and a slot has at
  // most one live lease, none while it is free.
  lemma {:induction false} EveryRunOwnsEachSlotOnce(s: Stream, run: seq<Action>, t: Stream)
    requires Inv(s) && Reaches(s, run, t)
    ensures Inv(t)
    ensures forall x :: x in t.record ==>
              && OwnedAsState(OwnersOf(t, x), t.record[x].state, t.active)
              && t.record[x].claims.writing + t.record[x].claims.submitted <= 1
              && (t.record[x].state == Free ==> t.record[x].claims == NO_CLAIMS)
    decreases |run|
  {
    if run == [] {
      forall x | x in t.record ensures SlotOk(t, x) { assert SlotOk(s, x); }
    } else {
      StepKeepsInv(s, run[0]);
      EveryRunOwnsEachSlotOnce(Step(s, run[0]), run[1..], t);
    }
  }

  // Every slot object ever made is released at most once, never while the stream still holds it, and by the
  // time the stream is destroyed exactly once.
  lemma EveryRunReleasesEachSlotOnce(maxSlots: nat, initialSlots: nat, run: seq<Action>, t: Stream)
    requires 0 < maxSlots && initialSlots <= maxSlots
    requires Reaches(Init(maxSlots, initialSlots), run, t)
    ensures t.released <= multiset(t.created)
    ensures forall x :: x in t.slots ==> t.released[x] == 0
    ensures t.destroyed ==> t.released == multiset(t.created)
  {
    EveryRunOwnsEachSlotOnce(Init(maxSlots, initialSlots), run, t);
    if t.destroyed {
      assert forall x :: x in t.created ==> t.released[x] == 1;
      assert multiset(t.created) <= t.released;
    }
  }

  lemma NoLeases(s: Stream)
    requires Counters(s) && s.activeLeases == 0
    ensures forall x :: x in s.record ==> s.record[x].leaseReleased
  {
    var leased := Leased(s.record);
    assert leased == {};
    assert forall x :: x in s.record && !s.record[x].leaseReleased ==> x in leased;
  }

  // What destruction releases is idle: no lease, no task and no running upload names it.
  lemma DestroyReleasesIdleSlots(s: Stream, x: SlotId)
    requires Inv(s) && s.destroyTasks > 0 && Destroy(s) != s && x in s.record
    ensures Destroy(s).released[x] == 1
    ensures s.record[x].claims == NO_CLAIMS && s.uploading != Some(x)
  {
    DestroyKeepsInv(s);
    assert SlotOk(s, x);
    NoLeases(s);
  }

  // Shutdown cannot get stuck: once the leases are gone and the worker has nothing but the destruction left,
  // the destruction goes through.
  lemma ShutdownCompletes(s: Stream)
    requires Inv(s) && !s.active && s.uploading.None? && s.activeLeases == 0
    requires s.allocateTasks == s.allocatePosted == 0
    requires forall x :: x in s.record ==>
               var c := s.record[x].claims; c.upload == c.uploadPosted == c.reclaim == c.reclaimPosted == 0
    ensures !DestroyBlocked(s)
    ensures !s.destroyed ==> s.destroyTasks + s.destroyPosted == 1
  {
    NoLeases(s);
    forall x | x in s.record ensures s.record[x].state == Free || s.record[x].state == Ready {
      assert SlotOk(s, x);
    }
  }

  // ---------------------------------------------------------------- retired uploads stay retired

  // An upload id that can no longer be shown: wherever a slot still carries it, that slot is on its way
  // back to the free list.
  ghost predicate Doomed(s: Stream, uploadId: nat) {
    && 0 < uploadId <= s.nextUploadId
    && forall x :: x in s.record ==> DoomedAt(s, uploadId, x)
  }

  ghost predicate Leaving(r: Slot) {
    r.state == Reclaim || r.state == Free || (r.state == Queued && r.discardRequested)
  }

  lemma PromoteKeepsDoomed(s: Stream, chosen: SlotId, retired: seq<SlotId>, remaining: seq<SlotId>, uploadId: nat)
    requires Inv(s) && Doomed(s, uploadId) && chosen in s.ready
    ensures Doomed(Promote(s, chosen, retired, remaining), uploadId)
  {
    assert SlotOk(s, chosen);
  }

  // The same for one slot; a slot new to the stream has no upload yet.
  ghost predicate DoomedAt(s: Stream, uploadId: nat, x: SlotId) {
    x in s.record && s.record[x].uploadId == uploadId ==> Leaving(s.record[x])
  }

  lemma AcquireKeepsDoomed(s: Stream, retryAllowed: bool, uploadId: nat)
    requires Queues(s) && Doomed(s, uploadId)
    requires forall y :: y in s.record ==> SlotOk(s, y)
    ensures Doomed(Acquire(s, retryAllowed), uploadId)
  {
    forall y | y in s.record ensures DoomedAt(Acquire(s, retryAllowed), uploadId, y) {
      assert DoomedAt(s, uploadId, y) && SlotOk(s, y);
    }
  }

  lemma SubmitKeepsDoomed(s: Stream, x: SlotId, uploadId: nat)
    requires x in s.record && s.record[x].claims.writing > 0 && Doomed(s, uploadId)
    requires forall y :: y in s.record ==> SlotOk(s, y)
    ensures Doomed(SubmitLease(s, x), uploadId)
  {
    forall y | y in s.record ensures DoomedAt(SubmitLease(s, x), uploadId, y) {
      assert DoomedAt(s, uploadId, y) && SlotOk(s, y);
    }
  }

  lemma DropKeepsDoomed(s: Stream, x: SlotId, wasSubmitted: bool, uploadId: nat)
    requires x in s.record && HoldsLease(s.record[x], wasSubmitted) && Doomed(s, uploadId)
    requires forall y :: y in s.record ==> SlotOk(s, y)
    ensures Doomed(Drop(s, x, wasSubmitted), uploadId)
  {
    forall y | y in s.record ensures DoomedAt(Drop(s, x, wasSubmitted), uploadId, y) {
      assert DoomedAt(s, uploadId, y) && SlotOk(s, y);
    }
  }

  lemma DiscardKeepsDoomed(s: Stream, x: SlotId, uploadId: nat)
    requires x in s.record && Doomed(s, uploadId)
    requires forall y :: y in s.record ==> SlotOk(s, y)
    ensures Doomed(DiscardSlot(s, x), uploadId)
  {
    forall y | y in s.record ensures DoomedAt(DiscardSlot(s, x), uploadId, y) {
      assert DoomedAt(s, uploadId, y) && SlotOk(s, y);
    }
  }

  lemma CloseKeepsDoomed(s: Stream, uploadId: nat)
    requires Queues(s) && Doomed(s, uploadId)
    requires forall y :: y in s.record ==> SlotOk(s, y)
    ensures Doomed(CloseStream(s), uploadId)
  {
    forall y | y in s.record ensures DoomedAt(CloseStream(s), uploadId, y) {
      assert DoomedAt(s, uploadId, y) && SlotOk(s, y);
    }
  }

  lemma PostKeepsDoomed(s: Stream, task: Task, uploadId: nat)
    requires Posted(s, task) && Doomed(s, uploadId)
    requires forall y :: y in s.record ==> SlotOk(s, y)
    ensures Doomed(Enqueue(s, task), uploadId)
  {
    forall y | y in s.record ensures DoomedAt(Enqueue(s, task), uploadId, y) {
      assert DoomedAt(s, uploadId, y) && SlotOk(s, y);
    }
  }

  lemma BeginUploadKeepsDoomed(s: Stream, x: SlotId, uploadId: nat)
    requires x in s.record && s.record[x].claims.upload > 0 && Doomed(s, uploadId)
    requires forall y :: y in s.record ==> SlotOk(s, y)
    ensures Doomed(StartUpload(s, x), uploadId)
  {
    forall y | y in s.record ensures DoomedAt(StartUpload(s, x), uploadId, y) {
      assert DoomedAt(s, uploadId, y) && SlotOk(s, y);
    }
  }

  lemma FinishUploadKeepsDoomed(s: Stream, succeeded: bool, uploadId: nat)
    requires s.uploading.Some? && s.uploading.value in s.record && Doomed(s, uploadId)
    requires forall y :: y in s.record ==> SlotOk(s, y)
    ensures Doomed(EndUpload(s, succeeded), uploadId)
  {
    forall y | y in s.record ensures DoomedAt(EndUpload(s, succeeded), uploadId, y) {
      assert DoomedAt(s, uploadId, y) && SlotOk(s, y);
    }
  }

  lemma ReclaimKeepsDoomed(s: Stream, x: SlotId, rendered: bool, uploadId: nat)
    requires x in s.record && s.record[x].claims.reclaim > 0 && Doomed(s, uploadId)
    requires forall y :: y in s.record ==> SlotOk(s, y)
    ensures Doomed(Reclaimed(s, x, rendered), uploadId)
  {
    forall y | y in s.record ensures DoomedAt(Reclaimed(s, x, rendered), uploadId, y) {
      assert DoomedAt(s, uploadId, y) && SlotOk(s, y);
    }
  }

  lemma SelectThroughKeepsDoomed(s: Stream, id: nat, uploadId: nat)
    requires Inv(s) && Doomed(s, uploadId)
    ensures Doomed(SelectLatestThrough(s, id), uploadId)
  {
    var k := LeadingThrough(s.ready, s.record, id);
    if s.active && k > 0 {
      PromoteKeepsDoomed(s, s.ready[k - 1], s.ready[..k - 1], s.ready[k..], uploadId);
    }
  }

  lemma SelectExactKeepsDoomed(s: Stream, id: nat, uploadId: nat)
    requires Inv(s) && Doomed(s, uploadId)
    ensures Doomed(SelectUpload(s, id), uploadId)
  {
    var i := FirstIndex(s.ready, HasId(s.record, id));
    if s.active && i.Some? {
      PromoteKeepsDoomed(s, s.ready[i.value], s.ready[..i.value] + s.ready[i.value + 1..], [], uploadId);
    }
  }

  lemma StepKeepsDoomed(s: Stream, a: Action, uploadId: nat)
    requires Inv(s) && Enabled(s, a) && Doomed(s, uploadId)
    ensures Doomed(Step(s, a), uploadId)
  {
    match a
    case TryAcquire(retryAllowed) => AcquireKeepsDoomed(s, retryAllowed, uploadId);
    case Submit(x) => SubmitKeepsDoomed(s, x, uploadId);
    case DropLease(x, wasSubmitted) => DropKeepsDoomed(s, x, wasSubmitted, uploadId);
    case SelectThrough(id) => SelectThroughKeepsDoomed(s, id, uploadId);
    case SelectExact(id) => SelectExactKeepsDoomed(s, id, uploadId);
    case Discard(id) =>
      var i := FirstIndex(s.slots, HasId(s.record, id));
      if s.active && i.Some? {
        DiscardKeepsDoomed(s, s.slots[i.value], uploadId);
      }
    case Close => CloseKeepsDoomed(s, uploadId);
    case Post(task) => PostKeepsDoomed(s, task, uploadId);
    case RunAllocate(ok, made) => AllocateKeepsDoomed(s, ok, made, uploadId);
    case BeginUpload(x) => BeginUploadKeepsDoomed(s, x, uploadId);
    case FinishUpload(ok) => FinishUploadKeepsDoomed(s, ok, uploadId);
    case RunReclaim(x, rendered) => ReclaimKeepsDoomed(s, x, rendered, uploadId);
    case RunDestroy =>
  }

  lemma AllocateKeepsDoomed(s: Stream, succeeded: bool, made: SlotId, uploadId: nat)
    requires s.allocateTasks > 0 && Doomed(s, uploadId)
    ensures Doomed(AllocateSlot(s, succeeded, made), uploadId)
  {
    var t := AllocateSlot(s, succeeded, made);
    forall y | y in t.record ensures DoomedAt(t, uploadId, y) {
      assert y in s.record ==> DoomedAt(s, uploadId, y);
    }
  }

  // A discarded upload, and a completed upload passed over or replaced by a selection, never becomes current
  // in any later state of any run.
  lemma {:induction false} DoomedUploadNeverShows(s: Stream, run: seq<Action>, t: Stream, uploadId: nat)
    requires Inv(s) && Doomed(s, uploadId) && Reaches(s, run, t)
    ensures Doomed(t, uploadId)
    ensures t.current.Some? ==> t.retainedUploadId != uploadId
    ensures forall x :: x in t.ready ==> x in t.record && t.record[x].uploadId != uploadId
    decreases |run|
  {
    if run == [] {
      forall x | x in t.record ensures SlotOk(t, x) { assert SlotOk(s, x); }
    } else {
      StepKeepsInv(s, run[0]);
      StepKeepsDoomed(s, run[0], uploadId);
      DoomedUploadNeverShows(Step(s, run[0]), run[1..], t, uploadId);
    }
  }

  lemma DiscardDooms(s: Stream, uploadId: nat, x: SlotId)
    requires Inv(s) && s.active && uploadId > 0
    requires x in s.record && s.record[x].uploadId == uploadId && s.record[x].state in {Queued, Ready}
    ensures Doomed(DiscardUpload(s, uploadId), uploadId)
  {
    assert SlotOk(s, x);
    var i := FirstIndex(s.slots, HasId(s.record, uploadId));
    assert i.Some? && s.slots[i.value] == x by { assert x in s.slots; }
    DiscardedIsLeaving(s, x);
    forall y | y in s.record ensures DoomedAt(DiscardSlot(s, x), uploadId, y) {
    }
  }

  lemma DiscardedIsLeaving(s: Stream, x: SlotId)
    requires Queues(s) && x in s.record && s.record[x].state in {Queued, Ready} && SlotOk(s, x)
    ensures DiscardSlot(s, x).record == s.record[x := DiscardSlot(s, x).record[x]]
    ensures Leaving(DiscardSlot(s, x).record[x])
  {
  }

  // Selecting one upload dooms the upload that was current and every completed upload taken off the list.
  lemma PromotionDoomsTheRest(s: Stream, chosen: SlotId, retired: seq<SlotId>, remaining: seq<SlotId>, x: SlotId)
    requires Inv(s) && Splits(s, chosen, retired, remaining)
    requires x in s.record && s.record[x].uploadId > 0 && (s.current == Some(x) || x in s.ready)
    ensures x == chosen || x in remaining ||
            Doomed(Promote(s, chosen, retired, remaining), s.record[x].uploadId)
  {
    assert SlotOk(s, x);
    assert s.current == Some(x) ==> x in retired + OptionSeq(s.current);
  }
}
