/** What every run of the readback protocol keeps, whatever the interleaving. */
module ReadbackSafety {
  import opened Common
  import opened ReadbackProtocol

  ghost predicate SamePlace(s: Stream, t: Stream, y: SlotId) {
    && y in s.record && y in t.record && t.record[y] == s.record[y]
    && (y in t.free <==> y in s.free) && (y in t.ready <==> y in s.ready)
    && (t.worker.reading == Some(y) <==> s.worker.reading == Some(y))
  }

  // An action about one slot: every other slot keeps its record and its place.
  ghost predicate OnlyTouches(s: Stream, t: Stream, x: SlotId) {
    && x in s.record && t.record.Keys == s.record.Keys
    && t.slots == s.slots && t.active == s.active
    && t.worker.released == s.worker.released && t.worker.created == s.worker.created
    && forall y :: y in s.record && y != x ==> SamePlace(s, t, y)
  }

  lemma OneSlotOk(s: Stream, t: Stream, x: SlotId)
    requires OnlyTouches(s, t, x) && SlotOk(t, x)
    requires forall y :: y in s.record ==> SlotOk(s, y)
    ensures forall y :: y in t.record ==> SlotOk(t, y)
  {
    forall y | y in t.record ensures SlotOk(t, y) {
      assert SlotOk(s, y);
      assert y != x ==> SamePlace(s, t, y);
    }
  }

  lemma OneSlot(s: Stream, t: Stream, x: SlotId)
    requires Inv(s) && OnlyTouches(s, t, x) && SlotOk(t, x) && Queues(t) && Counters(t)
    ensures Inv(t)
  {
    OneSlotOk(s, t, x);
  }

  // How the counted sets change when one slot changes its state.
  lemma StateSets(record: map<SlotId, Slot>, x: SlotId, r: Slot, state: SlotState)
    requires x in record
    ensures |InState(record[x := r], state)| ==
            |InState(record, state)| - One(record[x].state == state) + One(r.state == state)
  {
    var before, after := InState(record, state), InState(record[x := r], state);
    assert after - {x} == before - {x};
    assert |after| == |after - {x}| + One(x in after);
    assert |before| == |before - {x}| + One(x in before);
    assert x in before <==> record[x].state == state;
    assert x in after <==> r.state == state;
  }

  lemma CountersFollow(s: Stream, t: Stream, x: SlotId, r: Slot)
    requires Counters(s) && x in s.record && t.record == s.record[x := r]
    requires t.slots == s.slots && t.maxSlots == s.maxSlots && t.active == s.active
    requires t.pendingAllocations == s.pendingAllocations
    requires t.worker == s.worker.(reading := t.worker.reading)
    requires t.activeTargets ==
             s.activeTargets - One(s.record[x].state == Rendering) + One(r.state == Rendering)
    requires t.activeFrames ==
             s.activeFrames - One(s.record[x].state == CpuReading) + One(r.state == CpuReading)
    ensures Counters(t)
  {
    StateSets(s.record, x, r, Rendering);
    StateSets(s.record, x, r, CpuReading);
  }

  lemma AcquireMoves(s: Stream, x: SlotId)
    requires s.active && s.free != [] && x == s.free[0] && x in s.record && SlotOk(s, x) && Queues(s)
    ensures SlotOk(Acquire(s, true), x) && Queues(Acquire(s, true)) && OnlyTouches(s, Acquire(s, true), x)
  {
  }

  lemma AcquireKeepsInv(s: Stream, retryAllowed: bool)
    requires Inv(s)
    ensures Inv(Acquire(s, retryAllowed))
  {
    if s.active && s.free != [] {
      var x := s.free[0];
      assert x in s.record && SlotOk(s, x);
      AcquireMoves(s, x);
      CountersFollow(s, Acquire(s, true), x, NEW_SLOT.(state := Rendering, targets := 1));
      OneSlot(s, Acquire(s, true), x);
    } else {
      AcquireMisses(s, retryAllowed);
    }
  }

  lemma AcquireMisses(s: Stream, retryAllowed: bool)
    requires Inv(s) && (!s.active || s.free == [])
    ensures Inv(Acquire(s, retryAllowed))
  {
    SameRecords(s, Acquire(s, retryAllowed));
  }

  // An action that leaves the slots, and where they are, alone.
  lemma SameRecords(s: Stream, t: Stream)
    requires Inv(s) && Counters(t)
    requires t.record == s.record && t.slots == s.slots && t.free == s.free && t.ready == s.ready
    requires t.active == s.active && t.worker.reading == s.worker.reading
    requires t.worker.created == s.worker.created && t.worker.released == s.worker.released
    ensures Inv(t)
  {
    forall x | x in t.record ensures SlotOk(t, x) {
      assert SlotOk(s, x);
    }
  }

  lemma SubmitMoves(s: Stream, x: SlotId)
    requires x in s.record && s.record[x].targets > 0 && SlotOk(s, x) && Queues(s)
    ensures SlotOk(SubmitTarget(s, x), x) && Queues(SubmitTarget(s, x)) && OnlyTouches(s, SubmitTarget(s, x), x)
  {
  }

  lemma SubmitKeepsInv(s: Stream, x: SlotId)
    requires Inv(s) && x in s.record && s.record[x].targets > 0
    ensures Inv(SubmitTarget(s, x))
  {
    var t := SubmitTarget(s, x);
    assert SlotOk(s, x);
    SubmitMoves(s, x);
    CountersFollow(s, t, x, t.record[x]);
    OneSlot(s, t, x);
  }

  lemma ReturnTargetMoves(s: Stream, x: SlotId)
    requires x in s.record && s.record[x].targets > 0 && SlotOk(s, x) && Queues(s)
    ensures SlotOk(ReturnTarget(s, x), x) && Queues(ReturnTarget(s, x)) && OnlyTouches(s, ReturnTarget(s, x), x)
  {
  }

  lemma ReturnTargetKeepsInv(s: Stream, x: SlotId)
    requires Inv(s) && x in s.record && s.record[x].targets > 0
    ensures Inv(ReturnTarget(s, x))
  {
    var t := ReturnTarget(s, x);
    assert SlotOk(s, x);
    ReturnTargetMoves(s, x);
    CountersFollow(s, t, x, t.record[x]);
    OneSlot(s, t, x);
  }

  lemma ReturnFrameMoves(s: Stream, x: SlotId)
    requires x in s.record && s.record[x].frames > 0 && SlotOk(s, x) && Queues(s)
    ensures SlotOk(ReturnFrame(s, x), x) && Queues(ReturnFrame(s, x)) && OnlyTouches(s, ReturnFrame(s, x), x)
  {
  }

  lemma ReturnFrameKeepsInv(s: Stream, x: SlotId)
    requires Inv(s) && x in s.record && s.record[x].frames > 0
    ensures Inv(ReturnFrame(s, x))
  {
    var t := ReturnFrame(s, x);
    assert SlotOk(s, x);
    ReturnFrameMoves(s, x);
    CountersFollow(s, t, x, t.record[x]);
    OneSlot(s, t, x);
  }

  lemma EnqueueMoves(s: Stream, x: SlotId)
    requires Posted(s, Readback(x)) && SlotOk(s, x) && Queues(s)
    ensures var t := Enqueue(s, Readback(x)); SlotOk(t, x) && Queues(t) && OnlyTouches(s, t, x)
  {
  }

  lemma EnqueueKeepsInv(s: Stream, task: Task)
    requires Inv(s) && Posted(s, task)
    ensures Inv(Enqueue(s, task))
  {
    var t := Enqueue(s, task);
    if task.Readback? {
      var x := task.slot;
      assert SlotOk(s, x);
      EnqueueMoves(s, x);
      CountersFollow(s, t, x, t.record[x]);
      OneSlot(s, t, x);
    } else {
      SameRecords(s, t);
    }
  }

  lemma StartReadbackMoves(s: Stream, x: SlotId)
    requires s.worker.reading.None? && x in s.record && s.record[x].tasks > 0 && SlotOk(s, x) && Queues(s)
    ensures var t := StartReadback(s, x); SlotOk(t, x) && Queues(t) && OnlyTouches(s, t, x)
  {
  }

  lemma StartReadbackKeepsInv(s: Stream, x: SlotId)
    requires Inv(s) && s.worker.reading.None? && x in s.record && s.record[x].tasks > 0
    ensures Inv(StartReadback(s, x))
  {
    var t := StartReadback(s, x);
    assert SlotOk(s, x);
    StartReadbackMoves(s, x);
    CountersFollow(s, t, x, t.record[x]);
    OneSlot(s, t, x);
  }

  lemma EndReadbackMoves(s: Stream, x: SlotId, succeeded: bool)
    requires s.worker.reading == Some(x) && x in s.record && SlotOk(s, x) && Queues(s)
    ensures var t := EndReadback(s, succeeded); SlotOk(t, x) && Queues(t) && OnlyTouches(s, t, x)
  {
  }

  lemma EndReadbackKeepsInv(s: Stream, x: SlotId, succeeded: bool)
    requires Inv(s) && s.worker.reading == Some(x) && x in s.record
    ensures Inv(EndReadback(s, succeeded))
  {
    var t := EndReadback(s, succeeded);
    assert SlotOk(s, x);
    EndReadbackMoves(s, x, succeeded);
    CountersFollow(s, t, x, t.record[x]);
    OneSlot(s, t, x);
  }

  /** Consuming. */

  // The chosen, passed and remaining slots are the ready list, each slot once.
  ghost predicate Splits(s: Stream, chosen: SlotId, passed: seq<SlotId>, remaining: seq<SlotId>) {
    && chosen in s.ready && chosen !in passed && chosen !in remaining && Distinct(remaining) && Distinct(passed)
    && (forall x :: x in s.ready ==> x == chosen || x in passed || x in remaining)
    && (forall x :: x in passed ==> x in s.ready && x !in remaining)
    && (forall x :: x in remaining ==> x in s.ready)
  }

  lemma HandMoves(s: Stream, chosen: SlotId, passed: seq<SlotId>, remaining: seq<SlotId>, x: SlotId)
    requires Queues(s) && s.active && Splits(s, chosen, passed, remaining)
    requires x in s.record && SlotOk(s, x) && SlotOk(s, chosen)
    ensures SlotOk(Hand(s, chosen, passed, remaining), x)
  {
  }

  lemma HandQueues(s: Stream, chosen: SlotId, passed: seq<SlotId>, remaining: seq<SlotId>)
    requires Queues(s) && s.active && Splits(s, chosen, passed, remaining)
    requires forall x :: x in s.ready ==> SlotOk(s, x)
    ensures Queues(Hand(s, chosen, passed, remaining))
  {
    forall x | x in passed ensures x !in s.free {
      assert SlotOk(s, x);
    }
    DistinctConcat(s.free, passed);
  }

  lemma DistinctConcat<T>(a: seq<T>, b: seq<T>)
    requires Distinct(a) && Distinct(b) && forall x :: x in b ==> x !in a
    ensures Distinct(a + b)
  {
    var c := a + b;
    forall i, j | 0 <= i < j < |c| ensures c[i] != c[j] {
      if i < |a| && j >= |a| {
        assert c[j] in b && c[i] in a;
      }
    }
  }

  // One slot starts to be read by the CPU; no other starts or stops being read or rendered.
  lemma HandStates(record: map<SlotId, Slot>, chosen: SlotId, passed: seq<SlotId>, r: Slot)
    requires chosen in record && record[chosen].state == Ready && r.state == CpuReading
    requires forall x :: x in passed ==> x in record && record[x].state == Ready
    ensures InState(Released(record, passed)[chosen := r], Rendering) == InState(record, Rendering)
    ensures InState(Released(record, passed)[chosen := r], CpuReading) == InState(record, CpuReading) + {chosen}
    ensures chosen !in InState(record, CpuReading)
  {
  }

  lemma HandCounters(s: Stream, chosen: SlotId, passed: seq<SlotId>, remaining: seq<SlotId>)
    requires Counters(s) && Splits(s, chosen, passed, remaining)
    requires forall x :: x in s.ready ==> x in s.record && s.record[x].state == Ready
    ensures Counters(Hand(s, chosen, passed, remaining))
  {
    var t := Hand(s, chosen, passed, remaining);
    HandStates(s.record, chosen, passed, t.record[chosen]);
    assert |InState(s.record, CpuReading) + {chosen}| == |InState(s.record, CpuReading)| + 1;
  }

  lemma HandKeepsInv(s: Stream, chosen: SlotId, passed: seq<SlotId>, remaining: seq<SlotId>)
    requires Inv(s) && s.active && Splits(s, chosen, passed, remaining)
    ensures Inv(Hand(s, chosen, passed, remaining))
  {
    var t := Hand(s, chosen, passed, remaining);
    assert forall x :: x in s.ready ==> SlotOk(s, x);
    HandQueues(s, chosen, passed, remaining);
    forall x | x in s.ready ensures s.record[x].state == Ready {
      assert SlotOk(s, x);
    }
    HandCounters(s, chosen, passed, remaining);
    forall x | x in t.record ensures SlotOk(t, x) {
      assert SlotOk(s, x) && SlotOk(s, chosen);
      HandMoves(s, chosen, passed, remaining, x);
    }
  }

  lemma FirstSplits(s: Stream)
    requires Queues(s) && s.ready != []
    ensures Splits(s, s.ready[0], [], s.ready[1..])
  {
    assert s.ready == [s.ready[0]] + s.ready[1..];
  }

  lemma LastSplits(s: Stream)
    requires Queues(s) && s.ready != []
    ensures Splits(s, s.ready[|s.ready| - 1], s.ready[..|s.ready| - 1], [])
  {
    assert s.ready == s.ready[..|s.ready| - 1] + [s.ready[|s.ready| - 1]];
  }

  lemma TakeKeepsInv(s: Stream)
    requires Inv(s)
    ensures Inv(TakeOldest(s)) && Inv(TakeLatest(s))
  {
    if s.active && s.ready != [] {
      FirstSplits(s);
      LastSplits(s);
      HandKeepsInv(s, s.ready[0], [], s.ready[1..]);
      HandKeepsInv(s, s.ready[|s.ready| - 1], s.ready[..|s.ready| - 1], []);
    }
  }

  /** Making and releasing slots. */

  lemma AllocateMoves(s: Stream, made: SlotId, x: SlotId)
    requires s.worker.allocateTasks > 0 && s.active && Queues(s) && made !in s.record
    requires x in s.record ==> SlotOk(s, x)
    requires x in s.record || x == made
    ensures SlotOk(AllocateSlot(s, Made(made)), x)
  {
  }

  lemma AllocateQueues(s: Stream, outcome: Allocation)
    requires s.worker.allocateTasks > 0 && Queues(s) && (outcome.Made? ==> outcome.slot !in s.record)
    ensures Queues(AllocateSlot(s, outcome))
  {
    if outcome.Made? {
      assert outcome.slot !in s.slots by { assert outcome.slot !in Elements(s.slots); }
      assert Elements(s.slots + [outcome.slot]) == Elements(s.slots) + {outcome.slot};
    }
  }

  lemma AllocateCounters(s: Stream, outcome: Allocation)
    requires s.worker.allocateTasks > 0 && Counters(s) && (outcome.Made? ==> outcome.slot !in s.record)
    ensures Counters(AllocateSlot(s, outcome))
  {
    var t := AllocateSlot(s, outcome);
    assert InState(t.record, Rendering) == InState(s.record, Rendering);
    assert InState(t.record, CpuReading) == InState(s.record, CpuReading);
  }

  lemma AllocateKeepsInv(s: Stream, outcome: Allocation)
    requires Inv(s) && s.worker.allocateTasks > 0 && (outcome.Made? ==> outcome.slot !in s.worker.created)
    ensures Inv(AllocateSlot(s, outcome))
  {
    var t := AllocateSlot(s, outcome);
    AllocateQueues(s, outcome);
    AllocateCounters(s, outcome);
    forall x | x in t.record ensures SlotOk(t, x) {
      assert x in s.record ==> SlotOk(s, x);
      if outcome.Made? && s.active {
        AllocateMoves(s, outcome.slot, x);
      }
    }
  }

  lemma CloseKeepsInv(s: Stream)
    requires Inv(s) && s.active
    ensures Inv(CloseStream(s))
  {
    var t := CloseStream(s);
    forall x | x in t.record ensures SlotOk(t, x) {
      assert SlotOk(s, x);
    }
  }

  lemma DestroyReleases(s: Stream)
    requires Queues(s) && ReleasedOnce(s) && s.worker.destroyTasks > 0 && !DestroyBlocked(s)
    ensures ReleasedOnce(Destroy(s))
  {
    DistinctCounts(s.slots);
    assert multiset(s.slots) == multiset(s.record.Keys);
    var t := Destroy(s);
    forall x | x in t.worker.created ensures t.worker.released[x] == 1 {
      assert x in s.worker.created;
    }
    assert t.worker.released <= multiset(t.worker.created);
  }

  lemma DestroyKeepsInv(s: Stream)
    requires Inv(s) && s.worker.destroyTasks > 0 && s.worker.reading.None?
    ensures Inv(Destroy(s))
  {
    if !DestroyBlocked(s) {
      DestroyReleases(s);
      var t := Destroy(s);
      assert InState(t.record, Rendering) == {} && InState(t.record, CpuReading) == {};
    }
  }

  // What a destruction releases: only slots no lease, no task and no transfer holds, that is every slot left.
  lemma DestroyReleasesIdleSlots(s: Stream, x: SlotId)
    requires Inv(s) && s.worker.destroyTasks > 0 && s.worker.reading.None? && !DestroyBlocked(s) && x in s.record
    ensures var o := OwnersOf(s, x); o.targets == 0 && o.readbacks == 0 && o.frames == 0
    ensures Destroy(s).worker.released[x] == s.worker.released[x] + 1 == 1
  {
    assert SlotOk(s, x);
    assert s.record[x].state !in {Rendering, Queued, CpuReading};
    DistinctCounts(s.slots);
    assert x in Elements(s.slots);
  }

  // Shutdown cannot get stuck: once the leases are gone and the worker has nothing but the destruction left, the
  // destruction goes through.
  lemma ShutdownCompletes(s: Stream)
    requires Inv(s) && !s.active && s.worker.reading.None? && s.activeTargets == s.activeFrames == 0
    requires s.worker.allocateTasks == s.worker.allocatePosted == 0
    requires forall x :: x in s.record ==> s.record[x].posted == s.record[x].tasks == 0
    ensures !DestroyBlocked(s)
    ensures !s.worker.destroyed ==> s.worker.destroyTasks + s.worker.destroyPosted == 1
  {
    forall x | x in s.record ensures s.record[x].state !in {Rendering, Queued, CpuReading} {
      assert SlotOk(s, x);
      assert InState(s.record, Rendering) == {} && InState(s.record, CpuReading) == {};
      assert x !in InState(s.record, Rendering) && x !in InState(s.record, CpuReading);
    }
  }

  lemma StepKeepsInv(s: Stream, a: Action)
    requires Inv(s) && Enabled(s, a)
    ensures Inv(Step(s, a))
  {
    match a
    case TryAcquire(retryAllowed) => AcquireKeepsInv(s, retryAllowed);
    case Miss => SameRecords(s, Missed(s));
    case Submit(x) => SubmitKeepsInv(s, x);
    case DropTarget(x) => ReturnTargetKeepsInv(s, x);
    case ConsumeOldest => TakeKeepsInv(s);
    case ConsumeLatest => TakeKeepsInv(s);
    case DropFrame(x) => ReturnFrameKeepsInv(s, x);
    case Close => CloseKeepsInv(s);
    case Post(t) => EnqueueKeepsInv(s, t);
    case RunAllocate(outcome) => AllocateKeepsInv(s, outcome);
    case BeginReadback(x) => StartReadbackKeepsInv(s, x);
    case FinishReadback(ok) => EndReadbackKeepsInv(s, s.worker.reading.value, ok);
    case RunDestroy => DestroyKeepsInv(s);
  }

  /** Runs. */

  ghost predicate Reaches(maxSlots: nat, initialSlots: nat, run: seq<Action>, s: Stream)
    requires 0 < maxSlots && initialSlots <= maxSlots
    decreases |run|
  {
    if run == [] then s == Init(maxSlots, initialSlots)
    else exists before :: Reaches(maxSlots, initialSlots, run[..|run| - 1], before) && LastStep(run, before, s)
  }

  ghost predicate LastStep(run: seq<Action>, before: Stream, s: Stream)
    requires run != []
  {
    Queues(before) && Enabled(before, run[|run| - 1]) && s == Step(before, run[|run| - 1])
  }

  lemma {:induction false} RunsKeepInv(maxSlots: nat, initialSlots: nat, run: seq<Action>, s: Stream)
    requires 0 < maxSlots && initialSlots <= maxSlots && Reaches(maxSlots, initialSlots, run, s)
    ensures Inv(s)
    decreases |run|
  {
    if run != [] {
      var before :| Reaches(maxSlots, initialSlots, run[..|run| - 1], before) && LastStep(run, before, s);
      RunsKeepInv(maxSlots, initialSlots, run[..|run| - 1], before);
      StepKeepsInv(before, run[|run| - 1]);
    }
  }

  // In every reachable state each slot has exactly the one holder its state names; while the stream is active the
  // five states account for all slots, and the lists and lease counters for the slots in theirs.
  lemma EveryRunSplitsSlots(maxSlots: nat, initialSlots: nat, run: seq<Action>, s: Stream)
    requires 0 < maxSlots && initialSlots <= maxSlots && Reaches(maxSlots, initialSlots, run, s)
    ensures forall x :: x in s.record ==> OwnedAsState(OwnersOf(s, x), s.record[x].state, s.active)
    ensures |InState(s.record, Rendering)| == s.activeTargets && |InState(s.record, CpuReading)| == s.activeFrames
    ensures |InState(s.record, Ready)| == |s.ready|
    ensures s.active ==> |InState(s.record, Free)| == |s.free|
    ensures s.active ==>
      |s.slots| == |s.free| + s.activeTargets + |InState(s.record, Queued)| + |s.ready| + s.activeFrames <= s.maxSlots
  {
    RunsKeepInv(maxSlots, initialSlots, run, s);
    SlotsSplit(s);
  }

  lemma SlotsSplit(s: Stream)
    requires Inv(s)
    ensures |InState(s.record, Rendering)| == s.activeTargets && |InState(s.record, CpuReading)| == s.activeFrames
    ensures |InState(s.record, Ready)| == |s.ready|
    ensures s.active ==> |InState(s.record, Free)| == |s.free|
    ensures s.active ==>
      |s.slots| == |s.free| + s.activeTargets + |InState(s.record, Queued)| + |s.ready| + s.activeFrames <= s.maxSlots
  {
    ListsAreStates(s);
    StatesPartition(s.record);
    DistinctCounts(s.slots);
  }

  lemma ListsAreStates(s: Stream)
    requires Inv(s)
    ensures InState(s.record, Ready) == Elements(s.ready) && |Elements(s.ready)| == |s.ready|
    ensures s.active ==> InState(s.record, Free) == Elements(s.free)
    ensures |Elements(s.free)| == |s.free|
  {
    DistinctCounts(s.ready);
    DistinctCounts(s.free);
    forall x | x in s.record ensures x in s.ready <==> s.record[x].state == Ready {
      assert SlotOk(s, x);
    }
    forall x | x in s.record && s.active ensures x in s.free <==> s.record[x].state == Free {
      assert SlotOk(s, x);
    }
  }

  lemma StatesPartition(record: map<SlotId, Slot>)
    ensures |record.Keys| == |InState(record, Free)| + |InState(record, Rendering)| + |InState(record, Queued)|
                             + |InState(record, Ready)| + |InState(record, CpuReading)|
  {
    var a, b, c := InState(record, Free), InState(record, Rendering), InState(record, Queued);
    var d, e := InState(record, Ready), InState(record, CpuReading);
    assert record.Keys == a + b + c + d + e;
    assert |a + b| == |a| + |b|;
    assert |a + b + c| == |a + b| + |c|;
    assert |a + b + c + d| == |a + b + c| + |d|;
    assert |a + b + c + d + e| == |a + b + c + d| + |e|;
  }

  // No slot's resources are released twice, and none of those still in use.
  lemma EveryRunReleasesEachSlotOnce(maxSlots: nat, initialSlots: nat, run: seq<Action>, s: Stream)
    requires 0 < maxSlots && initialSlots <= maxSlots && Reaches(maxSlots, initialSlots, run, s)
    ensures forall x :: x in s.worker.created ==> s.worker.released[x] == if x in s.record then 0 else 1
    ensures s.worker.destroyed ==> s.worker.released == multiset(s.worker.created)
  {
    RunsKeepInv(maxSlots, initialSlots, run, s);
    if s.worker.destroyed {
      assert s.record.Keys == {};
    }
  }
}
