/**
 The readback stream's slot protocol as a state machine. A slot is free, rendered into through a target, queued for
 the worker, ready, or read by the CPU through a frame. An action is one critical section; a task is posted before
 the worker has it.
 */
module ReadbackProtocol {
  import opened Common

  type SlotId = nat

  datatype SlotState = Free | Rendering | Queued | Ready | CpuReading

  // How often a slot is named: by unsubmitted targets, by readback tasks about to be enqueued and enqueued, by frames.
  datatype Slot = Slot(state: SlotState, targets: nat, posted: nat, tasks: nat, frames: nat)

  const NEW_SLOT := Slot(Free, 0, 0, 0, 0)

  // Worker tasks that name no slot, the slot the worker reads back, and the slots made and released.
  datatype Worker = Worker(
    allocateTasks: nat,
    allocatePosted: nat,
    destroyTasks: nat,
    destroyPosted: nat,
    reading: Option<SlotId>,
    created: set<SlotId>,
    released: multiset<SlotId>,
    destroyed: bool)

  datatype Counts = Counts(acquireMisses: nat, transfersCompleted: nat, transferFailures: nat)

  datatype Stream = Stream(
    maxSlots: nat,
    slots: seq<SlotId>,
    record: map<SlotId, Slot>,
    free: seq<SlotId>,
    ready: seq<SlotId>,
    pendingAllocations: int,
    activeTargets: int,
    activeFrames: int,
    allocationFailed: bool,
    active: bool,
    counts: Counts,
    worker: Worker)

  // What comes of an allocation: one that starts on a closed stream is given up at once.
  datatype Allocation = Abandoned | Failed | Made(slot: SlotId)

  datatype Task = Allocate | Readback(slot: SlotId) | DestroyStream

  datatype Action =
    | TryAcquire(retryAllowed: bool)
    | Miss
    | Submit(slot: SlotId)
    | DropTarget(slot: SlotId)
    | ConsumeOldest
    | ConsumeLatest
    | DropFrame(slot: SlotId)
    | Close
    | Post(task: Task)
    | RunAllocate(outcome: Allocation)
    | BeginReadback(slot: SlotId)
    | FinishReadback(succeeded: bool)
    | RunDestroy

  /** Ownership. */

  datatype Owners = Owners(free: bool, targets: nat, readbacks: nat, ready: bool, frames: nat)

  ghost function One(b: bool): nat {
    if b then 1 else 0
  }

  ghost function OwnersOf(s: Stream, x: SlotId): Owners
    requires x in s.record
  {
    var r := s.record[x];
    Owners(x in s.free, r.targets, r.posted + r.tasks + One(s.worker.reading == Some(x)), x in s.ready, r.frames)
  }

  // The one place that holds a slot, as its state names it. A slot freed after close is held by nobody.
  ghost predicate OwnedAsState(o: Owners, state: SlotState, active: bool) {
    match state
    case Free => o == Owners(true, 0, 0, false, 0) || (!active && o == Owners(false, 0, 0, false, 0))
    case Rendering => o == Owners(false, 1, 0, false, 0)
    case Queued => o == Owners(false, 0, 1, false, 0)
    case Ready => o == Owners(false, 0, 0, true, 0)
    case CpuReading => o == Owners(false, 0, 0, false, 1)
  }

  ghost predicate SlotOk(s: Stream, x: SlotId)
    requires x in s.record
  {
    OwnedAsState(OwnersOf(s, x), s.record[x].state, s.active)
  }

  ghost predicate Queues(s: Stream) {
    && Distinct(s.slots) && s.record.Keys == Elements(s.slots)
    && Distinct(s.free) && (forall x :: x in s.free ==> x in s.record)
    && Distinct(s.ready) && (forall x :: x in s.ready ==> x in s.record)
    && (s.worker.reading.Some? ==> s.worker.reading.value in s.record)
  }

  ghost function InState(record: map<SlotId, Slot>, state: SlotState): set<SlotId> {
    set x | x in record && record[x].state == state
  }

  ghost predicate ReleasedOnce(s: Stream) {
    && s.record.Keys <= s.worker.created
    && s.worker.released <= multiset(s.worker.created)
    && forall x :: x in s.worker.created ==> s.worker.released[x] == (if x in s.record then 0 else 1)
  }

  // The lease counters count the slots in the states their leases hold.
  ghost predicate Counters(s: Stream) {
    && s.activeTargets == |InState(s.record, Rendering)|
    && s.activeFrames == |InState(s.record, CpuReading)|
    && s.pendingAllocations == s.worker.allocateTasks + s.worker.allocatePosted
    && |s.slots| + s.pendingAllocations <= s.maxSlots
    && s.worker.destroyTasks + s.worker.destroyPosted == One(!s.active && !s.worker.destroyed)
    && (s.worker.destroyed ==> s.slots == [] && s.pendingAllocations == 0 && !s.active)
  }

  ghost predicate Inv(s: Stream) {
    && Queues(s)
    && (forall x :: x in s.record ==> SlotOk(s, x))
    && ReleasedOnce(s)
    && Counters(s)
  }

  /** Steps. */

  ghost function Init(maxSlots: nat, initialSlots: nat): (s: Stream)
    requires 0 < maxSlots && initialSlots <= maxSlots
    ensures Inv(s)
  {
    Stream(maxSlots, [], map[], [], [], initialSlots, 0, 0, false, true, Counts(0, 0, 0),
           Worker(initialSlots, 0, 0, 0, None, {}, multiset{}, false))
  }

  ghost function Missed(s: Stream): Stream {
    s.(counts := s.counts.(acquireMisses := s.counts.acquireMisses + 1))
  }

  ghost function Acquire(s: Stream, retryAllowed: bool): Stream {
    if !s.active then s
    else if s.free != [] then
      s.(free := s.free[1..], record := s.record[s.free[0] := NEW_SLOT.(state := Rendering, targets := 1)],
         activeTargets := s.activeTargets + 1)
    else if |s.slots| + s.pendingAllocations < s.maxSlots && s.pendingAllocations == 0 && retryAllowed then
      Missed(s.(pendingAllocations := s.pendingAllocations + 1,
                worker := s.worker.(allocatePosted := s.worker.allocatePosted + 1)))
    else Missed(s)
  }

  ghost function SubmitTarget(s: Stream, x: SlotId): Stream
    requires x in s.record && s.record[x].targets > 0
  {
    var r := s.record[x];
    if !s.active || r.state != Rendering then s
    else s.(record := s.record[x := r.(state := Queued, targets := r.targets - 1, posted := r.posted + 1)],
            activeTargets := s.activeTargets - 1)
  }

  // A slot whose lease ends in the state the lease stands for becomes free; after close no list takes it.
  ghost function Freed(s: Stream, x: SlotId, r: Slot): Stream {
    s.(record := s.record[x := r.(state := Free)], free := if s.active then s.free + [x] else s.free)
  }

  ghost function ReturnTarget(s: Stream, x: SlotId): Stream
    requires x in s.record && s.record[x].targets > 0
  {
    var r := s.record[x].(targets := s.record[x].targets - 1);
    if r.state != Rendering then s.(record := s.record[x := r])
    else Freed(s, x, r).(activeTargets := s.activeTargets - 1)
  }

  ghost function ReturnFrame(s: Stream, x: SlotId): Stream
    requires x in s.record && s.record[x].frames > 0
  {
    var r := s.record[x].(frames := s.record[x].frames - 1);
    if r.state != CpuReading then s.(record := s.record[x := r])
    else Freed(s, x, r).(activeFrames := s.activeFrames - 1)
  }

  ghost function Released(record: map<SlotId, Slot>, xs: seq<SlotId>): (r: map<SlotId, Slot>)
    ensures r.Keys == record.Keys
    ensures forall x :: x in record ==> r[x] == if x in xs then record[x].(state := Free) else record[x]
  {
    map x | x in record :: if x in xs then record[x].(state := Free) else record[x]
  }

  // A ready slot is handed to the CPU; those passed over go back to the free list in their order.
  ghost function Hand(s: Stream, chosen: SlotId, passed: seq<SlotId>, remaining: seq<SlotId>): Stream
    requires chosen in s.record
  {
    var r := s.record[chosen];
    s.(ready := remaining, free := s.free + passed,
       record := Released(s.record, passed)[chosen := r.(state := CpuReading, frames := r.frames + 1)],
       activeFrames := s.activeFrames + 1)
  }

  ghost function TakeOldest(s: Stream): Stream
    requires Queues(s)
  {
    if !s.active || s.ready == [] then s else Hand(s, s.ready[0], [], s.ready[1..])
  }

  ghost function TakeLatest(s: Stream): Stream
    requires Queues(s)
  {
    if !s.active || s.ready == [] then s else Hand(s, s.ready[|s.ready| - 1], s.ready[..|s.ready| - 1], [])
  }

  ghost function CloseStream(s: Stream): Stream {
    s.(active := false, worker := s.worker.(destroyPosted := s.worker.destroyPosted + 1))
  }

  ghost predicate Posted(s: Stream, t: Task) {
    match t
    case Allocate => s.worker.allocatePosted > 0
    case Readback(x) => x in s.record && s.record[x].posted > 0
    case DestroyStream => s.worker.destroyPosted > 0
  }

  ghost function Enqueue(s: Stream, t: Task): Stream
    requires Posted(s, t)
  {
    match t
    case Allocate => s.(worker := s.worker.(allocatePosted := s.worker.allocatePosted - 1,
                                            allocateTasks := s.worker.allocateTasks + 1))
    case DestroyStream => s.(worker := s.worker.(destroyPosted := s.worker.destroyPosted - 1,
                                                 destroyTasks := s.worker.destroyTasks + 1))
    case Readback(x) =>
      var r := s.record[x];
      s.(record := s.record[x := r.(posted := r.posted - 1, tasks := r.tasks + 1)])
  }

  ghost function AllocateSlot(s: Stream, outcome: Allocation): Stream
    requires s.worker.allocateTasks > 0
  {
    var w := s.worker.(allocateTasks := s.worker.allocateTasks - 1);
    var t := s.(worker := w, pendingAllocations := s.pendingAllocations - 1);
    match outcome
    case Abandoned => t
    case Failed => t.(allocationFailed := true)
    case Made(x) =>
      var v := w.(created := w.created + {x});
      if !s.active then t.(worker := v.(released := w.released + multiset{x}))
      else t.(worker := v, allocationFailed := false, slots := s.slots + [x], record := s.record[x := NEW_SLOT],
              free := s.free + [x])
  }

  ghost function StartReadback(s: Stream, x: SlotId): Stream
    requires x in s.record && s.record[x].tasks > 0
  {
    s.(record := s.record[x := s.record[x].(tasks := s.record[x].tasks - 1)],
       worker := s.worker.(reading := Some(x)))
  }

  ghost function EndReadback(s: Stream, succeeded: bool): Stream
    requires s.worker.reading.Some? && s.worker.reading.value in s.record
  {
    var x := s.worker.reading.value;
    var idle := s.(worker := s.worker.(reading := None));
    var c := s.counts;
    if !succeeded then Freed(idle, x, s.record[x]).(counts := c.(transferFailures := c.transferFailures + 1))
    else if !s.active then Freed(idle, x, s.record[x])
    else idle.(counts := c.(transfersCompleted := c.transfersCompleted + 1),
               record := s.record[x := s.record[x].(state := Ready)], ready := s.ready + [x])
  }

  ghost predicate InFlight(s: Stream) {
    exists x :: x in s.record && s.record[x].state in {Rendering, Queued, CpuReading}
  }

  ghost predicate DestroyBlocked(s: Stream) {
    s.pendingAllocations != 0 || s.activeTargets != 0 || s.activeFrames != 0 || InFlight(s)
  }

  ghost function Destroy(s: Stream): Stream
    requires s.worker.destroyTasks > 0
  {
    if DestroyBlocked(s) then s
    else s.(slots := [], record := map[], free := [], ready := [],
            worker := s.worker.(destroyTasks := s.worker.destroyTasks - 1, destroyed := true,
                                released := s.worker.released + multiset(s.slots)))
  }

  // When an action can happen: a lease is used while it lives, the worker runs one task at a time, the stream is
  // closed once, and a slot newly made is a new object.
  ghost predicate Enabled(s: Stream, a: Action) {
    match a
    case TryAcquire(_) => true
    case Miss => true
    case Submit(x) => x in s.record && s.record[x].targets > 0
    case DropTarget(x) => x in s.record && s.record[x].targets > 0
    case ConsumeOldest => true
    case ConsumeLatest => true
    case DropFrame(x) => x in s.record && s.record[x].frames > 0
    case Close => s.active
    case Post(t) => Posted(s, t)
    case RunAllocate(outcome) =>
      s.worker.reading.None? && s.worker.allocateTasks > 0
      && (outcome.Abandoned? ==> !s.active) && (outcome.Made? ==> outcome.slot !in s.worker.created)
    case BeginReadback(x) => s.worker.reading.None? && x in s.record && s.record[x].tasks > 0
    case FinishReadback(_) => s.worker.reading.Some?
    case RunDestroy => s.worker.reading.None? && s.worker.destroyTasks > 0
  }

  ghost function Step(s: Stream, a: Action): Stream
    requires Queues(s) && Enabled(s, a)
  {
    match a
    case TryAcquire(retryAllowed) => Acquire(s, retryAllowed)
    case Miss => Missed(s)
    case Submit(x) => SubmitTarget(s, x)
    case DropTarget(x) => ReturnTarget(s, x)
    case ConsumeOldest => TakeOldest(s)
    case ConsumeLatest => TakeLatest(s)
    case DropFrame(x) => ReturnFrame(s, x)
    case Close => CloseStream(s)
    case Post(t) => Enqueue(s, t)
    case RunAllocate(outcome) => AllocateSlot(s, outcome)
    case BeginReadback(x) => StartReadback(s, x)
    case FinishReadback(ok) => EndReadback(s, ok)
    case RunDestroy => Destroy(s)
  }
}
