/**
 The DeckLink output: frames scheduled with the device from the timed output queue, every frame holding a lease on a
 readback slot, and the slot budget that leaves the render pipeline its headroom.
 */
module DeckLinkOutput {
  import opened Common
  import Q = OutputQueue
  import opened ReadbackProtocol
  import opened ReadbackSafety

  const OUTPUT_QUEUE_HEADROOM: nat := 3
  const READBACK_PIPELINE_HEADROOM: nat := 3
  const RETAINED_PROGRAM_FRAME_COUNT: nat := 1
  const PROGRAM_QUEUE_RESERVE: nat := 1

  function GetOutputQueueCapacity(bufferFrames: nat): nat { bufferFrames + OUTPUT_QUEUE_HEADROOM }

  function GetReadbackSlotCount(scheduledFrames: nat, queueCapacity: nat): nat {
    scheduledFrames + queueCapacity + RETAINED_PROGRAM_FRAME_COUNT + READBACK_PIPELINE_HEADROOM
  }

  datatype Scheduled = Scheduled(buffer: SlotId, sequence: nat, pts: int, streamTime: int, target: int)

  datatype Output = Output(
    queue: Q.Queue,
    scheduled: seq<Scheduled>,
    lastBuffer: Option<SlotId>,
    scheduledTarget: nat,
    frameTime: int,
    frameFlicks: int,
    nextStreamTime: int,
    nextSequence: nat)

  ghost function Init(bufferFrames: nat, earlyTolerance: int, frameTime: int, frameFlicks: int): Output {
    Output(Q.Init(GetOutputQueueCapacity(bufferFrames), earlyTolerance), [], None, bufferFrames, frameTime,
           frameFlicks, 0, 0)
  }

  // The buffer a schedule call would use: the selected frame's, or the one used last.
  ghost function BufferFor(o: Output, target: int): Option<SlotId> {
    var q := Q.Select(o.queue, target);
    if q.current.Some? then Some(q.current.value.payload) else o.lastBuffer
  }

  ghost predicate Schedules(o: Output, target: int, accepted: bool) { BufferFor(o, target).Some? && accepted }

  // Select the frame for a target time and schedule it; the device may refuse.
  ghost function Schedule(o: Output, target: int, accepted: bool): Output {
    var buffer := BufferFor(o, target);
    var selected := o.(queue := Q.Select(o.queue, target), lastBuffer := buffer);
    if buffer.None? || !accepted then selected
    else selected.(scheduled := o.scheduled + [Scheduled(buffer.value, o.nextSequence, o.frameFlicks * o.nextSequence,
                                                         o.nextStreamTime, target)],
                   nextStreamTime := o.nextStreamTime + o.frameTime,
                   nextSequence := o.nextSequence + 1)
  }

  ghost function Complete(o: Output, k: nat): Output
    requires k < |o.scheduled|
  {
    o.(scheduled := Splice(o.scheduled, k))
  }

  ghost function Collect(o: Output, f: Q.Frame): Output {
    o.(queue := Q.Push(o.queue, f))
  }

  /** Scheduled frames follow the device's clock without a gap. */

  ghost predicate InOrder(a: Scheduled, b: Scheduled) { a.sequence < b.sequence }

  ghost predicate OnDeviceGrid(o: Output, s: Scheduled) {
    s.sequence < o.nextSequence && s.pts == o.frameFlicks * s.sequence && s.streamTime == o.frameTime * s.sequence
  }

  ghost predicate Valid(o: Output) {
    && Q.Ordered(o.queue)
    && o.lastBuffer == (if o.queue.current.Some? then Some(o.queue.current.value.payload) else None)
    && |o.scheduled| <= o.scheduledTarget
    && o.nextStreamTime == o.frameTime * o.nextSequence
    && (forall s :: s in o.scheduled ==> OnDeviceGrid(o, s))
    && Pairwise(o.scheduled, InOrder)
  }

  lemma ScheduleKeepsValid(o: Output, target: int, accepted: bool)
    requires Valid(o) && |o.scheduled| < o.scheduledTarget
    ensures Valid(Schedule(o, target, accepted))
  {
    Q.SelectKeepsOrdered(o.queue, target);
    var r := Schedule(o, target, accepted);
    assert o.frameTime * (o.nextSequence + 1) == o.frameTime * o.nextSequence + o.frameTime;
    forall s | s in r.scheduled ensures OnDeviceGrid(r, s) {
      assert s in o.scheduled ==> OnDeviceGrid(o, s);
    }
    forall i, j | 0 <= i < j < |r.scheduled| ensures InOrder(r.scheduled[i], r.scheduled[j]) {
      assert o.scheduled[i] in o.scheduled && OnDeviceGrid(o, o.scheduled[i]);
      if j < |o.scheduled| { assert InOrder(o.scheduled[i], o.scheduled[j]); }
    }
  }

  lemma CompleteKeepsValid(o: Output, k: nat)
    requires Valid(o) && k < |o.scheduled|
    ensures Valid(Complete(o, k)) && |Complete(o, k).scheduled| < o.scheduledTarget
  {
    SplicePairwise(o.scheduled, k, InOrder);
    var r := Complete(o, k);
    forall s | s in r.scheduled ensures OnDeviceGrid(r, s) {
      assert OnDeviceGrid(o, s);
    }
  }

  lemma CollectKeepsValid(o: Output, f: Q.Frame)
    requires Valid(o)
    ensures Valid(Collect(o, f))
  {
    Q.PushKeepsOrdered(o.queue, f);
    var r := Collect(o, f);
    forall s | s in r.scheduled ensures OnDeviceGrid(r, s) {
      assert OnDeviceGrid(o, s);
    }
  }

  /** The slots the output holds. */

  ghost function QueuedBuffers(frames: seq<Q.Frame>): set<SlotId> { set f | f in frames :: f.payload }

  ghost function ScheduledBuffers(scheduled: seq<Scheduled>): set<SlotId> { set s | s in scheduled :: s.buffer }

  ghost function CurrentBuffer(q: Q.Queue): set<SlotId> {
    if q.current.Some? then {q.current.value.payload} else {}
  }

  ghost function Held(o: Output): set<SlotId> {
    QueuedBuffers(o.queue.frames) + CurrentBuffer(o.queue) + ScheduledBuffers(o.scheduled)
  }

  lemma {:induction false} FewQueuedBuffers(frames: seq<Q.Frame>)
    ensures |QueuedBuffers(frames)| <= |frames|
  {
    if frames != [] {
      var f, rest := frames[0], frames[1..];
      assert frames == [f] + rest;
      assert QueuedBuffers(frames) == {f.payload} + QueuedBuffers(rest);
      FewQueuedBuffers(rest);
    }
  }

  lemma {:induction false} FewScheduledBuffers(scheduled: seq<Scheduled>)
    ensures |ScheduledBuffers(scheduled)| <= |scheduled|
  {
    if scheduled != [] {
      var s, rest := scheduled[0], scheduled[1..];
      assert scheduled == [s] + rest;
      assert ScheduledBuffers(scheduled) == {s.buffer} + ScheduledBuffers(rest);
      FewScheduledBuffers(rest);
    }
  }

  lemma HeldIsBounded(o: Output)
    ensures |Held(o)| <= |o.queue.frames| + RETAINED_PROGRAM_FRAME_COUNT + |o.scheduled|
  {
    FewQueuedBuffers(o.queue.frames);
    FewScheduledBuffers(o.scheduled);
    var a, b, c := QueuedBuffers(o.queue.frames), CurrentBuffer(o.queue), ScheduledBuffers(o.scheduled);
    assert |a + b| <= |a| + |b|;
    assert |a + b + c| <= |a + b| + |c|;
  }

  /** Steps on the output alone. */

  // Queueing a completed frame; finding none, or one that is no use; scheduling a frame; taking a completed one off.
  datatype OutputStep =
    | Collecting(frame: Q.Frame)
    | Passing
    | Scheduling(target: int, accepted: bool)
    | Completing(position: nat)

  // The output collects and schedules only when it has fewer frames scheduled than its target.
  ghost predicate CanTake(o: Output, step: OutputStep) {
    if step.Completing? then step.position < |o.scheduled| else |o.scheduled| < o.scheduledTarget
  }

  ghost function Take(o: Output, step: OutputStep): Output
    requires CanTake(o, step)
  {
    match step
    case Collecting(f) => Collect(o, f)
    case Passing => o
    case Scheduling(target, accepted) => Schedule(o, target, accepted)
    case Completing(k) => Complete(o, k)
  }

  // Steps that lead from one output to another, each possible when its turn comes.
  ghost predicate Plays(o: Output, steps: seq<OutputStep>, r: Output)
    decreases |steps|
  {
    if steps == [] then r == o else CanTake(o, steps[0]) && Plays(Take(o, steps[0]), steps[1..], r)
  }

  lemma {:induction false} PlaysOn(o: Output, steps: seq<OutputStep>, m: Output, more: seq<OutputStep>, r: Output)
    requires Plays(o, steps, m) && Plays(m, more, r)
    ensures Plays(o, steps + more, r)
    decreases |steps|
  {
    if steps == [] {
      assert steps + more == more;
    } else {
      PlaysOn(Take(o, steps[0]), steps[1..], m, more, r);
      assert (steps + more)[1..] == steps[1..] + more;
    }
  }

  /** The output together with the readback stream it draws from. */

  // While a completion is being handled the device still holds the completed frame.
  datatype Pipeline = Pipeline(stream: Stream, output: Output, completing: Option<SlotId>)

  ghost function OptionSet(x: Option<SlotId>): set<SlotId> { if x.Some? then {x.value} else {} }

  ghost function HeldBy(p: Pipeline): set<SlotId> { Held(p.output) + OptionSet(p.completing) }

  // The last reference to a frame gives its lease back; when several go at once, in some order.
  ghost function ReturnAll(s: Stream, xs: seq<SlotId>): Stream
    decreases |xs|
  {
    if xs == [] then s
    else if xs[0] in s.record && s.record[xs[0]].frames > 0 then ReturnAll(ReturnFrame(s, xs[0]), xs[1..])
    else ReturnAll(s, xs[1..])
  }

  datatype PipelineAction =
    | StreamAction(action: Action)
    | CollectFrame(time: int, usable: bool, returned: seq<SlotId>)
    | ScheduleFrame(target: int, accepted: bool, returned: seq<SlotId>)
    | CompleteFrame(position: nat, returned: seq<SlotId>)
    | EndCompletion(returned: seq<SlotId>)

  ghost predicate Collects(p: Pipeline) { p.stream.active && p.stream.ready != [] }

  // What a pipeline step does to the output.
  ghost function StepOf(p: Pipeline, a: PipelineAction): seq<OutputStep> {
    match a
    case StreamAction(_) => []
    case CollectFrame(time, usable, _) =>
      if Collects(p) && usable then [Collecting(Q.Frame(time, p.stream.ready[0]))] else [Passing]
    case ScheduleFrame(target, accepted, _) => [Scheduling(target, accepted)]
    case CompleteFrame(k, _) => [Completing(k)]
    case EndCompletion(_) => []
  }

  // What stream and device allow: the render thread and the worker act on the stream at any time, the device reports
  // the completion of a scheduled frame, and the next one after the last has been handled.
  ghost predicate Possible(p: Pipeline, a: PipelineAction) {
    match a
    case StreamAction(b) => Enabled(p.stream, b) && !b.ConsumeOldest? && !b.ConsumeLatest? && !b.DropFrame?
    case CollectFrame(_, _, _) => true
    case ScheduleFrame(_, _, _) => true
    case CompleteFrame(k, _) => k < |p.output.scheduled| && p.completing.None?
    case EndCompletion(_) => p.completing.Some?
  }

  ghost predicate TakesTurn(p: Pipeline, a: PipelineAction) {
    StepOf(p, a) != [] ==> CanTake(p.output, StepOf(p, a)[0])
  }

  // The output after a step, and the slots it and the device hold then.
  ghost function After(p: Pipeline, a: PipelineAction): Pipeline
    requires Queues(p.stream) && Possible(p, a)
  {
    match a
    case StreamAction(b) => p.(stream := Step(p.stream, b))
    case CollectFrame(time, usable, _) =>
      if !Collects(p) then p
      else Pipeline(TakeOldest(p.stream),
                    if usable then Collect(p.output, Q.Frame(time, p.stream.ready[0])) else p.output, p.completing)
    case ScheduleFrame(target, accepted, _) => p.(output := Schedule(p.output, target, accepted))
    case CompleteFrame(k, _) =>
      p.(output := Complete(p.output, k), completing := Some(p.output.scheduled[k].buffer))
    case EndCompletion(_) => p.(completing := None)
  }

  // The slot a step takes over from the stream.
  ghost function Taken(p: Pipeline, a: PipelineAction): set<SlotId> {
    if a.CollectFrame? && Collects(p) then {p.stream.ready[0]} else {}
  }

  // What a step lets go of: what was held, or has just been taken over, and is held no more.
  ghost function LetGo(p: Pipeline, a: PipelineAction): set<SlotId>
    requires Queues(p.stream) && Possible(p, a)
  {
    HeldBy(p) + Taken(p, a) - HeldBy(After(p, a))
  }

  ghost predicate Returns(p: Pipeline, a: PipelineAction)
    requires Queues(p.stream) && Possible(p, a)
  {
    a.StreamAction? || (Distinct(a.returned) && Elements(a.returned) == LetGo(p, a))
  }

  ghost predicate PipelineEnabled(p: Pipeline, a: PipelineAction)
    requires Queues(p.stream)
  {
    Possible(p, a) && TakesTurn(p, a) && Returns(p, a)
  }

  ghost function PipelineStep(p: Pipeline, a: PipelineAction): Pipeline
    requires Queues(p.stream) && Possible(p, a)
  {
    var q := After(p, a);
    if a.StreamAction? then q else q.(stream := ReturnAll(q.stream, a.returned))
  }

  // With all frames scheduled again, the frame on show is among them unless playback has not started.
  ghost predicate Refilled(p: Pipeline) {
    p.completing.Some? && |p.output.scheduled| == p.output.scheduledTarget ==>
      CurrentBuffer(p.output.queue) <= ScheduledBuffers(p.output.scheduled)
  }

  ghost predicate PipelineInv(p: Pipeline) {
    && Inv(p.stream) && Valid(p.output)
    && InState(p.stream.record, CpuReading) == HeldBy(p)
    && Refilled(p)
    && p.stream.maxSlots == GetReadbackSlotCount(p.output.scheduledTarget, p.output.queue.capacity)
  }

  lemma ReturnOne(s: Stream, x: SlotId)
    requires Inv(s) && x in InState(s.record, CpuReading)
    ensures s.record[x].frames == 1 && Inv(ReturnFrame(s, x))
    ensures InState(ReturnFrame(s, x).record, CpuReading) == InState(s.record, CpuReading) - {x}
    ensures ReturnFrame(s, x).maxSlots == s.maxSlots
  {
    assert SlotOk(s, x);
    ReturnFrameKeepsInv(s, x);
  }

  lemma FirstOf(xs: seq<SlotId>)
    requires Distinct(xs) && xs != []
    ensures Distinct(xs[1..]) && xs[0] !in Elements(xs[1..]) && Elements(xs) == {xs[0]} + Elements(xs[1..])
  {
    assert xs == [xs[0]] + xs[1..];
  }

  lemma {:induction false} ReturnAllReturns(s: Stream, xs: seq<SlotId>, t: Stream)
    requires Inv(s) && Distinct(xs) && Elements(xs) <= InState(s.record, CpuReading) && t == ReturnAll(s, xs)
    ensures Inv(t) && t.maxSlots == s.maxSlots
    ensures InState(t.record, CpuReading) == InState(s.record, CpuReading) - Elements(xs)
    decreases |xs|
  {
    if xs == [] {
      assert Elements(xs) == {};
    } else {
      FirstOf(xs);
      ReturnOne(s, xs[0]);
      ReturnAllReturns(ReturnFrame(s, xs[0]), xs[1..], t);
    }
  }

  lemma SameReading(s: Stream, t: Stream, x: SlotId)
    requires x in s.record && x in t.record && t.record == s.record[x := t.record[x]]
    requires t.record[x].state == CpuReading <==> s.record[x].state == CpuReading
    ensures InState(t.record, CpuReading) == InState(s.record, CpuReading)
  {
  }

  lemma LeaseStepsLeaveReading(s: Stream, x: SlotId)
    requires x in s.record && s.record[x].targets > 0 && SlotOk(s, x)
    ensures InState(SubmitTarget(s, x).record, CpuReading) == InState(s.record, CpuReading)
    ensures InState(ReturnTarget(s, x).record, CpuReading) == InState(s.record, CpuReading)
  {
    SameReading(s, SubmitTarget(s, x), x);
    SameReading(s, ReturnTarget(s, x), x);
  }

  lemma WorkerStepsLeaveReading(s: Stream, x: SlotId, succeeded: bool)
    requires x in s.record && SlotOk(s, x)
    ensures s.record[x].tasks > 0 ==>
              InState(StartReadback(s, x).record, CpuReading) == InState(s.record, CpuReading)
    ensures s.worker.reading == Some(x) ==>
              InState(EndReadback(s, succeeded).record, CpuReading) == InState(s.record, CpuReading)
  {
    if s.record[x].tasks > 0 {
      SameReading(s, StartReadback(s, x), x);
    }
    if s.worker.reading == Some(x) {
      SameReading(s, EndReadback(s, succeeded), x);
    }
  }

  lemma AcquireLeavesReading(s: Stream, retryAllowed: bool)
    requires Queues(s) && (s.free != [] ==> s.free[0] in s.record && SlotOk(s, s.free[0]))
    ensures InState(Acquire(s, retryAllowed).record, CpuReading) == InState(s.record, CpuReading)
  {
    if s.active && s.free != [] {
      SameReading(s, Acquire(s, retryAllowed), s.free[0]);
    }
  }

  lemma OwnerlessStepsLeaveReading(s: Stream, a: Action)
    requires Enabled(s, a) && Queues(s)
    requires a.Miss? || a.Close? || a.Post? || a.RunAllocate? || a.RunDestroy?
    requires a.RunAllocate? && a.outcome.Made? ==> a.outcome.slot !in s.record
    ensures InState(Step(s, a).record, CpuReading) == InState(s.record, CpuReading)
  {
    if a.Post? && a.task.Readback? {
      SameReading(s, Step(s, a), a.task.slot);
    }
  }

  // Nothing but consuming and returning changes which slots the CPU reads.
  lemma OthersLeaveReading(s: Stream, a: Action)
    requires Queues(s) && (forall x :: x in s.record ==> SlotOk(s, x)) && s.record.Keys <= s.worker.created
    requires Enabled(s, a) && !a.ConsumeOldest? && !a.ConsumeLatest? && !a.DropFrame?
    ensures InState(Step(s, a).record, CpuReading) == InState(s.record, CpuReading)
  {
    match a
    case TryAcquire(retryAllowed) => AcquireLeavesReading(s, retryAllowed);
    case Submit(x) => LeaseStepsLeaveReading(s, x);
    case DropTarget(x) => LeaseStepsLeaveReading(s, x);
    case BeginReadback(x) => WorkerStepsLeaveReading(s, x, true);
    case FinishReadback(ok) => WorkerStepsLeaveReading(s, s.worker.reading.value, ok);
    case _ => OwnerlessStepsLeaveReading(s, a);
  }

  lemma StepKeepsSize(s: Stream, a: Action)
    requires Queues(s) && Enabled(s, a)
    ensures Step(s, a).maxSlots == s.maxSlots
  {
  }

  lemma TakeReads(s: Stream)
    requires Inv(s) && s.active && s.ready != []
    ensures Inv(TakeOldest(s)) && TakeOldest(s).maxSlots == s.maxSlots
    ensures s.ready[0] !in InState(s.record, CpuReading)
    ensures InState(TakeOldest(s).record, CpuReading) == InState(s.record, CpuReading) + {s.ready[0]}
  {
    TakeKeepsInv(s);
    ReadyIsReady(s, s.ready[0]);
    HandStates(s.record, s.ready[0], [], TakeOldest(s).record[s.ready[0]]);
  }

  lemma ReadyIsReady(s: Stream, x: SlotId)
    requires Inv(s) && x in s.ready
    ensures x in s.record && s.record[x].state == Ready
  {
    assert SlotOk(s, x);
  }

  // Pushing a frame adds its buffer to those held and lets some go.
  lemma CollectHolds(o: Output, f: Q.Frame)
    requires Valid(o)
    ensures Held(Collect(o, f)) <= Held(o) + {f.payload}
  {
    if !Q.Rejects(o.queue, f) {
      Q.PushKeepsLatest(o.queue, f);
    }
  }

  lemma ScheduleHolds(o: Output, target: int, accepted: bool)
    requires Valid(o)
    ensures Held(Schedule(o, target, accepted)) <= Held(o)
  {
    Q.SelectShowsLatestDue(o.queue, target);
    var n, r := Q.Due(o.queue, target), Schedule(o, target, accepted);
    forall f | f in r.queue.frames ensures f.payload in Held(o) {
      assert f in o.queue.frames;
    }
    assert BufferFor(o, target).Some? ==> BufferFor(o, target).value in Held(o);
  }

  lemma CompleteHolds(o: Output, k: nat)
    requires k < |o.scheduled|
    ensures Held(Complete(o, k)) <= Held(o)
  {
    SplicePairwise(o.scheduled, k, (a: Scheduled, b: Scheduled) => true);
  }

  // Giving back what is no longer held leaves the CPU reading exactly what is.
  lemma Settled(s: Stream, held: set<SlotId>, returned: seq<SlotId>, t: Stream)
    requires Inv(s) && Distinct(returned) && t == ReturnAll(s, returned)
    requires held <= InState(s.record, CpuReading) && Elements(returned) == InState(s.record, CpuReading) - held
    ensures Inv(t) && t.maxSlots == s.maxSlots && InState(t.record, CpuReading) == held
  {
    ReturnAllReturns(s, returned, t);
  }

  // What a step means for the output: it stays valid, and all it holds then it held before or has just taken over.
  ghost predicate KeepsOutput(p: Pipeline, q: Pipeline, taken: set<SlotId>) {
    && Valid(q.output) && Refilled(q) && HeldBy(q) <= HeldBy(p) + taken
    && q.output.scheduledTarget == p.output.scheduledTarget && q.output.queue.capacity == p.output.queue.capacity
  }

  lemma CollectKeepsOutput(p: Pipeline, f: Q.Frame)
    requires Valid(p.output) && Refilled(p)
    ensures KeepsOutput(p, p.(output := Collect(p.output, f)), {f.payload})
  {
    CollectKeepsValid(p.output, f);
    CollectHolds(p.output, f);
  }

  // A frame scheduled is the frame on show.
  lemma ScheduleKeepsOutput(p: Pipeline, target: int, accepted: bool)
    requires Valid(p.output) && |p.output.scheduled| < p.output.scheduledTarget
    ensures KeepsOutput(p, p.(output := Schedule(p.output, target, accepted)), {})
  {
    var o, r := p.output, Schedule(p.output, target, accepted);
    ScheduleKeepsValid(o, target, accepted);
    ScheduleHolds(o, target, accepted);
    if |r.scheduled| == r.scheduledTarget {
      assert r.scheduled[|o.scheduled|].buffer == BufferFor(o, target).value;
      assert r.scheduled[|o.scheduled|] in r.scheduled;
    }
  }

  lemma CompleteKeepsOutput(p: Pipeline, k: nat)
    requires Valid(p.output) && k < |p.output.scheduled|
    ensures KeepsOutput(p, Pipeline(p.stream, Complete(p.output, k), Some(p.output.scheduled[k].buffer)), {})
  {
    CompleteKeepsValid(p.output, k);
    CompleteHolds(p.output, k);
    assert p.output.scheduled[k] in p.output.scheduled;
  }

  lemma OwnStepKeepsOutput(p: Pipeline, a: PipelineAction)
    requires Valid(p.output) && Refilled(p) && Queues(p.stream)
    requires !a.StreamAction? && Possible(p, a) && TakesTurn(p, a)
    ensures KeepsOutput(p, After(p, a), Taken(p, a))
  {
    match a
    case CollectFrame(time, usable, _) =>
      if Collects(p) && usable {
        CollectKeepsOutput(p, Q.Frame(time, p.stream.ready[0]));
      }
    case ScheduleFrame(target, accepted, _) => ScheduleKeepsOutput(p, target, accepted);
    case CompleteFrame(k, _) => CompleteKeepsOutput(p, k);
    case EndCompletion(_) =>
  }

  // A step takes over what it takes from the stream, and nothing else.
  lemma OwnStepReads(p: Pipeline, a: PipelineAction)
    requires Inv(p.stream) && !a.StreamAction? && Possible(p, a)
    ensures Inv(After(p, a).stream) && After(p, a).stream.maxSlots == p.stream.maxSlots
    ensures InState(After(p, a).stream.record, CpuReading) == InState(p.stream.record, CpuReading) + Taken(p, a)
  {
    if a.CollectFrame? && Collects(p) {
      TakeReads(p.stream);
    }
  }

  lemma StreamStepKeepsPipeline(p: Pipeline, b: Action)
    requires PipelineInv(p) && PipelineEnabled(p, StreamAction(b))
    ensures PipelineInv(p.(stream := Step(p.stream, b)))
  {
    OthersLeaveReading(p.stream, b);
    StepKeepsInv(p.stream, b);
    StepKeepsSize(p.stream, b);
  }

  lemma PipelineStepKeepsInv(p: Pipeline, a: PipelineAction)
    requires PipelineInv(p) && PipelineEnabled(p, a)
    ensures PipelineInv(PipelineStep(p, a))
  {
    if a.StreamAction? {
      StreamStepKeepsPipeline(p, a.action);
    } else {
      var q := After(p, a);
      OwnStepKeepsOutput(p, a);
      OwnStepReads(p, a);
      Settled(q.stream, HeldBy(q), a.returned, PipelineStep(p, a).stream);
    }
  }

  ghost function PipelineInit(bufferFrames: nat, initialSlots: nat, earlyTolerance: int, frameTime: int,
                              frameFlicks: int): Pipeline
    requires initialSlots <= GetReadbackSlotCount(bufferFrames, GetOutputQueueCapacity(bufferFrames))
  {
    Pipeline(ReadbackProtocol.Init(GetReadbackSlotCount(bufferFrames, GetOutputQueueCapacity(bufferFrames)),
                                   initialSlots),
             Init(bufferFrames, earlyTolerance, frameTime, frameFlicks), None)
  }

  // A run of steps that stream and device allow, each returning what it lets go of.
  ghost predicate Runs(p: Pipeline, run: seq<PipelineAction>, q: Pipeline)
    decreases |run|
  {
    if run == [] then q == p
    else Queues(p.stream) && Possible(p, run[0]) && Returns(p, run[0]) && Runs(PipelineStep(p, run[0]), run[1..], q)
  }

  // The steps of a run on the output.
  ghost function OwnSteps(p: Pipeline, run: seq<PipelineAction>): seq<OutputStep>
    decreases |run|
  {
    if run == [] || !Queues(p.stream) || !Possible(p, run[0]) then []
    else StepOf(p, run[0]) + OwnSteps(PipelineStep(p, run[0]), run[1..])
  }

  lemma OwnStep(p: Pipeline, a: PipelineAction, rest: seq<OutputStep>, r: Output)
    requires Queues(p.stream) && Possible(p, a) && Plays(p.output, StepOf(p, a) + rest, r)
    ensures TakesTurn(p, a) && Plays(PipelineStep(p, a).output, rest, r)
  {
    var steps := StepOf(p, a) + rest;
    if StepOf(p, a) == [] {
      assert steps == rest;
    } else {
      assert steps[0] == StepOf(p, a)[0] && steps[1..] == rest;
    }
  }

  // Whatever the render thread and the worker do in between: when the output takes its steps in their turn, the run
  // keeps the invariant and leaves the output where its steps lead.
  lemma {:induction false} RunsKeepPipelineInv(p: Pipeline, run: seq<PipelineAction>, q: Pipeline, r: Output)
    requires PipelineInv(p) && Runs(p, run, q) && Plays(p.output, OwnSteps(p, run), r)
    ensures PipelineInv(q) && q.output == r
    decreases |run|
  {
    if run != [] {
      var a, next := run[0], PipelineStep(p, run[0]);
      OwnStep(p, a, OwnSteps(next, run[1..]), r);
      PipelineStepKeepsInv(p, a);
      RunsKeepPipelineInv(next, run[1..], q, r);
    }
  }

  lemma PipelineInitHolds(bufferFrames: nat, initialSlots: nat, earlyTolerance: int, frameTime: int, frameFlicks: int)
    requires initialSlots <= GetReadbackSlotCount(bufferFrames, GetOutputQueueCapacity(bufferFrames))
    ensures PipelineInv(PipelineInit(bufferFrames, initialSlots, earlyTolerance, frameTime, frameFlicks))
  {
    var p := PipelineInit(bufferFrames, initialSlots, earlyTolerance, frameTime, frameFlicks);
    assert HeldBy(p) == {} && InState(p.stream.record, CpuReading) == {};
  }

  // Held by output and device together. A frame in completion has made room among the scheduled ones, or the frame on
  // show has been scheduled in its place.
  lemma HeldByIsBounded(p: Pipeline)
    requires Valid(p.output) && Refilled(p)
    ensures |HeldBy(p)| <= p.output.queue.capacity + RETAINED_PROGRAM_FRAME_COUNT + p.output.scheduledTarget
    ensures |HeldBy(p)| <= p.output.queue.capacity + RETAINED_PROGRAM_FRAME_COUNT + |p.output.scheduled|
                           + One(p.completing.Some?)
  {
    var o := p.output;
    HeldIsBounded(o);
    assert |HeldBy(p)| <= |Held(o)| + |OptionSet(p.completing)|;
    if p.completing.Some? && |o.scheduled| == o.scheduledTarget {
      FewQueuedBuffers(o.queue.frames);
      FewScheduledBuffers(o.scheduled);
      assert Held(o) == QueuedBuffers(o.queue.frames) + ScheduledBuffers(o.scheduled);
    }
  }

  // However render thread, worker and device interleave, the frames the output and the device hold leave three slots
  // to the pipeline, also with a completed frame still in the device's hands. While a frame is being taken over it is
  // one more, so two are left if that happens while a completion is handled. Once all slots exist and the stream is
  // active, at least three of them are free, being rendered, being transferred, or ready.
  lemma EveryRunLeavesHeadroom(bufferFrames: nat, initialSlots: nat, earlyTolerance: int, frameTime: int,
                               frameFlicks: int, init: Pipeline, run: seq<PipelineAction>, p: Pipeline, r: Output)
    requires initialSlots <= GetReadbackSlotCount(bufferFrames, GetOutputQueueCapacity(bufferFrames))
    requires init == PipelineInit(bufferFrames, initialSlots, earlyTolerance, frameTime, frameFlicks)
    requires Runs(init, run, p) && Plays(init.output, OwnSteps(init, run), r)
    ensures p.stream.activeFrames <= p.stream.maxSlots - READBACK_PIPELINE_HEADROOM
    ensures |p.output.scheduled| < p.output.scheduledTarget ==>
              p.stream.activeFrames + 1 <= p.stream.maxSlots - READBACK_PIPELINE_HEADROOM + One(p.completing.Some?)
    ensures p.stream.active && |p.stream.slots| == p.stream.maxSlots ==>
              |p.stream.free| + p.stream.activeTargets + |InState(p.stream.record, Queued)| + |p.stream.ready|
              >= READBACK_PIPELINE_HEADROOM
  {
    PipelineInitHolds(bufferFrames, initialSlots, earlyTolerance, frameTime, frameFlicks);
    RunsKeepPipelineInv(init, run, p, r);
    PipelineLeavesHeadroom(p);
  }

  lemma PipelineLeavesHeadroom(p: Pipeline)
    requires PipelineInv(p)
    ensures p.stream.activeFrames == |HeldBy(p)| <= p.stream.maxSlots - READBACK_PIPELINE_HEADROOM
    ensures |p.output.scheduled| < p.output.scheduledTarget ==>
              p.stream.activeFrames + 1 <= p.stream.maxSlots - READBACK_PIPELINE_HEADROOM + One(p.completing.Some?)
    ensures p.stream.active && |p.stream.slots| == p.stream.maxSlots ==>
              |p.stream.free| + p.stream.activeTargets + |InState(p.stream.record, Queued)| + |p.stream.ready|
              >= READBACK_PIPELINE_HEADROOM
  {
    HeldByIsBounded(p);
    SlotsSplit(p.stream);
  }
}
