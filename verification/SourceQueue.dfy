/**
 The timed source queue as a state machine. Producers create, mark and push frames; the render thread
 aligns, selects and commits them. `transit` holds the frames an advance has taken from `pending` and not
 yet aligned, so a push may fall between any two of them.
 */
module SourceQueue {
  import opened Common
  import opened MediaClock

  datatype Readiness = Reserved | Submitted | Ready | Failed

  datatype Frame = Frame(id: nat, sample: Sample, arrival: int)

  datatype Aligned = Aligned(frame: Frame, programPts: int)

  datatype Selection = NewFrame | Repeat | Missing

  datatype Ticket = Ticket(frame: Option<Frame>, selection: Selection, discontinuity: bool)

  datatype QueueConfig = QueueConfig(
    capacity: nat,
    playoutDelay: int,
    playoutDelayFrames: nat,
    earlyTolerance: int,
    clock: Config)

  // What the constructor insists on.
  ghost predicate ValidQueueConfig(cfg: QueueConfig) {
    0 < cfg.capacity && cfg.playoutDelayFrames < cfg.capacity && ValidConfig(cfg.clock)
  }

  // Where the frames that left the queue went, and the other counters.
  datatype Tally = Tally(
    pushed: nat,
    overflowDrops: nat,
    selectionDrops: nat,
    committed: nat,
    retired: nat,
    cleared: nat,
    unmappable: nat,
    repeated: nat,
    starvationRepeats: nat,
    timingRepeats: nat,
    missing: nat,
    discontinuities: nat,
    failures: nat,
    cancellations: nat)

  const NO_TALLY := Tally(0, 0, 0, 0, 0, 0, 0, 0, 0, 0, 0, 0, 0, 0)

  // What has happened so far: the ids ever pushed, the frames handed out in a ticket as new, and the
  // sequence numbers committed since the last discontinuity.
  datatype History = History(pushed: set<nat>, issued: set<Frame>, commits: seq<nat>)

  datatype Queue = Queue(
    clock: Clock,
    pending: seq<Frame>,
    transit: seq<Frame>,
    alignPts: int,
    alignTarget: int,
    frames: seq<Aligned>,
    current: Option<Frame>,
    origin: Option<int>,
    discontinuityPending: bool,
    queued: int,
    readiness: map<nat, Readiness>,
    tally: Tally,
    history: History)

  // ---------------------------------------------------------------- readiness

  function MarkSubmitted(r: Readiness): Readiness {
    if r == Reserved then Submitted else r
  }

  function MarkReady(r: Readiness): Readiness {
    if r == Submitted then Ready else r
  }

  function MarkFailed(r: Readiness): Readiness {
    if r == Ready then Ready else Failed
  }

  predicate Terminal(r: Readiness) {
    r == Ready || r == Failed
  }

  function Ids(frames: seq<Frame>): set<nat> {
    set f | f in frames :: f.id
  }

  function AlignedIds(frames: seq<Aligned>): set<nat> {
    set a | a in frames :: a.frame.id
  }

  function CancelAll(readiness: map<nat, Readiness>, ids: set<nat>): map<nat, Readiness> {
    map id | id in readiness :: if id in ids then MarkFailed(readiness[id]) else readiness[id]
  }

  // ---------------------------------------------------------------- order

  predicate Later(a: Sample, b: Sample) {
    a.streamEpoch > b.streamEpoch || (a.streamEpoch == b.streamEpoch && a.frameSequence > b.frameSequence)
  }

  // The newest frame of a list, the first one where several are equally new.
  function Newest(frames: seq<Frame>): (r: Frame)
    requires frames != []
    ensures r in frames && forall f :: f in frames ==> !Later(f.sample, r.sample)
  {
    var last := frames[|frames| - 1];
    if |frames| == 1 then last
    else
      var front := frames[..|frames| - 1];
      assert frames == front + [last];
      var r := Newest(front);
      if Later(last.sample, r.sample) then last else r
  }

  // How many of the earliest frames are due by a time limit.
  function DueCount(frames: seq<Aligned>, limit: int): (k: nat)
    ensures k <= |frames|
    ensures forall i :: 0 <= i < k ==> frames[i].programPts <= limit
    ensures k < |frames| ==> frames[k].programPts > limit
  {
    if frames == [] || frames[0].programPts > limit then 0 else 1 + DueCount(frames[1..], limit)
  }

  function JustFrames(frames: seq<Aligned>): (r: seq<Frame>)
    ensures |r| == |frames| && forall i :: 0 <= i < |r| ==> r[i] == frames[i].frame
  {
    seq(|frames|, i requires 0 <= i < |frames| => frames[i].frame)
  }

  // The phase of an arrival offset within a frame's duration, as % and / truncate.
  function ArrivalPhase(offset: int, duration: int): int {
    if duration <= 0 then offset
    else
      var phase := offset - duration * TruncatingDiv(offset, duration);
      var half := duration / 2;
      if phase > half then phase - duration
      else if phase < -half then phase + duration
      else phase
  }

  // ---------------------------------------------------------------- steps

  ghost function Init(): Queue {
    Queue(RESET, [], [], 0, 0, [], None, None, false, 0, map[], NO_TALLY, History({}, {}, []))
  }

  // The queue's size is read before the lock's critical section ends; while the render thread takes frames
  // out, the value read may be larger than the value now.
  ghost function Push(cfg: QueueConfig, q: Queue, frame: Frame, observed: int): Queue {
    var t := q.tally.(pushed := q.tally.pushed + 1);
    var h := q.history.(pushed := q.history.pushed + {frame.id});
    if observed < cfg.capacity then
      q.(pending := q.pending + [frame], queued := q.queued + 1, tally := t, history := h)
    else if q.pending == [] then
      q.(readiness := CancelAll(q.readiness, {frame.id}), history := h,
         tally := t.(overflowDrops := t.overflowDrops + 1))
    else
      q.(pending := q.pending[1..] + [frame], readiness := CancelAll(q.readiness, {q.pending[0].id}), history := h,
         tally := t.(overflowDrops := t.overflowDrops + 1))
  }

  ghost function ClearForDiscontinuity(q: Queue, resetClock: bool): Queue {
    var doomed := AlignedIds(q.frames) + (if q.current.Some? then {q.current.value.id} else {});
    q.(clock := if resetClock then RESET else q.clock,
       origin := if resetClock then None else q.origin,
       readiness := CancelAll(q.readiness, doomed),
       queued := q.queued - |q.frames|,
       frames := [],
       current := None,
       discontinuityPending := true,
       tally := q.tally.(cleared := q.tally.cleared + |q.frames|, discontinuities := q.tally.discontinuities + 1),
       history := q.history.(commits := []))
  }

  ghost function TakePending(q: Queue, pts: int, target: int): Queue {
    q.(transit := q.pending, pending := [], alignPts := pts, alignTarget := target)
  }

  ghost function FixPhase(q: Queue): Queue {
    if q.origin.None? && q.transit != [] then
      var newest := Newest(q.transit);
      q.(origin := Some(ArrivalPhase(newest.arrival - q.alignTarget, newest.sample.frameDuration)))
    else q
  }

  // advance() up to its loop: take the pending frames, forget the old time line on a program
  // discontinuity, and fix the arrival phase.
  ghost function BeginAdvance(q: Queue, pts: int, target: int, programDiscontinuity: bool): Queue {
    var taken := TakePending(q, pts, target);
    FixPhase(if programDiscontinuity then ClearForDiscontinuity(taken, true) else taken)
  }

  // The clock's view of the next frame: a broken time line restarts it under a new arrival phase.
  ghost function ObserveNext(cfg: QueueConfig, q: Queue): (o: Queue)
    requires q.transit != [] && q.origin.Some? && ValidQueueConfig(cfg) && ClockOk(cfg.clock, q.clock)
    ensures o.transit == q.transit
  {
    var f := q.transit[0];
    var offset := f.arrival - q.alignTarget;
    var (clock, observation) := Observe(cfg.clock, q.clock, f.sample, q.alignPts + offset - q.origin.value);
    if observation != Discontinuity then q.(clock := clock)
    else
      var phase := ArrivalPhase(offset, f.sample.frameDuration);
      ClearForDiscontinuity(q.(clock := Observe(cfg.clock, RESET, f.sample, q.alignPts + offset - phase).0,
                               origin := Some(phase)), false)
  }

  // The observed frame is queued at its program time, after those due no later, unless it has none.
  ghost function PlaceNext(cfg: QueueConfig, o: Queue): Queue
    requires o.transit != []
  {
    var f := o.transit[0];
    match MapPts(o.clock, f.sample.mediaPts)
    case None =>
      o.(transit := o.transit[1..], queued := o.queued - 1,
         tally := o.tally.(unmappable := o.tally.unmappable + 1))
    case Some(mapped) =>
      var pts := mapped + cfg.playoutDelay + f.sample.frameDuration * cfg.playoutDelayFrames;
      o.(transit := o.transit[1..], frames := Insert(o.frames, DueCount(o.frames, pts), Aligned(f, pts)))
  }

  ghost function AlignNext(cfg: QueueConfig, q: Queue): Queue
    requires q.transit != [] && q.origin.Some? && ValidQueueConfig(cfg) && ClockOk(cfg.clock, q.clock)
  {
    PlaceNext(cfg, ObserveNext(cfg, q))
  }

  function NotOlderThan(chosen: Frame): Aligned -> bool {
    (a: Aligned) => a.frame == chosen || !Later(chosen.sample, a.frame.sample)
  }

  ghost function Chosen(cfg: QueueConfig, q: Queue, pts: int, tolerance: int): Option<Frame> {
    var due := q.frames[..DueCount(q.frames, pts + cfg.earlyTolerance + tolerance)];
    if due == [] then None else Some(Newest(JustFrames(due)))
  }

  // The chosen frame stays queued; every older one is dropped.
  ghost function SelectNew(q: Queue, chosen: Frame): (Queue, Ticket) {
    var kept := Filter(q.frames, NotOlderThan(chosen));
    var dropped := |q.frames| - |kept|;
    (q.(discontinuityPending := false, frames := kept, queued := q.queued - dropped,
        readiness := CancelAll(q.readiness, AlignedIds(q.frames) - AlignedIds(kept)),
        tally := q.tally.(selectionDrops := q.tally.selectionDrops + dropped),
        history := q.history.(issued := q.history.issued + {chosen})),
     Ticket(Some(chosen), NewFrame, q.discontinuityPending))
  }

  // Nothing is due: the frame on show is repeated, if there is one.
  ghost function SelectOld(q: Queue): (Queue, Ticket) {
    var t := q.tally;
    var counted :=
      if q.current.None? then t.(missing := t.missing + 1)
      else if q.frames == [] then t.(repeated := t.repeated + 1, starvationRepeats := t.starvationRepeats + 1)
      else t.(repeated := t.repeated + 1, timingRepeats := t.timingRepeats + 1);
    (q.(discontinuityPending := false, tally := counted),
     Ticket(q.current, if q.current.Some? then Repeat else Missing, q.discontinuityPending))
  }

  ghost function Select(cfg: QueueConfig, q: Queue, pts: int, tolerance: int): (Queue, Ticket) {
    match Chosen(cfg, q, pts, tolerance)
    case Some(chosen) => SelectNew(q, chosen)
    case None => SelectOld(q)
  }

  function IsFrame(f: Frame): Aligned -> bool {
    (a: Aligned) => a.frame == f
  }

  ghost predicate ReadyNow(q: Queue, f: Frame) {
    f.id in q.readiness && q.readiness[f.id] == Ready
  }

  ghost function Commit(q: Queue, ticket: Ticket): (Queue, bool) {
    if ticket.frame.None? || !ReadyNow(q, ticket.frame.value) then (q, false)
    else if ticket.selection == Repeat then (q, true)
    else
      var f := ticket.frame.value;
      var i := FirstIndex(q.frames, IsFrame(f));
      if ticket.selection != NewFrame || i.None? then (q, false)
      else (q.(frames := Splice(q.frames, i.value), queued := q.queued - 1, current := Some(f),
               tally := q.tally.(committed := q.tally.committed + 1),
               history := q.history.(commits := q.history.commits + [f.sample.frameSequence])),
            true)
  }

  // A ticket is given up only if its frame was still undecided; a ready or failed frame stays queued.
  ghost function Retire(q: Queue, ticket: Ticket): (Queue, bool) {
    if ticket.selection != NewFrame || ticket.frame.None? then (q, false)
    else
      var f := ticket.frame.value;
      if f.id !in q.readiness || Terminal(q.readiness[f.id]) then (q, false)
      else
        var marked := q.(readiness := q.readiness[f.id := Failed]);
        var i := FirstIndex(q.frames, IsFrame(f));
        if i.None? then (marked, true)
        else (marked.(frames := Splice(q.frames, i.value), queued := q.queued - 1,
                      tally := q.tally.(retired := q.tally.retired + 1)),
              true)
  }

  ghost function Fail(q: Queue, ticket: Ticket): Queue {
    var (r, done) := Retire(q, ticket);
    if done then r.(tally := r.tally.(failures := r.tally.failures + 1)) else r
  }

  ghost function Cancel(q: Queue, ticket: Ticket): Queue {
    var (r, done) := Retire(q, ticket);
    if done then r.(tally := r.tally.(cancellations := r.tally.cancellations + 1)) else r
  }

  ghost function ResetPending(q: Queue): Queue {
    q.(readiness := CancelAll(q.readiness, Ids(q.pending)), queued := q.queued - |q.pending|, pending := [],
       tally := q.tally.(cleared := q.tally.cleared + |q.pending|))
  }

  datatype Action =
    | Create(id: nat, initial: Readiness)
    | ProducerMarks(id: nat, to: Readiness)
    | PushFrame(frame: Frame, observed: int)
    | StartAdvance(pts: int, target: int, programDiscontinuity: bool)
    | AlignOne
    | SelectAt(pts: int, tolerance: int)
    | CommitTicket(ticket: Ticket)
    | FailTicket(ticket: Ticket)
    | CancelTicket(ticket: Ticket)
    | ClearPending
    | ClearAligned

  // A ticket for a new frame comes from a selection of this queue.
  ghost predicate Issued(q: Queue, ticket: Ticket) {
    ticket.selection == NewFrame && ticket.frame.Some? ==>
      ticket.frame.value in q.history.issued
  }

  // The render thread finishes an advance before its next call; producers act at any time, and push each
  // frame once.
  ghost predicate Enabled(cfg: QueueConfig, q: Queue, a: Action) {
    match a
    case Create(id, _) => id !in q.readiness
    case ProducerMarks(id, to) => id in q.readiness && to != Reserved
    case PushFrame(f, observed) =>
      && f.id in q.readiness && f.id !in q.history.pushed
      && q.queued <= observed && (observed < cfg.capacity ==> observed == q.queued)
    case StartAdvance(_, _, _) => q.transit == []
    case AlignOne => q.transit != []
    case SelectAt(_, _) => q.transit == []
    case CommitTicket(t) => q.transit == [] && Issued(q, t)
    case FailTicket(t) => q.transit == [] && Issued(q, t)
    case CancelTicket(t) => q.transit == [] && Issued(q, t)
    case ClearPending => q.transit == []
    case ClearAligned => q.transit == []
  }

  ghost function MarkAs(r: Readiness, to: Readiness): Readiness {
    match to
    case Submitted => MarkSubmitted(r)
    case Ready => MarkReady(r)
    case _ => MarkFailed(r)
  }

  ghost function Step(cfg: QueueConfig, q: Queue, a: Action): Queue
    requires Enabled(cfg, q, a) && ValidQueueConfig(cfg) && ClockOk(cfg.clock, q.clock)
    requires q.transit != [] ==> q.origin.Some?
  {
    match a
    case Create(id, initial) => q.(readiness := q.readiness[id := initial])
    case ProducerMarks(id, to) => q.(readiness := q.readiness[id := MarkAs(q.readiness[id], to)])
    case PushFrame(f, observed) => Push(cfg, q, f, observed)
    case StartAdvance(pts, target, programDiscontinuity) => BeginAdvance(q, pts, target, programDiscontinuity)
    case AlignOne => AlignNext(cfg, q)
    case SelectAt(pts, tolerance) => Select(cfg, q, pts, tolerance).0
    case CommitTicket(t) => Commit(q, t).0
    case FailTicket(t) => Fail(q, t)
    case CancelTicket(t) => Cancel(q, t)
    case ClearPending => ResetPending(q)
    case ClearAligned => ClearForDiscontinuity(q, true)
  }
}
