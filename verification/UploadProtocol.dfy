/**
 The upload stream's slot protocol as a state machine.

 A state gathers what the stream, the worker's task list and the live leases hold about the slots of one
 stream; an action is one critical section. Work that a caller enqueues after it has left its critical
 section is counted as `posted` until a separate Post action hands it to the worker, so every interleaving
 of callers and worker is a sequence of these actions.
 */
module UploadProtocol {
  import opened Common

  // A slot's identity: slots are made one at a time and never confused.
  type SlotId = nat

  datatype SlotState = Free | CpuWriting | Queued | Ready | Current | Reclaim

  // How often live leases and worker tasks name a slot: leases before and after their submission, tasks in
  // the worker's list, tasks about to be enqueued.
  datatype Claims = Claims(writing: nat, submitted: nat, upload: nat, reclaim: nat, uploadPosted: nat, reclaimPosted: nat)

  datatype Slot = Slot(
    state: SlotState,
    leaseReleased: bool,
    discardRequested: bool,
    uploadId: nat,
    claims: Claims)

  const NO_CLAIMS := Claims(0, 0, 0, 0, 0, 0)
  const NEW_SLOT := Slot(Free, true, false, 0, NO_CLAIMS)

  datatype Stream = Stream(
    maxSlots: nat,
    slots: seq<SlotId>,
    record: map<SlotId, Slot>,
    free: seq<SlotId>,
    ready: seq<SlotId>,
    current: Option<SlotId>,
    pendingAllocations: int,
    activeLeases: int,
    nextUploadId: nat,
    retainedUploadId: nat,
    allocationFailed: bool,
    active: bool,
    // worker tasks that name no slot, and the upload the worker is busy with
    allocateTasks: nat,
    allocatePosted: nat,
    destroyTasks: nat,
    destroyPosted: nat,
    uploading: Option<SlotId>,
    // every slot ever created, and every release of a slot's resources
    created: set<SlotId>,
    released: multiset<SlotId>,
    destroyed: bool)

  datatype Task = Allocate | Upload(slot: SlotId) | ReclaimSlot(slot: SlotId) | DestroyStream

  datatype Action =
    | TryAcquire(retryAllowed: bool)
    | Submit(slot: SlotId)
    | DropLease(slot: SlotId, wasSubmitted: bool)
    | SelectThrough(uploadId: nat)
    | SelectExact(uploadId: nat)
    | Discard(uploadId: nat)
    | Close
    | Post(task: Task)
    | RunAllocate(succeeded: bool, made: SlotId)
    | BeginUpload(slot: SlotId)
    | FinishUpload(succeeded: bool)
    | RunReclaim(slot: SlotId, rendered: bool)
    | RunDestroy

  // ---------------------------------------------------------------- ownership

  datatype Owners = Owners(free: bool, writers: nat, uploads: nat, ready: bool, current: bool, reclaims: nat)

  ghost function One(b: bool): nat {
    if b then 1 else 0
  }

  ghost function OwnersOf(s: Stream, x: SlotId): Owners
    requires x in s.record
  {
    var c := s.record[x].claims;
    Owners(x in s.free,
           c.writing,
           c.upload + c.uploadPosted + One(s.uploading == Some(x)),
           x in s.ready,
           s.current == Some(x),
           c.reclaim + c.reclaimPosted)
  }

  // The one place that holds a slot, as its state names it. A slot freed after close is held by nobody.
  ghost predicate OwnedAsState(o: Owners, state: SlotState, active: bool) {
    match state
    case Free => o == Owners(true, 0, 0, false, false, 0) || (!active && o == Owners(false, 0, 0, false, false, 0))
    case CpuWriting => o == Owners(false, 1, 0, false, false, 0)
    case Queued => o == Owners(false, 0, 1, false, false, 0)
    case Ready => o == Owners(false, 0, 0, true, false, 0)
    case Current => o == Owners(false, 0, 0, false, true, 0)
    case Reclaim => o == Owners(false, 0, 0, false, false, 1)
  }

  ghost predicate SlotOk(s: Stream, x: SlotId)
    requires x in s.record
  {
    var r := s.record[x];
    && OwnedAsState(OwnersOf(s, x), r.state, s.active)
    && r.claims.writing + r.claims.submitted == One(!r.leaseReleased)
    && (r.state == Free ==> r.leaseReleased)
    && (r.state == Ready || r.state == Current ==> !r.discardRequested)
    && r.uploadId <= s.nextUploadId
  }

  ghost predicate Queues(s: Stream) {
    && Distinct(s.slots) && s.record.Keys == Elements(s.slots)
    && Distinct(s.free) && (forall x :: x in s.free ==> x in s.record)
    && Distinct(s.ready) && (forall x :: x in s.ready ==> x in s.record)
    && (s.uploading.Some? ==> s.uploading.value in s.record)
    && (s.current.Some? ==>
          s.current.value in s.record && s.current.value !in s.ready && s.active
          && s.record[s.current.value].uploadId == s.retainedUploadId)
  }

  ghost predicate UploadIdsUnique(s: Stream) {
    forall x, y :: x in s.record && y in s.record && s.record[x].uploadId == s.record[y].uploadId != 0 ==> x == y
  }

  ghost predicate ReleasedOnce(s: Stream) {
    && s.record.Keys <= s.created
    && s.released <= multiset(s.created)
    && forall x :: x in s.created ==> s.released[x] == (if x in s.record then 0 else 1)
  }

  ghost function Leased(record: map<SlotId, Slot>): set<SlotId> {
    set x | x in record && !record[x].leaseReleased
  }

  ghost predicate Counters(s: Stream) {
    && s.activeLeases == |Leased(s.record)|
    && s.pendingAllocations == s.allocateTasks + s.allocatePosted
    && |s.slots| + s.pendingAllocations <= s.maxSlots
    && s.destroyTasks + s.destroyPosted == One(!s.active && !s.destroyed)
    && (s.destroyed ==> s.slots == [] && s.pendingAllocations == 0 && !s.active)
  }

  ghost predicate Inv(s: Stream) {
    && Queues(s)
    && (forall x :: x in s.record ==> SlotOk(s, x))
    && UploadIdsUnique(s)
    && ReleasedOnce(s)
    && Counters(s)
  }

  // ---------------------------------------------------------------- steps

  ghost function Init(maxSlots: nat, initialSlots: nat): (s: Stream)
    requires 0 < maxSlots && initialSlots <= maxSlots
    ensures Inv(s)
  {
    Stream(maxSlots, [], map[], [], [], None, initialSlots, 0, 0, 0, false, true,
           initialSlots, 0, 0, 0, None, {}, multiset{}, false)
  }

  ghost function ToReclaim(r: Slot): Slot {
    r.(state := Reclaim, claims := r.claims.(reclaimPosted := r.claims.reclaimPosted + 1))
  }

  // Each of several slots goes to Reclaim, with its reclaim task about to be enqueued.
  ghost function Retire(record: map<SlotId, Slot>, xs: seq<SlotId>): (r: map<SlotId, Slot>)
    ensures r.Keys == record.Keys
    ensures forall x :: x in record ==> r[x] == if x in xs then ToReclaim(record[x]) else record[x]
  {
    map x | x in record :: if x in xs then ToReclaim(record[x]) else record[x]
  }

  ghost function OptionSeq<T>(o: Option<T>): seq<T> {
    if o.Some? then [o.value] else []
  }

  // A completed upload becomes current; the retired slots and the old current one go to reclaim.
  ghost function Promote(s: Stream, chosen: SlotId, retired: seq<SlotId>, remaining: seq<SlotId>): Stream
    requires chosen in s.record
  {
    s.(ready := remaining,
       current := Some(chosen),
       retainedUploadId := s.record[chosen].uploadId,
       record := Retire(s.record, retired + OptionSeq(s.current))[chosen := s.record[chosen].(state := Current)])
  }

  // How many of the oldest completed uploads have an id up to the bound.
  ghost function LeadingThrough(ready: seq<SlotId>, record: map<SlotId, Slot>, uploadId: nat): (k: nat)
    requires forall x :: x in ready ==> x in record
    ensures k <= |ready|
    ensures forall i :: 0 <= i < k ==> record[ready[i]].uploadId <= uploadId
    ensures k < |ready| ==> record[ready[k]].uploadId > uploadId
  {
    if ready == [] || record[ready[0]].uploadId > uploadId then 0
    else 1 + LeadingThrough(ready[1..], record, uploadId)
  }

  ghost function HasId(record: map<SlotId, Slot>, uploadId: nat): SlotId -> bool {
    x => x in record && record[x].uploadId == uploadId
  }

  ghost function Acquire(s: Stream, retryAllowed: bool): Stream {
    if !s.active then s
    else if s.free != [] then
      s.(free := s.free[1..],
         record := s.record[s.free[0] :=
                     Slot(CpuWriting, false, false, s.nextUploadId + 1, NO_CLAIMS.(writing := 1))],
         nextUploadId := s.nextUploadId + 1,
         activeLeases := s.activeLeases + 1)
    else if |s.slots| + s.pendingAllocations < s.maxSlots && s.pendingAllocations == 0 && retryAllowed then
      s.(pendingAllocations := s.pendingAllocations + 1, allocatePosted := s.allocatePosted + 1)
    else s
  }

  ghost function SubmitLease(s: Stream, x: SlotId): Stream
    requires x in s.record && s.record[x].claims.writing > 0
  {
    var r := s.record[x];
    var c := r.claims;
    if !s.active || r.state != CpuWriting then s
    else s.(record := s.record[x := r.(state := Queued,
                                       claims := c.(writing := c.writing - 1,
                                                    submitted := c.submitted + 1,
                                                    uploadPosted := c.uploadPosted + 1))])
  }

  ghost predicate HoldsLease(r: Slot, wasSubmitted: bool) {
    if wasSubmitted then r.claims.submitted > 0 else r.claims.writing > 0
  }

  ghost function Drop(s: Stream, x: SlotId, wasSubmitted: bool): Stream
    requires x in s.record && HoldsLease(s.record[x], wasSubmitted)
  {
    var r := s.record[x];
    var c := r.claims;
    if wasSubmitted then
      var left := c.(submitted := c.submitted - 1);
      s.(record := s.record[x := r.(leaseReleased := true, claims := left)],
         activeLeases := if r.leaseReleased then s.activeLeases else s.activeLeases - 1)
    else
      var left := c.(writing := c.writing - 1);
      if r.state != CpuWriting then s.(record := s.record[x := r.(claims := left)])
      else s.(record := s.record[x := r.(leaseReleased := true, state := Free, claims := left)],
              activeLeases := s.activeLeases - 1,
              free := if s.active then s.free + [x] else s.free)
  }

  ghost function SelectLatestThrough(s: Stream, uploadId: nat): Stream
    requires Queues(s)
  {
    var k := LeadingThrough(s.ready, s.record, uploadId);
    if !s.active || k == 0 then s
    else Promote(s, s.ready[k - 1], s.ready[..k - 1], s.ready[k..])
  }

  ghost function SelectUpload(s: Stream, uploadId: nat): Stream
    requires Queues(s)
  {
    var i := FirstIndex(s.ready, HasId(s.record, uploadId));
    if !s.active || i.None? then s
    else Promote(s, s.ready[i.value], s.ready[..i.value] + s.ready[i.value + 1..], [])
  }

  ghost function DiscardSlot(s: Stream, x: SlotId): Stream
    requires x in s.record
  {
    var r := s.record[x];
    if r.state == Queued then s.(record := s.record[x := r.(discardRequested := true)])
    else if r.state != Ready || x !in s.ready then s
    else s.(ready := Erase(s.ready, x), record := s.record[x := ToReclaim(r).(discardRequested := true)])
  }

  ghost function DiscardUpload(s: Stream, uploadId: nat): Stream
    requires Queues(s)
  {
    var i := FirstIndex(s.slots, HasId(s.record, uploadId));
    if !s.active || i.None? then s else DiscardSlot(s, s.slots[i.value])
  }

  ghost function CloseStream(s: Stream): Stream {
    s.(active := false,
       current := None,
       record := Retire(s.record, OptionSeq(s.current)),
       destroyPosted := s.destroyPosted + 1)
  }

  ghost predicate Posted(s: Stream, t: Task) {
    match t
    case Allocate => s.allocatePosted > 0
    case Upload(x) => x in s.record && s.record[x].claims.uploadPosted > 0
    case ReclaimSlot(x) => x in s.record && s.record[x].claims.reclaimPosted > 0
    case DestroyStream => s.destroyPosted > 0
  }

  ghost function Enqueue(s: Stream, t: Task): Stream
    requires Posted(s, t)
  {
    match t
    case Allocate => s.(allocatePosted := s.allocatePosted - 1, allocateTasks := s.allocateTasks + 1)
    case DestroyStream => s.(destroyPosted := s.destroyPosted - 1, destroyTasks := s.destroyTasks + 1)
    case Upload(x) =>
      var c := s.record[x].claims;
      var moved := c.(uploadPosted := c.uploadPosted - 1, upload := c.upload + 1);
      s.(record := s.record[x := s.record[x].(claims := moved)])
    case ReclaimSlot(x) =>
      var c := s.record[x].claims;
      var moved := c.(reclaimPosted := c.reclaimPosted - 1, reclaim := c.reclaim + 1);
      s.(record := s.record[x := s.record[x].(claims := moved)])
  }

  ghost function AllocateSlot(s: Stream, succeeded: bool, made: SlotId): Stream
    requires s.allocateTasks > 0
  {
    var t := s.(allocateTasks := s.allocateTasks - 1, pendingAllocations := s.pendingAllocations - 1);
    if !succeeded then t.(allocationFailed := true)
    else if !s.active then t.(created := s.created + {made}, released := s.released + multiset{made})
    else t.(created := s.created + {made},
            allocationFailed := false,
            slots := s.slots + [made],
            record := s.record[made := NEW_SLOT],
            free := s.free + [made])
  }

  ghost function StartUpload(s: Stream, x: SlotId): Stream
    requires x in s.record && s.record[x].claims.upload > 0
  {
    var r := s.record[x];
    var c := r.claims.(upload := r.claims.upload - 1);
    if !s.active then
      s.(record := s.record[x := r.(state := Reclaim, claims := c.(reclaim := c.reclaim + 1))])
    else s.(record := s.record[x := r.(claims := c)], uploading := Some(x))
  }

  ghost function EndUpload(s: Stream, succeeded: bool): Stream
    requires s.uploading.Some? && s.uploading.value in s.record
  {
    var x := s.uploading.value;
    var r := s.record[x];
    if !succeeded || !s.active || r.discardRequested then
      s.(uploading := None,
         record := s.record[x := r.(state := Reclaim, claims := r.claims.(reclaim := r.claims.reclaim + 1))])
    else s.(uploading := None, record := s.record[x := r.(state := Ready)], ready := s.ready + [x])
  }

  // A reclaim task is retried, unchanged, while a lease is alive or the renderer still reads the texture.
  ghost function Reclaimed(s: Stream, x: SlotId, rendered: bool): Stream
    requires x in s.record && s.record[x].claims.reclaim > 0
  {
    var r := s.record[x];
    if !r.leaseReleased || !rendered then s
    else s.(record := s.record[x := r.(state := Free, claims := r.claims.(reclaim := r.claims.reclaim - 1))],
            free := if s.active then s.free + [x] else s.free)
  }

  ghost predicate InFlight(s: Stream) {
    exists x :: x in s.record && s.record[x].state in {CpuWriting, Queued, Reclaim}
  }

  // Destruction waits, as a task that is retried, for allocations, leases and slots in flight.
  ghost predicate DestroyBlocked(s: Stream) {
    s.pendingAllocations != 0 || s.activeLeases != 0 || InFlight(s)
  }

  ghost function Destroy(s: Stream): Stream
    requires s.destroyTasks > 0
  {
    if DestroyBlocked(s) then s
    else s.(destroyTasks := s.destroyTasks - 1,
            slots := [], record := map[], free := [], ready := [], current := None,
            released := s.released + multiset(s.slots),
            destroyed := true)
  }

  // When an action can happen: a lease is used only while it lives, the worker runs one task at a time,
  // the stream is closed once, and a slot newly made is a new object.
  ghost predicate Enabled(s: Stream, a: Action) {
    match a
    case TryAcquire(_) => true
    case Submit(x) => x in s.record && s.record[x].claims.writing > 0
    case DropLease(x, wasSubmitted) => x in s.record && HoldsLease(s.record[x], wasSubmitted)
    case SelectThrough(_) => true
    case SelectExact(_) => true
    case Discard(_) => true
    case Close => s.active
    case Post(t) => Posted(s, t)
    case RunAllocate(_, made) => s.uploading.None? && s.allocateTasks > 0 && made !in s.created
    case BeginUpload(x) => s.uploading.None? && x in s.record && s.record[x].claims.upload > 0
    case FinishUpload(_) => s.uploading.Some?
    case RunReclaim(x, _) => s.uploading.None? && x in s.record && s.record[x].claims.reclaim > 0
    case RunDestroy => s.uploading.None? && s.destroyTasks > 0
  }

  ghost function Step(s: Stream, a: Action): Stream
    requires Queues(s) && Enabled(s, a)
  {
    match a
    case TryAcquire(retryAllowed) => Acquire(s, retryAllowed)
    case Submit(x) => SubmitLease(s, x)
    case DropLease(x, wasSubmitted) => Drop(s, x, wasSubmitted)
    case SelectThrough(id) => SelectLatestThrough(s, id)
    case SelectExact(id) => SelectUpload(s, id)
    case Discard(id) => DiscardUpload(s, id)
    case Close => CloseStream(s)
    case Post(t) => Enqueue(s, t)
    case RunAllocate(ok, made) => AllocateSlot(s, ok, made)
    case BeginUpload(x) => StartUpload(s, x)
    case FinishUpload(ok) => EndUpload(s, ok)
    case RunReclaim(x, rendered) => Reclaimed(s, x, rendered)
    case RunDestroy => Destroy(s)
  }
}
