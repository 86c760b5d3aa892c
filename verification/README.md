# Miximus: verified models of the media core

This project models the stateful core of Miximus, a live video mixer, and proves what its documentation, its tests and
its own comments rely on. `dafny verify dfyconfig.toml` checks all of it.

Each component has a specification on values, in which an operation or a critical section is a function from state to
state; laws that say what each operation does to the state without the terms the specification is written in (the
modules named after effects, mapping, control, rules, blending and drawing); lemmas about all its runs; and, where the
source updates objects in place, a class whose methods follow the source and are proved to be those functions.

* **GPU transfers** (`UploadProtocol`, `UploadSafety`, `UploadEffects`, `UploadStream`, `ReadbackProtocol`,
  `ReadbackSafety`, `ReadbackEffects`, `ReadbackStream`). Slots move between callers' leases, a worker's tasks, ready
  lists and reclaim under interleaved calls. One critical section is one step; a task a caller enqueues after leaving
  its critical section is counted as posted until a separate step hands it to the worker, so every interleaving is a
  sequence of steps. The worker runs one task at a time and retries one that reports it is not done.
* **Capture timing** (`MediaClock`, `ClockMapping`, `SourceQueue`, `SourceQueueSafety`, `SourceQueueEffects`,
  `TimedSourceQueue`). A phase and rate filter with an incremental least-squares fit, and the bounded queue that
  aligns captured frames with it. Producers push while the render thread advances, selects and commits; the loop of
  `advance` is several steps with pushes in between.
* **Node graph** (`NodeGraph`, `NodeGraphSafety`, `NodeGraphEffects`, `NodeManager`, `Options`, `OptionRules`,
  `FrameRate`). Connections, the lists every interface keeps, eviction, the search for cycles, option normalisation
  and the render thread's snapshot.
* **Frames** (`FrameExecution`, `FrameControl`, `FramePasses`, `FrameTick`). The submit and execute passes over a
  snapshot. What a plain node resolves, the number a connection delivers and whether it delivers a framebuffer are
  free choices of the frame; the texture mix and the switches decide from them what they resolve, as the source does.
* **Configuration** (`Configuration`, `ConfigurationEffects`, `RoundTrip`, `ConfigurationStore`). Migration, loading,
  saving.
* **Scheduling and output** (`FrameScheduler`, `SchedulingEffects`, `OutputQueue`, `PresentationTimeline`,
  `DeckLinkOutput`, `DeckLinkPlayback`, `OutputEffects`). Frame timing, the timed output queue, the mean latency of
  the last frames presented, and the playback loop with the slot budget that ties it to the readback stream.
* **Software surface** (`Pixels`, `Blending`, `Raster`, `StridedImage`, `Lines`, `Surface`, `Drawing`). Eight-bit
  premultiplied arithmetic, clipped loops over pixels in row order, strided images, clipping and walking lines.
* **Status registry** (`StatusRegistry`). Full states and the changes an observer follows.

Clock readings, transfer results, the device's answers and the coverage of ellipses and pills are parameters. Names
(node ids, types, interfaces, options) are only compared and looked up, so numbers stand for them. Times are integers
in flicks; rates, shares and floating-point options are real numbers.

Where the source does not do quite what one would say of it:

* Loading a configuration reproduces it exactly when the manager loaded into has no setting the saved settings lack: an
  extra one is kept (`RoundTrip.SavedConfigurationLoads`, with an input in `RoundTrip.ExtraSettingIsKept`). A fresh
  manager has none, and the application loads only into one (src/main.cpp:111-113).
* The registry's changes do not tell of removals; an observer who is not told keeps stale fields
  (`StatusRegistry.UntoldRemoval`, with a run in `StatusRegistry.UntoldRemovalGoesStale`).
* The queue's `pushed` metric counts inserted frames only; frames rejected at once count as selection drops, and the
  conservation law of `OutputQueue` is about frames offered.
* Failing or cancelling a ticket removes its frame only when the frame was neither ready nor failed
  (`TimedSourceQueue.TimedSourceQueue.RetireTicket`).
* A latency correction for a frame that would be scheduled too early can make it earlier still: with sixteen
  observations kept it goes by the one it replaces (`PresentationTimeline.FullCorrectionFollowsDropped`, with an input
  in `PresentationTimeline.CorrectionCanGoBack`).

## Model

| member | source | states |
|---|---|---|
| UploadSafety.EveryRunOwnsEachSlotOnce | src/gpu/transfer/texture_upload.cpp:156-239 | in every state any interleaving of callers and worker reaches, open or closing, each slot has exactly the one holder its state names (free list, one unsubmitted lease, one upload, ready list, current, one reclaim), and a free slot is named by no lease and no task |
| UploadSafety.EveryRunReleasesEachSlotOnce | src/gpu/transfer/texture_upload.cpp:217-239 | no slot is released while the stream holds it, none twice, and after destruction every slot ever made exactly once |
| UploadSafety.DestroyReleasesIdleSlots | src/gpu/transfer/texture_upload.cpp:217-239 | what destruction releases, no lease, task or running upload names |
| UploadSafety.ShutdownCompletes | src/gpu/transfer/texture_upload.cpp:384-400 | a closed stream without leases and tasks is not kept from being destroyed, and its destruction is pending exactly once |
| UploadSafety.DoomedUploadNeverShows | src/gpu/transfer/texture_upload.cpp:464-593 | an upload discarded, passed over or replaced never becomes ready or current again in any later state |
| UploadSafety.DiscardDooms | src/gpu/transfer/texture_upload.cpp:557-593 | discarding a queued or ready upload makes it one that never shows |
| UploadSafety.PromotionDoomsTheRest | src/gpu/transfer/texture_upload.cpp:464-546 | a selection keeps from showing again what was current and every completed upload it took off the list |
| UploadSafety.StepKeepsInv | src/gpu/transfer/texture_upload.cpp:102-593 | every critical section keeps the ownership invariant, unique upload ids and the counters |
| UploadStream.UploadStream.TryAcquireUploadBuffer | src/gpu/transfer/texture_upload.cpp:402-436 | hands out the oldest free slot as a fresh lease, or asks for one more allocation when the limit allows |
| UploadStream.UploadStream.SubmitSlot | src/gpu/transfer/texture_upload.cpp:358-377 | queues a slot exactly while the stream is active and the slot is being written |
| UploadStream.UploadStream.ReturnUnsubmittedLease | src/gpu/transfer/texture_upload.cpp:274-290 | a lease dropped before submission frees its slot, into the free list only while active |
| UploadStream.UploadStream.ReleaseSubmittedLease | src/gpu/transfer/texture_upload.cpp:292-303 | a lease dropped after submission is counted off once |
| UploadStream.UploadStream.SelectLatestCompletedThrough | src/gpu/transfer/texture_upload.cpp:464-505 | of the leading completed uploads up to an id the last becomes current, the others and the old current one go to reclaim |
| UploadStream.UploadStream.SelectCompletedUpload | src/gpu/transfer/texture_upload.cpp:507-546 | the completed upload with an id becomes current, every other completed one goes to reclaim |
| UploadStream.UploadStream.DiscardCompletedUpload | src/gpu/transfer/texture_upload.cpp:557-593 | a queued upload is marked, a ready one goes to reclaim, any other is left |
| UploadStream.UploadStream.FinishUploadSlot | src/gpu/transfer/texture_upload.cpp:168-195 | a finished upload is ready, or goes to reclaim when it failed, the stream closed or it was discarded |
| UploadStream.UploadStream.ReclaimSlot | src/gpu/transfer/texture_upload.cpp:197-215 | a reclaim waits for the lease and the renderer, then frees the slot |
| UploadStream.UploadStream.DestroyStream | src/gpu/transfer/texture_upload.cpp:217-239 | destruction happens exactly when no allocation, lease or slot in flight is left |
| UploadStream.UploadLease.MoveFrom | src/gpu/transfer/texture_upload.cpp:313-342 | move assignment gives up the own lease, takes the other over and empties it; assigning to itself changes nothing |
| UploadEffects.SelectThroughShows | src/gpu/transfer/texture_upload.cpp:464-505 | of the completed uploads at the front of the list with ids up to the bound the last becomes current and its id the retained one; those before it and the old current one join reclaim, those behind it stay, no other slot changes |
| UploadEffects.SelectThroughNothing | src/gpu/transfer/texture_upload.cpp:468-480 | on a closed stream, or with no completed upload within the bound at the front, nothing changes |
| UploadEffects.SelectExactShows | src/gpu/transfer/texture_upload.cpp:507-546 | the completed upload that carries the id becomes current and retained; every other completed one and the old current one join reclaim |
| UploadEffects.SelectExactNothing | src/gpu/transfer/texture_upload.cpp:511-522 | when no completed upload carries the id, or the stream is closed, nothing changes |
| UploadEffects.FailedUploadIsDoomed | src/gpu/transfer/texture_upload.cpp:168-195 | an upload whose transfer failed is one that never shows |
| UploadEffects.EndedUploadMoves | src/gpu/transfer/texture_upload.cpp:168-195 | a transfer that succeeds on an open stream, undiscarded, ends the ready list; any other goes to reclaim |
| UploadEffects.StartedUploadMoves | src/gpu/transfer/texture_upload.cpp:155-166 | a transfer starts while the stream is open; on a closed one its slot goes to reclaim |
| UploadEffects.AcquireHandsOut | src/gpu/transfer/texture_upload.cpp:402-436 | the first free slot is handed out alone, with a fresh upload id |
| UploadEffects.AcquireAsks | src/gpu/transfer/texture_upload.cpp:406-433 | without a free slot one more is asked for exactly when the stream is open, there is room, none is on its way and a retry is due |
| UploadEffects.DiscardMoves | src/gpu/transfer/texture_upload.cpp:557-593 | a discard marks a queued upload, takes a completed one off the list to reclaim, and leaves every other slot alone |
| UploadEffects.ReclaimFrees | src/gpu/transfer/texture_upload.cpp:197-215 | a slot leaves reclaim exactly when its lease is gone and the renderer is done |
| UploadEffects.CloseRetires | src/gpu/transfer/texture_upload.cpp:384-400 | closing takes the current upload to reclaim and asks for the destruction once |
| ReadbackSafety.EveryRunSplitsSlots | src/gpu/transfer/texture_readback.cpp:167-215 | in every reachable state each slot has exactly its one holder; while active the slots split into free, rendering, queued, ready and CPU-reading, with lists and lease counters to match |
| ReadbackSafety.EveryRunReleasesEachSlotOnce | src/gpu/transfer/texture_readback.cpp:195-216 | no slot is released twice or while held; after destruction all are released |
| ReadbackSafety.DestroyReleasesIdleSlots | src/gpu/transfer/texture_readback.cpp:195-216 | destruction releases only slots nothing holds |
| ReadbackSafety.ShutdownCompletes | src/gpu/transfer/texture_readback.cpp:195-216 | a closed stream without leases and tasks is not kept from being destroyed, and its destruction is pending exactly once |
| ReadbackSafety.StepKeepsInv | src/gpu/transfer/texture_readback.cpp:98-477 | every critical section keeps ownership, counters and release counts |
| ReadbackStream.ReadbackStream.TryAcquireRenderTarget | src/gpu/transfer/texture_readback.cpp:399-440 | hands out the oldest free slot, gives it back when the texture cannot be acquired, or asks for an allocation, and counts the misses |
| ReadbackStream.ReadbackStream.TryConsumeLatest | src/gpu/transfer/texture_readback.cpp:442-462 | hands out the newest ready slot and frees the others in their order |
| ReadbackStream.ReadbackStream.TryConsumeOldest | src/gpu/transfer/texture_readback.cpp:464-478 | hands out the oldest ready slot |
| ReadbackStream.ReadbackStream.FinishReadbackSlot | src/gpu/transfer/texture_readback.cpp:177-193 | a finished transfer is ready, or frees its slot when it failed or the stream closed |
| ReadbackStream.ReadbackTarget.MoveFrom | src/gpu/transfer/texture_readback.cpp:293-305 | move assignment gives up an unsubmitted target and takes the other over |
| ReadbackStream.ReadbackFrame.MoveFrom | src/gpu/transfer/texture_readback.cpp:358-366 | move assignment gives up the own frame and takes the other over |
| ReadbackEffects.TakeLatestReads | src/gpu/transfer/texture_readback.cpp:442-462 | the last completed slot is read, and those it overtakes join the free list in their order |
| ReadbackEffects.TakeOldestReads | src/gpu/transfer/texture_readback.cpp:464-478 | the first completed slot is read, the others keep their order |
| ReadbackEffects.EndedReadbackMoves | src/gpu/transfer/texture_readback.cpp:167-193 | a transfer that succeeds on an open stream ends the ready list, any other frees its slot; completions and failures are counted |
| ReadbackEffects.AcquireHandsOut | src/gpu/transfer/texture_readback.cpp:399-440 | the first free slot is the target, and no other slot changes |
| ReadbackEffects.AcquireMissesAndAsks | src/gpu/transfer/texture_readback.cpp:403-429 | without a free slot a miss is counted, and one more slot is asked for exactly when it may be |
| ReadbackEffects.AllocationJoins | src/gpu/transfer/texture_readback.cpp:98-164 | a slot made in time joins the end of the free list, one made too late is released, a failure is remembered |
| MediaClock.UpdateMovesPredictionByAdjustment | src/media/media_clock.cpp:63-116 | after an update the clock maps the observed sample to its old prediction plus the clamped adjustment exactly, also when the rate was refitted and the anchor moved |
| MediaClock.ResidualErrorShrinks | src/media/media_clock.cpp:104-110 | what the adjustment leaves of the error keeps its sign, never grows, and shrinks exactly when the error reaches the divisor and adjustments are allowed |
| MediaClock.EveryRunFollowsItsWindow | src/media/media_clock.cpp:69-102 | over every run the incremental sums are the batch sums of the window, whose media offsets increase |
| MediaClock.EveryRunRefitsFromTwoPoints | src/media/media_clock.cpp:81-102 | over every run the rate stays within the configured deviation, and a complete window refits it exactly when two points contributed |
| MediaClock.DenominatorNonNegative | src/media/media_clock.cpp:82-84 | the regression denominator is never negative, and zero exactly when all points share one offset |
| MediaClock.ObservedRateIsLeastSquares | src/media/media_clock.cpp:85-87 | no line through the window has a smaller squared error than the observed rate |
| MediaClock.UpdateContinues | src/media/media_clock.cpp:48-67 | an update continues the same epoch with a later sequence number and timestamp |
| MediaClock.MediaToProgramClock.ObserveSample | src/media/media_clock.cpp:24-116 | the observation as the specification defines it: initialise, discontinuity or update |
| ClockMapping.MapFollowsRate | src/media/media_clock.cpp:118-133 | program time differs from the anchor by the media time since its anchor times the rate, to half a flick |
| ClockMapping.MapIsMonotone | src/media/media_clock.cpp:118-133 | at a positive rate a later media time maps to no earlier program time |
| ClockMapping.EveryRunMapsForward | src/media/media_clock.cpp:24-133 | over every run whose allowed deviation is below one, the rate is positive, and between two mapped times program time passes as media time does, within the deviation and rounding |
| ClockMapping.TimeLineBreaksExactly | src/media/media_clock.cpp:48-67 | an observation restarts the clock exactly for another epoch, a number or time not later, a jump beyond the threshold, or a time it cannot map |
| ClockMapping.RestartMapsSample | src/media/media_clock.cpp:27-46 | after a start or restart the sample maps to the time of its observation, at rate one with an empty window |
| ClockMapping.AdjustmentIsShareOfError | src/media/media_clock.cpp:104-110 | the adjustment is the error over the divisor, in whole flicks toward zero, cut off at the maximum |
| ClockMapping.OpenWindowGathers | src/media/media_clock.cpp:69-81 | while a window is open the rate stays, and a sample counts into it when both times have passed its start |
| ClockMapping.CompleteWindowRefits | src/media/media_clock.cpp:81-102 | a complete window starts the next at the sample, and a window that determines a rate moves the rate by its share of the way to the bounded one |
| SourceQueueSafety.EveryRunCountsFrames | src/media/timed_source_queue.hpp:316-402 | the shared counter equals pending, in-transit and aligned frames and never passes the capacity or zero; pushed frames are overflow drops, selection drops, commits, retired, cleared, unmappable and queued frames together |
| SourceQueueSafety.EveryRunCommitsInOrder | src/media/timed_source_queue.hpp:461-480 | between two discontinuities committed sequence numbers strictly increase, and every aligned frame is newer than all of them |
| SourceQueueSafety.GoneTicketNeverCommits | src/media/timed_source_queue.hpp:461-480 | a ticket whose frame has left the queue never commits, however the run goes on |
| SourceQueueSafety.CommittedIsGone | src/media/timed_source_queue.hpp:471-479 | a committed frame has left the queue |
| SourceQueueSafety.ClearedIsGone | src/media/timed_source_queue.hpp:259-274 | a discontinuity takes every issued frame out of the queue |
| SourceQueueSafety.OvertakenIsGone | src/media/timed_source_queue.hpp:417-438 | selecting a newer frame takes every other issued frame out of the queue |
| SourceQueueSafety.DecidedStaysDecided | src/media/timed_source_queue.hpp:56-89 | a frame that is ready or failed stays so through every later action of any thread |
| SourceQueueSafety.SelectFindsDue | src/media/timed_source_queue.hpp:404-415 | a selection finds no new frame exactly when none is due |
| SourceQueueSafety.SelectPicksNewestDue | src/media/timed_source_queue.hpp:404-415 | the frame selected is due and newer than every other due frame |
| SourceQueueSafety.ArrivalPhaseIsNearest | src/media/timed_source_queue.hpp:243-257 | the arrival phase is the offset less whole frame durations, at most half a duration from zero |
| TimedSourceQueue.TimedSourceQueue.PushFrame | src/media/timed_source_queue.hpp:316-349 | a full queue gives up its oldest pending frame, or the new one when nothing is pending |
| TimedSourceQueue.TimedSourceQueue.Advance | src/media/timed_source_queue.hpp:351-402 | pending frames are aligned one by one through the clock, with the restart a discontinuity asks for |
| TimedSourceQueue.TimedSourceQueue.SelectFrame | src/media/timed_source_queue.hpp:404-459 | selection of a new, repeated or missing frame, with older frames dropped |
| TimedSourceQueue.TimedSourceQueue.CommitFrame | src/media/timed_source_queue.hpp:461-480 | commits a ready frame that is still queued |
| TimedSourceQueue.TimedSourceQueue.RetireTicket | src/media/timed_source_queue.hpp:211-227 | removes the frame only when it was neither ready nor failed |
| SourceQueueEffects.CommitNeedsReadyFrame | src/media/timed_source_queue.hpp:461-480 | a commit is granted exactly for a frame that is ready and either repeated or new and still queued; a refused one leaves the queue as it is |
| SourceQueueEffects.EveryCommittedFrameIsReady | src/media/timed_source_queue.hpp:461-480 | over every run, each commit counted is of a frame that was ready then and is ready ever after |
| SourceQueueEffects.EveryRunShowsReadyFrames | src/media/timed_source_queue.hpp:461-480 | the frame on show is ready in every state of every run |
| SourceQueueEffects.CommitShows | src/media/timed_source_queue.hpp:461-480 | the frame committed leaves the queue and is on show, the others stay in their order |
| SourceQueueEffects.RetireNeedsUndecided | src/media/timed_source_queue.hpp:211-227 | a ticket is given up exactly while its new frame is undecided; the frame has then failed |
| SourceQueueEffects.PushJoinsOrDrops | src/media/timed_source_queue.hpp:316-349 | a frame joins the pending ones, at the expense of the oldest of them when the queue is full, or is itself dropped when there is none |
| SourceQueueEffects.ClearGivesUpFrames | src/media/timed_source_queue.hpp:259-274 | a discontinuity fails every aligned frame and empties the queue and the screen |
| SourceQueueEffects.AlignedFrameIsDelayed | src/media/timed_source_queue.hpp:366-401 | on a running time line a frame is observed less the arrival phase and placed a fixed delay after the time it maps to |
| SourceQueueEffects.BreakingFrameRestarts | src/media/timed_source_queue.hpp:366-401 | a frame that breaks the time line gives up the frames aligned so far and starts under its own phase |
| SourceQueueEffects.SelectionDropsOlder | src/media/timed_source_queue.hpp:404-438 | the newest due frame is handed out; the frames not older stay in order, the older ones are dropped and counted |
| SourceQueueEffects.NothingDueRepeats | src/media/timed_source_queue.hpp:439-459 | with none due the frame on show is repeated, or missing when there is none, each counted as such |
| NodeManager.IsConnectionCircular | src/core/node_manager.cpp:33-79 | the search ends, and answers yes exactly when a path already leads from the target to the source |
| NodeGraphSafety.AppendStaysAcyclic | src/core/node_manager.cpp:327-333 | a new connection keeps the graph acyclic exactly when its source is not downstream of its target |
| NodeGraphSafety.EveryRunKeepsGraphSound | src/core/node_manager.cpp:122-400 | over every run of edits: each list is the order-preserving part of the connection list that touches its interface, no duplicates, every connection from an output to an accepting input, caps kept, no cycle, options canonical, the settings node present |
| NodeGraphSafety.EveryFrameSeesCurrentNodes | src/core/node_manager.cpp:445-479 | applying removed and then changed ids makes the render snapshot equal the nodes, whatever was edited, also a node removed and added again; the settings are there and usable |
| NodeGraphSafety.AddConnectionEvictsOldest | src/core/node_manager.cpp:332-343 | an accepted connection joins at the end and the rest keep their order; another one goes exactly when it is the oldest at an end of the new one and that end has reached its cap |
| NodeGraphSafety.CircularExactlyAfterEviction | src/core/node_manager.cpp:327-343 | the search for a cycle runs before the eviction, and refuses exactly the new, well-typed connections that would make a cycle in the graph as eviction leaves it |
| NodeGraphSafety.EvictionKeepsCaps | src/nodes/interface.cpp:21-29 | evicting on both sides brings every interface back within its cap |
| NodeGraphSafety.RemoveNodeKeepsInv | src/core/node_manager.cpp:196-233 | removing a node takes all its connections out and keeps the invariant |
| NodeGraphSafety.RefreshIsExact | src/core/node_manager.cpp:446-459 | the refreshed snapshot equals the map of nodes |
| NodeManager.NodeManager.HandleAddNode | src/core/node_manager.cpp:138-194 | adds a fresh record over the defaults, or reports the first error and changes nothing |
| NodeManager.NodeManager.HandleRemoveNode | src/core/node_manager.cpp:196-233 | removes the node and every connection of it, one by one, which amounts to all at once |
| NodeManager.NodeManager.HandleUpdateNode | src/core/node_manager.cpp:235-268 | updates options all or nothing and marks the node changed |
| NodeManager.NodeManager.HandleAddConnection | src/core/node_manager.cpp:270-353 | turns the connection round if needed, checks it, appends it and evicts; or reports the first error |
| NodeManager.NodeManager.RemoveConnectionLocked | src/core/node_manager.cpp:355-400 | takes a connection out of the list and out of both its ends |
| NodeManager.NodeManager.RefreshSnapshot | src/core/node_manager.cpp:445-463 | brings the render snapshot up to date and empties both sets |
| NodeGraphEffects.RemoveNodeTakesOnlyIt | src/core/node_manager.cpp:196-233 | exactly the node and the connections with an end at it go; every other node keeps type, identity and options, every other connection its place in the connection list and in the lists of its ends |
| NodeGraphEffects.RemoveConnectionTakesOnlyIt | src/core/node_manager.cpp:355-400 | exactly the one connection goes, from the list and from both ends |
| NodeGraphEffects.AddConnectionKeepsNodes | src/core/node_manager.cpp:270-353 | adding a connection leaves every node its type, identity and options |
| NodeGraphEffects.AddedConnectionIsListed | src/core/node_manager.cpp:332-343 | an accepted connection is last in the lists of both its ends |
| NodeGraphEffects.AcceptedExactly | src/core/node_manager.cpp:270-331 | a connection is accepted exactly when, from output to input, it is new, both ends exist, the input takes the type, and the source is not downstream of the target |
| NodeGraphEffects.AddNodePutsOnlyIt | src/core/node_manager.cpp:138-194 | exactly one node is put, with its defaults and the given options over them and without connections |
| NodeGraphEffects.UpdateNodeChangesOnlyIt | src/core/node_manager.cpp:235-268 | exactly the options given change, of the one node |
| NodeGraphEffects.InputsAccept | src/nodes/interface.hpp:77-89 | an input takes its own type, a vector input numbers as well, a texture input framebuffers |
| NodeGraphEffects.AddNodeRefusals | src/core/node_manager.cpp:138-178 | each reason for which a node is refused, exactly |
| NodeGraphEffects.AddConnectionRefusals | src/core/node_manager.cpp:270-331 | a connection is a duplicate exactly when it is listed as given or turned round, not found exactly without both ends, and circular only when it would close a circle |
| Options.NormalizeIdempotent | src/nodes/normalize_option.hpp:22-153 | what any kind of option is normalised to is left alone when normalised again |
| Options.NormalizeOptionIdempotent | src/nodes/node.cpp:33-44 | the same with the common names tried first, whatever the node type makes of those names |
| Options.NumberIsClamped | src/nodes/normalize_option.hpp:22-43 | a number moves only when out of bounds, to the bound it passes, and is reported corrected exactly then |
| Options.IntegerIsTruncated | src/nodes/normalize_option.hpp:22-43 | an integer option drops the fraction of a number in bounds and takes the bound otherwise |
| Options.FrameRateOptionKeepsDuration | src/nodes/system/settings.cpp:45-74 | a normalised frame rate has the same frame duration |
| Options.SetOptions | src/nodes/node.cpp:46-90 | a set of options is stored completely and normalised, or not at all |
| Options.CanonicalOptionsReload | src/nodes/node.cpp:62-89 | canonical options written over others whose names they cover are stored as they are |
| Options.CanonicalSettingsAreUsable | src/nodes/system/settings.cpp:45-87 | settings in normal form carry an exact rate in lowest terms and sizes and buffer counts in range |
| FrameRate.DurationIsExact | src/types/frame_rate.cpp:38-55 | a rate has a duration exactly when it divides the flicks of its seconds; no product wraps and no range test fires |
| FrameRate.CanonicalKeepsDuration | src/types/frame_rate.cpp:57-67 | the canonical rate lasts as long and is in lowest terms |
| FrameRate.CanonicalIsUnique | src/types/frame_rate.cpp:57-67 | two rates have one canonical form exactly when their frames last equally long |
| OptionRules.PairRule | src/nodes/normalize_option.hpp:72-101 | a pair is two numbers, each moved into its own bounds in its own place, and corrected exactly when one moved |
| OptionRules.WholePairRule | src/nodes/screen/screen_output.cpp:215-240 | a pair of whole numbers holds the nearest whole number, or the bound passed, in each place, and is corrected exactly when one changed |
| OptionRules.FramebufferSizeRule | src/nodes/system/settings.cpp:45-87 | a framebuffer size is a width and a height, each cut to a whole number in bounds in its own place |
| OptionRules.RateIsRead | src/nodes/system/settings.cpp:25-74 | a rate is exactly an object of two positive 32-bit numbers whose frames last a whole number of flicks |
| OptionRules.CommonNamesComeFirst | src/nodes/node.cpp:33-44 | a name and a position are accepted in every node whatever its type says; where the common rule refuses, the rule of the type decides |
| FramePasses.FrameInfo.SubmitNodeOnce | src/nodes/frame_execution.cpp:31-46 | a node joins the submitted set once, with everything its submit asks for and nothing more |
| FramePasses.FrameInfo.ExecuteNodeOnce | src/nodes/frame_execution.cpp:48-63 | a node executes at most once and returns finished, never merely begun, with everything it resolved finished before it |
| FramePasses.FrameInfo.ResolveConnection | src/nodes/interface.cpp:48-61 | when resolving returns, the upstream node has finished |
| FrameTick.GraphMakesFrameValid | src/core/node_manager.cpp:438-463 | frames of reachable graphs have the acyclicity the recursion relies on |
| FrameTick.ReadsAreResolvable | src/nodes/interface.cpp:51-60 | no input of a reachable graph resolves to a missing node or interface |
| FrameTick.SubmitAndExecute | src/nodes/frame_execution.cpp:65-81 | submitted and executed sets are the least closed ones around the demanding nodes; execution order is topological, each node once; only submitted nodes execute |
| FrameTick.TickOneFrame | src/core/node_manager.cpp:430-513 | the same for a tick of a manager in any reachable state, on the current nodes |
| FrameExecution.ReadsAreSubmitted | src/nodes/node.cpp:22-29 | a node resolves only what it submitted, also through pruned mix and switch nodes |
| FrameExecution.MixReadsAreSubmitted | src/nodes/composite/mix_tex_2.cpp:37-84 | a texture mix resolves only what its pruned submit submitted |
| FrameExecution.SwitchReadsAreSubmitted | src/nodes/switch/switch.cpp:42-79 | a switch resolves only what its pruned submit submitted |
| FrameExecution.ActiveIndexCountsFromOne | src/nodes/switch/switch.cpp:42-46 | a switch counts inputs from one, ignores fractions, and takes the nearest input to a number out of range |
| FrameExecution.PrunedSubmitIsExact | src/nodes/composite/mix_tex_2.cpp:44-57 | without a connected control input, pruning submits exactly what is then resolved |
| FrameControl.SwitchFollowsConnection | src/nodes/switch/switch.cpp:42-63 | a switch with a connection on its control input resolves that and then the input whose place, counted from one, is the delivered number rounded down and moved into range, whatever the option |
| FrameControl.SwitchFollowsOption | src/nodes/switch/switch.cpp:56-63 | without a connection the option names the place |
| FrameControl.MixFollowsConnection | src/nodes/composite/mix_tex_2.cpp:59-84 | with a target and a connection on its control input a mix resolves the first texture alone at or below zero, the second alone at or above one, both in between, whatever the option |
| FrameControl.MixFollowsOption | src/nodes/composite/mix_tex_2.cpp:59-84 | without that connection the option decides alike |
| FrameControl.SwitchExecutesChosenInput | src/nodes/switch/switch.cpp:56-63 | of an executed frame: the control connection and the chosen input of a switch were resolved, their nodes finished before it, and no other input was resolved by it |
| FrameControl.MixExecutesChosenTextures | src/nodes/composite/mix_tex_2.cpp:59-84 | of an executed frame: a mix resolved its target, its control connection and the textures the number asks for, and no others |
| FrameControl.SwitchSubmitsEveryInput | src/nodes/switch/switch.cpp:65-74 | with a connected control input a switch submits that and everything connected to any input, and nothing else |
| FrameControl.MixSubmitsTextures | src/nodes/composite/mix_tex_2.cpp:37-57 | a mix submits target and control input, and of its textures both with a connected control input, else those its option asks for |
| RoundTrip.EverySavedConfigurationRoundTrips | src/core/configuration.cpp:242-274 | any configuration reached by any run, saved in any traversal order and loaded into a fresh manager, gives the same nodes, options, connection order and lists, with nothing rejected or evicted |
| RoundTrip.SavedConfigurationLoads | src/core/configuration.cpp:174-218 | loading into any manager with only its settings node always succeeds, and reproduces the configuration exactly when that manager has no setting the saved ones lack |
| RoundTrip.ExtraSettingIsKept | src/core/configuration.cpp:195-206 | a manager whose settings node has been named keeps the name when a document saved without it is loaded |
| ConfigurationStore.MigrationIsIdempotent | src/core/configuration.cpp:88-133 | a document migrated once migrates to itself |
| ConfigurationStore.MigrationComposes | src/core/configuration.cpp:118-124 | migrating in two stages is migrating at once, for options and for interface names |
| ConfigurationStore.ConfigurationStore.LoadConfig | src/core/configuration.cpp:174-218 | loads in the order of the source and stops where it fails |
| ConfigurationStore.ConfigurationStore.GetConfig | src/core/configuration.cpp:242-276 | writes every node once, in the order of the traversal, and the connections in theirs |
| ConfigurationStore.MigrateAllNodes | src/core/configuration.cpp:88-133 | migrates every node through all versions from its own, or reports the first error |
| ConfigurationStore.MigrateAllConnections | src/core/configuration.cpp:135-169 | migrates both interface names of every connection by the versions of its two nodes |
| ConfigurationEffects.OlderEntryMigratesStepwise | src/core/configuration.cpp:88-133 | an older entry goes through the migration of its own version, then on as an entry of the next one |
| ConfigurationEffects.EntriesAreChecked | src/core/configuration.cpp:32-49 | an entry is refused exactly for an unknown type, a version that is none, or one newer than the type |
| ConfigurationEffects.EveryEntryIsMigrated | src/core/configuration.cpp:88-133 | when none is refused, each entry is migrated in its place and remembered by type and version |
| ConfigurationEffects.ConnectionMigratesStepwise | src/core/configuration.cpp:135-169 | each interface name of a connection is migrated by the type and version of the node at its own end |
| ConfigurationEffects.LoadRefusesFirst | src/core/configuration.cpp:174-200 | a document is refused, with nothing changed, for its version, a manager in use, an entry or a connection, in this order |
| FrameScheduler.FramesToSkipIsLeast | src/core/frame_scheduler.cpp:10-23 | the skip count is the least that brings the next frame within the allowed lateness |
| FrameScheduler.EveryRunStaysOnGrid | src/core/frame_scheduler.cpp:31-129 | over every run an epoch starts at its anchor, its frames lie on anchor plus whole durations, and from a frame to the next the place on the grid and the number advance by exactly one and what was skipped; the next number is finished plus skipped |
| FrameScheduler.EveryRunReportsOverload | src/core/frame_scheduler.cpp:102-108 | overload is sustained exactly when the frames missed in a row in this epoch span a second |
| FrameScheduler.RunsKeepInv | src/core/frame_scheduler.cpp:31-129 | also: totals count skips and misses, and each extreme is one some frame had and none exceeded |
| FrameScheduler.FrameScheduler.Begin | src/core/frame_scheduler.cpp:31-73 | begins a frame, in a new epoch when the rate changed, or throws and changes nothing |
| FrameScheduler.FrameScheduler.Finish | src/core/frame_scheduler.cpp:75-127 | finishes a frame: extremes, misses, overload, skips |
| SchedulingEffects.NewRateStartsEpoch | src/core/frame_scheduler.cpp:31-73 | the first frame and the first at a new rate start an epoch now, without overload |
| SchedulingEffects.SameRateGoesOn | src/core/frame_scheduler.cpp:55-73 | any other frame is due as many durations after the anchor as frames were finished and skipped |
| SchedulingEffects.FinishMeasures | src/core/frame_scheduler.cpp:76-129 | duration, lateness, margin, misses and overload of a finished frame by its start, target and deadline |
| OutputQueue.EveryRunShowsForward | src/media/timed_output_queue.hpp:96-120 | frames shown as new have strictly increasing targets, whatever times are asked for |
| OutputQueue.EveryRunAccountsForFrames | src/media/timed_output_queue.hpp:81-120 | as multisets, frames offered are frames dropped, shown and queued; drop counters count the dropped ones; the queue keeps within its capacity |
| OutputQueue.PushKeepsLatest | src/media/timed_output_queue.hpp:88-94 | an overflowing queue keeps the latest targets of the old frames and the new one |
| OutputQueue.SelectShowsLatestDue | src/media/timed_output_queue.hpp:96-109 | a selection shows the latest due frame and leaves only frames not due |
| OutputQueue.TimedOutputQueue.PushFrame | src/media/timed_output_queue.hpp:81-94 | inserts behind frames of the same time, or rejects what is not later than the frame shown |
| OutputQueue.TimedOutputQueue.SelectFrame | src/media/timed_output_queue.hpp:96-120 | new frame, repeat or missing |
| OutputQueue.FindUpperBound | src/media/timed_output_queue.hpp:88-89 | the binary search finds the first later frame |
| OutputEffects.SelectShowsLastDue | src/media/timed_output_queue.hpp:96-109 | the last frame due is shown, the ones before it dropped and counted, the ones behind it kept |
| OutputEffects.PushQueues | src/media/timed_output_queue.hpp:81-94 | a frame later than the one shown is queued behind those not later, and a full queue loses its first |
| DeckLinkOutput.EveryRunLeavesHeadroom | src/nodes/decklink/output.cpp:57-70 | however render thread, worker and device interleave, frames scheduled, queued, current and in completion leave at least three readback slots to the pipeline, or two just while one more is taken over in a completion |
| DeckLinkOutput.PipelineLeavesHeadroom | src/nodes/decklink/output.cpp:64-70 | the slot budget as a bound on every state the invariant admits: three slots beyond those held, one fewer only while a frame is taken over in a completion |
| DeckLinkOutput.PipelineStepKeepsInv | src/nodes/decklink/output.cpp:431-513 | the CPU reads exactly the slots the output and the completing device frame hold; scheduled frames stay within the target and on the device grid |
| DeckLinkPlayback.EveryPlaybackLeavesHeadroom | src/nodes/decklink/output.cpp:57-70 | at every moment of every playback, any sequence of preroll pumps and completions with render thread, worker and device acting in between, the slot budget holds, and the output ends where the calls lead |
| DeckLinkPlayback.PlaybackPlays | src/nodes/decklink/output.cpp:533-677 | every pump and completion collects and schedules only while fewer frames are scheduled than the target |
| DeckLinkPlayback.PrerollFills | src/nodes/decklink/output.cpp:546-572 | a preroll is full exactly when it and one frame in reserve are queued, there is a frame to show, and the device accepts every one; its frames follow the oldest queued one without a gap |
| DeckLinkPlayback.RefillFills | src/nodes/decklink/output.cpp:653-676 | a refill reaches the target exactly when there is a time to schedule for, a frame to show and the device accepts every missing one |
| DeckLinkPlayback.DeckLinkPlayback.PumpPreroll | src/nodes/decklink/output.cpp:533-593 | starts exactly when the preroll is full and the device starts; waits when too little is queued, requests failure when enough is but it does not start, and does nothing once running or stopping |
| DeckLinkPlayback.DeckLinkPlayback.ScheduledFrameCompleted | src/nodes/decklink/output.cpp:595-677 | a completion takes its frame off, collects and refills; it fails, with what was scheduled up to then, exactly when its frame is unknown, no target time is known or the refill is not full |
| DeckLinkPlayback.DeckLinkPlayback.ScheduleFrames | src/nodes/decklink/output.cpp:662-669 | schedules frames for consecutive times until one cannot be |
| DeckLinkPlayback.DeckLinkPlayback.ScheduleProgramFrame | src/nodes/decklink/output.cpp:469-513 | selects, repeats the last buffer when nothing new is due, and schedules when the device accepts |
| OutputEffects.RefillTargetIsMapped | src/nodes/decklink/output.cpp:635-658 | the time scheduled for is the presentation less the mean latency, after the oldest queued frame has counted into it when that time was more than half a program frame too early |
| OutputEffects.RefillTargetNearsQueue | src/nodes/decklink/output.cpp:647-652 | while few latencies are known, the time chosen is at most half a program frame before the oldest queued frame, or nearer to it than the mapped one and not past it |
| OutputEffects.RefillGoesOn | src/nodes/decklink/output.cpp:658-676 | refilled frames follow the last scheduled one in number and stream time without a gap, and lie one frame apart in program time from the chosen time on |
| OutputEffects.ScheduledFrameFollows | src/nodes/decklink/output.cpp:469-513 | an accepted frame joins the end with the next number and the next stream time; otherwise nothing is scheduled |
| PresentationTimeline.PresentationTimeline.ObserveLatency | src/media/presentation_timeline.hpp:21-36 | the ring of sixteen places and the running sum give the mean of the last observations, after any number of them |
| PresentationTimeline.LatencyBetween | src/media/presentation_timeline.hpp:21-36 | the latency lies within any bounds of the observations kept, whatever came before |
| PresentationTimeline.StartupRollsOut | src/media/presentation_timeline.hpp:21-36 | after sixteen equal observations the latency is that one |
| PresentationTimeline.CorrectionApproaches | src/nodes/decklink/output.cpp:648-652 | with few observations, one for a later frame brings the target closer to the frame and never past it |
| PresentationTimeline.FullCorrectionFollowsDropped | src/media/presentation_timeline.hpp:21-44 | with all places taken, the target moves forward for an observation no greater than the one it replaces, and back for one no smaller |
| PresentationTimeline.CorrectionCanGoBack | src/nodes/decklink/output.cpp:648-652 | observations with which the correction takes the target further from the frame it was too early for |
| Pixels.MultiplyIsRounded | src/render/surface/surface.cpp:169-173 | a channel product is exact to the nearest and at most either factor |
| Pixels.CompositeIsPremultiplied | src/render/surface/surface.cpp:185-198 | compositing premultiplied pixels overflows no channel and stays premultiplied |
| Pixels.InterpolateIsPremultiplied | src/render/surface/surface.cpp:148-167 | a colour between two premultiplied ones is premultiplied |
| Pixels.InterpolateEnds | src/render/surface/surface.cpp:148-167 | a gradient has its two colours at its ends |
| Pixels.InterpolateIsNearest | src/render/surface/surface.cpp:148-156 | an interpolated channel is the weighted mean rounded to the nearest |
| Pixels.OpaqueIsLookedUp | src/render/surface/surface.cpp:209-221 | an opaque converted pixel has each channel looked up in its own place |
| Pixels.CoveredAlphaInRange | src/render/surface/surface.cpp:248-253 | the alpha of a partly covered source is the colour alpha scaled and rounded, never more than it was |
| Pixels.ReplaceIsPremultiplied | src/render/surface/surface.cpp:223-242 | mixing by coverage keeps pixels premultiplied |
| Pixels.UnpremultiplyUndoes | src/render/surface/surface.cpp:200-207 | taking alpha out gives the colour back within what the scaling rounded away |
| Pixels.OpaqueReplaces | src/render/surface/surface.cpp:185-198 | an opaque source replaces the destination |
| Pixels.TransparentLeaves | src/render/surface/surface.cpp:185-198 | a transparent source leaves the destination |
| Raster.ClipIsIntersection | src/render/surface/surface.cpp:60-78 | clipping keeps exactly the points of the rectangle that lie on the surface |
| Raster.RasterOperation | src/render/surface/surface.cpp:80-95 | every pixel of the rectangle on the surface is changed once, every other is left, all accesses in bounds |
| StridedImage.CopyOperation | src/render/surface/surface.cpp:112-146 | the same for an image placed anywhere, every source pixel read inside its storage for either sign of the stride |
| StridedImage.RequiredSizeIsExact | src/render/surface/strided_image_view.hpp:33-58 | the overflow tests refuse exactly the sizes that do not fit |
| StridedImage.FromRowsIsValid | src/render/surface/strided_image_view.hpp:76-101 | every pixel of an accepted view lies in its storage, also with a negative stride |
| StridedImage.PackedIsValid | src/render/surface/strided_image_view.hpp:61-72 | every pixel of an accepted packed view lies in its storage |
| Surface.Surface.SourceOver | src/render/surface/surface.cpp:445-451 | pointwise effect, premultiplied kept |
| Surface.Surface.BilinearGradient | src/render/surface/surface.cpp:614-625 | pointwise effect, premultiplied kept when the four colours are |
| Surface.Surface.DrawRect | src/render/surface/surface.cpp:476-488 | four fills colour exactly the border of the given thickness |
| Surface.GradientEdges | src/render/surface/surface.cpp:600-612 | gradients have their colours along the edges of the rectangle |
| Surface.BilinearRows | src/render/surface/surface.cpp:614-625 | the first and last rows of a bilinear gradient are the horizontal ones between their corners |
| Surface.CheckerAlternates | src/render/surface/surface.cpp:627-637 | neighbouring cells differ and the first cell has the first colour |
| Surface.Surface.DrawLine | src/render/surface/surface.cpp:490-518 | the walk ends and fills a square at each point of the clipped line |
| Surface.StrokeIsPointwise | src/render/surface/surface.cpp:503-517 | a pixel has the colour of the line exactly when a square of the line covers it |
| Surface.CoverageDrawsPremultiplied | src/render/surface/surface.cpp:436-443 | drawing by coverage keeps pixels premultiplied |
| Surface.SrgbDrawsPremultiplied | src/render/surface/surface.cpp:428-434 | drawing a converted colour image keeps pixels premultiplied |
| Lines.LineStaysInBox | src/render/surface/surface.cpp:496-517 | the walk is at the far end after exactly max(|dx|, |dy|) steps and not before, always inside the box of the two ends |
| Lines.LineIsNearest | src/render/surface/surface.cpp:503-517 | each point visited is nearest to the straight line |
| Lines.WalkAdvances | src/render/surface/surface.cpp:508-516 | the error-term tests step exactly as the nearest points do |
| Lines.ClipLineLeavesSurface | src/render/surface/surface.cpp:256-304 | clipping succeeds exactly when some point of the segment is on the surface, and leaves both ends on it |
| Lines.VisibleIsExact | src/render/surface/surface.cpp:271-293 | the four boundary tests keep exactly the part of the segment on the surface |
| Lines.ClipLineKeepsVisible | src/render/surface/surface.cpp:256-304 | a segment with both ends on the surface is left as it is |
| Blending.ReplaceIsMix | src/render/surface/surface.cpp:223-242 | each channel is the nearest to the mean of the pixel and the colour, weighted by the coverage; at full coverage the colour, at none the pixel |
| Blending.PremultiplyScales | src/render/surface/surface.cpp:175-183 | each channel is the nearest to its product with alpha |
| Blending.CompositeIsOver | src/render/surface/surface.cpp:185-198 | each channel is the source and what its alpha lets through of the destination |
| Blending.ConvertLooksUp | src/render/surface/surface.cpp:209-221 | each channel is taken out of its alpha, looked up and scaled again, in its own place |
| Blending.CoveredSourceOver | src/render/surface/surface.cpp:244-254 | drawing by coverage composites the colour with its alpha scaled to the nearest |
| Blending.GradientsAreEven | src/render/surface/surface.cpp:600-612 | at each pixel a gradient is the mean of its colours weighted by the distance from the edges |
| Blending.BilinearIsEven | src/render/surface/surface.cpp:614-625 | at each pixel a bilinear gradient lies between its two horizontal ones by the distance from top and bottom |
| Drawing.PixelIsPainted | src/render/surface/surface.cpp:80-95 | a change of a rectangle concerns the pixels whose column and row lie in it, and no other |
| Drawing.ImageIsCopied | src/render/surface/surface.cpp:112-146 | an image drawn at a position changes the pixels it covers, each by its own source pixel |
| Drawing.RowsInMemory | src/render/surface/strided_image_view.hpp:76-101 | with a positive stride rows lie from first to last in memory, with a negative one from last to first, the storage ending with the highest |
| Drawing.PixelsLieApart | src/render/surface/strided_image_view.hpp:43-101 | no two pixels of an accepted view share a byte |
| Drawing.BorderIsNearEdges | src/render/surface/surface.cpp:476-488 | a border has the pixels nearer to an edge than its thickness |
| Drawing.BrushIsCentred | src/render/surface/surface.cpp:494-507 | the square of a point of a line reaches half the thickness to every side |
| StatusRegistry.SnapshotAndChangesAreComplete | src/core/node_status_registry.cpp:7-66 | a snapshot taken after any run of calls, with all changes flushed in any later run merged and removed nodes dropped, has exactly the fields of the registry |
| StatusRegistry.UntoldRemoval | src/core/node_status_registry.cpp:26-35 | an observer not told of a removal stays right exactly when it has no field of the node |
| StatusRegistry.UntoldRemovalGoesStale | src/core/node_status_registry.cpp:26-49 | a status written, flushed and removed with its node stays with an observer who is not told, and with no other |
| StatusRegistry.WriteTellsChanges | src/core/node_status_registry.cpp:7-24 | a write stores exactly the fields it names, and tells exactly those whose value it changes |
| StatusRegistry.NodeStatusRegistry.WriteStatus | src/core/node_status_registry.cpp:7-24 | new fields go to the state and to the pending changes, known ones to neither |

## Left out

- Sharing of slot and frame objects: the source's shared pointers are identities in maps here, so aliasing is not modelled beyond that identity.
- Wrap-around of 64-bit times and counters, and rounding of `double` and `long double`: integers are unbounded and reals exact, except in `FrameRate`, `StridedImage` and the pixel channels, and in the range test of `MediaClock`.
- MediaClock.UpdateMovesPredictionByAdjustment: exact over reals; in `long double` the anchor's product may round differently.
- Lines.ClipLineLeavesSurface: over reals; in `double` an end can round to a neighbouring pixel.
- Surface.Surface.DrawLine: surfaces so large that twice the error term leaves 32 bits are not treated.
- The log messages for interface lists out of step with the connection list: no reachable graph has them (`NodeGraphSafety.EveryRunKeepsGraphSound`), and the methods that edit connections ask for lists in step.
- Condition variables, waiting, real time and liveness: nothing is claimed about when a step happens, only that shutdown is not stuck (`UploadSafety.ShutdownCompletes`, `ReadbackSafety.ShutdownCompletes`).
- Memory budgets, fences, contexts and transfer backends: each is a yes or no given to the step that asks.
- Exceptions after a slot has been taken into the stream, a transfer service that is gone, and a service that stops with tasks left.
- The destructor of the source queue and the lead-time extremes among its metrics; transfer durations among the readback metrics.
- Generated node ids, adapters' notifications, and clearing all nodes at exit.
- Reading and writing JSON text, missing or ill-typed document fields outside schema versions, and files.
- Options whose rules differ from the kinds in `Options.Kind`, and the tables of node types beyond the settings type.
- The values outputs compute: a connection's number is a free parameter of the frame, so a mix or switch is treated for every value.
- Ellipse and pill geometry and the sRGB table: coverage and table are arbitrary functions.
- The grid drawing of the surface, the convenience forms for circles, and construction of a surface over longer storage.
- Device discovery, keyer and mode handling, status publishing and runtime metrics of the DeckLink output; the presentation time of the next frame, which its device clock maps, is a parameter of `DeckLinkPlayback.DeckLinkPlayback.ScheduledFrameCompleted`.
- References the device driver itself keeps on a frame after the completion callback has returned.
- Pushing one frame twice into the source queue: its callers push each frame they create once, which the queue itself does not enforce and the model takes for granted.
- NDI and screen outputs, FFmpeg, text rendering, the web server and the client.
