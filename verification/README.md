# mvision: verified models of the live identity pipeline and the offline video algorithms

The repository recognises people on live cameras and in uploaded videos. A native worker
(C++) tracks faces and sends evidence over a pipe; a Python supervisor turns the evidence into
identity decisions and sends assignments back, which the worker shows on screen. Uploaded videos
go through track accumulation, track merging, identity voting and face assignment.

This project models that logic and proves what it keeps over every run.

- **Live identity protocol** (`LiveIdentity`, `ObservationWindow`, `LiveEvents`, `AssignmentQueues`,
  `CommandOrder`, `NativeIdentity`,
  `LiveSystem`, `LiveProjection`, `LiveSafety`, `LiveAgreement`, `LiveReuse`, `LiveDisplay`,
  `LiveProcesses`). Each hop is a class or a function proved against a specification. `LiveSystem`
  composes them into one state machine whose actions (evidence, expiry, stop, send, deliver, frame) come in any order with any
  votes, failed database rows and queue pressure. `LiveProcesses` proves that the handlers carry
  out exactly one action of that machine each.
- **Event queue and framed transport** (`EventQueue`, `TraceState`, `Wire`, `LiveMessages`,
  `RoundTrips`, `WireFormat`, `FrameStream`). All twelve message kinds, with serialisation as a parameter.
- **Watchdog** (`LiveLifecycle`). A timed state machine under arbitrary interleavings.
- **Offline algorithms** (`VideoAccumulator`, `Reconciliation`, `IdentityVoting`, `VideoResults`)
  over real numbers.
- **Bounded store and control loop** (`EvidenceBank`, `MediaReconciler`).

`Common`, `Sorting` and `Sums` hold the shared vocabulary: stable sorting as a function with its
uniqueness, and order-independent sums.

## Findings

Places where the code does something its surroundings do not say. Each is a proved statement.

- A replacement of one face by another is queued as "unknown" and "known" without a pause, so the
  second always coalesces over the first and the native side refuses it: the label stays in an
  older epoch until the next drop (`LiveAgreement.ReplacementNeverReachesNative`,
  `LiveAgreement.SwapIsNotShown`).
- A tracker id that comes back after expiry can break label safety
  (`LiveAgreement.ReuseBreaksLabelSafety`). Reuse of a forgotten id is safe exactly when native is in
  its first epoch without a face and everything left over under way leaves it so, that is, carries
  "unknown" of that epoch or "known" of a later one (`LiveReuse.ReuseIsSafeExactlyWhenClean`, as long as
  no stop is under way; a stop keeps left-overs out and the condition sufficient). The native
  worker encodes and decodes `track_expired` but never sends one, so today no track of a running
  worker expires.
- Answering a rebuild that was asked for is fatal exactly when anything but polls happened in
  between, be it a frame, a stop or a close, or when the rebuild failed with the budget used up
  (`LiveLifecycle.AnswerIsFatalExactlyWhen`, `LiveLifecycle.InterruptedRebuildIsFatal`). The
  pipeline's rebuild loop (backend/pipeline/src/live_pipeline.cpp:492-496) answers without looking for a stop again.
- A watchdog that failed before its first `start()` is revived by it and can then never fail or
  report again (`LiveLifecycle.FailedIsLeftExactlyByFirstStart`, `LiveLifecycle.EarlyFrameIsRevived`,
  `LiveLifecycle.RevivedNeverFailsAgain`).
- An RTSP source whose scheme is not in lower case is replaced on every pass
  (`MediaReconciler.SecondPassIsIdleExactlyOnLowerCase`, `MediaReconciler.MixedCaseIsWrittenAgain`).
- A failing deletion or a failing listing ends a pass before it forgets the desired paths, after which
  a path can be deleted one second after it was desired (`MediaReconciler.AbortedCleanUpDeletesEarly`,
  `MediaReconciler.FailedListingDeletesEarly`). Early deletion happens exactly when the last pass that
  desired the path was not completed in this way and the path was remembered as stale from before it
  (`MediaReconciler.EarlyDeletionExactlyWhen`).
- Ids of new faces are name-based, so a retried job can match a face it is about to mint and give
  it to two tracks seen at the same time (`VideoResults.RetriedJobCanShareFace`). Matching its own
  id again is harmless (`VideoResults.OwnMatchesAreFresh`).
- The decoder accepts more than the encoder writes: integers in float fields, byte strings for
  number lists, upper-case identifiers. Re-encoding is the identity exactly on payloads without
  these (`RoundTrips.EncodeUndoesDecodeExactlyOnCanonical`, `RoundTrips.UpperCaseSessionIsNotWrittenBack`).

## Model

| member | source | states |
|---|---|---|
| LiveIdentity.AcceptNewObservations | backend/app/services/live_identity_service.py:195-206 | the append-and-pop loop appends the observations with new timestamps in time order and keeps the last five |
| LiveIdentity.WindowIsLastFiveAccepted | backend/app/services/live_identity_service.py:195-206 | for every history the window is the last five of all observations ever accepted, however they were batched |
| ObservationWindow.EachBatchBringsItsNewTimes | backend/app/services/live_identity_service.py:195-206 | for every history and next batch: what is accepted has strictly increasing timestamps, exactly those of the batch that no earlier batch offered, each with its first observation |
| ObservationWindow.SeenIsOffered | backend/app/services/live_identity_service.py:201-203 | a track remembers exactly the timestamps it was ever offered |
| ObservationWindow.WindowHoldsNewest | backend/app/services/live_identity_service.py:204-206 | the window is the end of the accepted observations, no two of which share a timestamp, and its size is the number of distinct timestamps offered, at most five |
| LiveIdentity.LiveIdentityService.Resolve | backend/app/services/live_identity_service.py:91-182 | an evaluation changes its own track only and yields the specified decision |
| LiveIdentity.LiveIdentityService.Expire | backend/app/services/live_identity_service.py:184-193 | expiry forgets exactly one track |
| LiveIdentity.CountersInHistory | backend/app/services/live_identity_service.py:117-166 | in every history the win and reject counters of a held face are lengths of streaks of successive counted votes; failed queries neither count nor reset |
| LiveIdentity.EpochRisesExactlyOnDropOrReplace | backend/app/services/live_identity_service.py:117-182 | the epoch rises by one exactly when the held face is dropped (third successive no-match) or replaced (at least three successive votes for one other face with a reference); every other evaluation leaves face and epoch |
| LiveIdentity.EpochMonotone | backend/app/services/live_identity_service.py:126-182 | epochs never fall, and within one epoch a held face never changes |
| LiveIdentity.KnownOncePerEpoch | backend/app/services/live_identity_service.py:147-182 | two known transitions of a track carry different, increasing epochs |
| LiveIdentity.DecisionReports | backend/app/services/live_identity_service.py:208-221 | every decision carries the number of evaluations, the score of the newest counted vote and the reference that came with the held face |
| LiveIdentity.DecisionVerdict | backend/app/services/live_identity_service.py:126-182 | "unknown" exactly on a drop, "known" exactly while a face is held |
| LiveIdentity.TransitionExactly | backend/app/services/live_identity_service.py:117-182 | the transition is "unknown" exactly on a drop and "known" exactly on an acquisition or replacement |
| LiveEvents.LiveEventService.MakeAssignment | backend/app/services/live_event_service.py:230-264 | a new assignment carries the next revision of its track and the decision's content |
| LiveEvents.LiveEventService.Accept | backend/app/services/live_event_service.py:83-117 | a decision is held back, stored, suppressed or raised on as specified, with one or two stamped assignments |
| LiveEvents.LiveEventService.Expire | backend/app/services/live_event_service.py:119-135 | a pending track that dwelt long enough is stored and announced as unknown |
| LiveEvents.KnownEventsAreSpaced | backend/app/services/live_event_service.py:104-117 | for every call sequence, stored known events of one face at one camera lie at least the cooldown apart even if evidence times go backwards |
| LiveEvents.KnownIsStoredExactlyOutsideCooldown | backend/app/services/live_event_service.py:104-117 | after any calls a known decision stores its row if and only if no stored known row of that face at that camera lies less than the cooldown before it and the row is accepted; otherwise it is suppressed or raises |
| LiveEvents.SuppressedCountsTooSoon | backend/app/services/live_event_service.py:108-109 | the suppression counter is the number of known decisions that came too soon |
| LiveEvents.ExpiryStoresExactlyAfterDwell | backend/app/services/live_event_service.py:126-135 | after any calls an expiry stores the waiting decision's unknown row if and only if one waits, the track was seen for at least the dwell time and the row is accepted |
| LiveEvents.PendingIsWaiting | backend/app/services/live_event_service.py:92-102 | what is pending is the newest undecided decision of the track since it was last decided unknown or expired |
| LiveEvents.DropIsStored | backend/app/services/live_event_service.py:96-99 | a drop stores its row whenever the row is accepted |
| LiveEvents.CommandsSay | backend/app/services/live_event_service.py:230-264 | which words the commands of a decision say and what each carries: a known one all about the face, an unknown one nothing |
| AssignmentQueues.PutSlots | backend/app/infrastructure/live/native_runner.py:43-59 | what a put does to the entry of every tracker: newer replaces, stale is refused, the oldest is evicted, all others stay; one entry per tracker and the capacity are kept |
| AssignmentQueues.TakeSlots | backend/app/infrastructure/live/native_runner.py:61-67 | a take removes the oldest entry and leaves the entries of all other trackers |
| AssignmentQueues.LiveCommandQueue.PutNowait | backend/app/infrastructure/live/native_runner.py:43-59 | stops are appended and always accepted; assignments coalesce, and the result tells refusal |
| AssignmentQueues.LiveCommandQueue.GetNowait | backend/app/infrastructure/live/native_runner.py:61-67 | stops go before assignments, each class in order; empty exactly when both are |
| CommandOrder.QueueIsInOrderOfArrival | backend/app/infrastructure/live/native_runner.py:43-67 | for every sequence of puts and gets the queue lists exactly what waits in order of arrival, against an order-free table; a coalesced entry keeps its place |
| CommandOrder.NextIsLongestWaiting | backend/app/infrastructure/live/native_runner.py:61-67 | a get hands out the newest assignment of the tracker that waits longest |
| CommandOrder.EvictionTakesLongestWaiting | backend/app/infrastructure/live/native_runner.py:55-57 | a put evicts exactly when its tracker is absent and the queue full, and then the tracker that waits longest |
| CommandOrder.Drive | backend/app/infrastructure/live/native_runner.py:43-67 | the queue object driven by any operations holds and hands out exactly that |
| AssignmentQueues.LiveAssignmentQueue.Push | backend/pipeline/src/live_worker_queue.cpp:90-102 | the order list stays duplicate-free and equal to the keys; newer coalesces, stale or the 257th tracker is refused |
| AssignmentQueues.LiveAssignmentQueue.Pop | backend/pipeline/src/live_worker_queue.cpp:104-113 | the first tracker's assignment leaves, the lookup never misses |
| AssignmentQueues.LiveAssignmentQueue.Hop | backend/pipeline/src/live_worker_main.cpp:270-275 | pushing and popping at once hands every assignment straight through |
| NativeIdentity.IdentityAssignmentState.ApplyAssignment | backend/pipeline/src/live_track_state.cpp:206-231 | accepts exactly when revision, epoch, state word and face allow it, and a refusal changes nothing although fields are written before the last check |
| NativeIdentity.SanitizeName | backend/pipeline/src/live_osd_state.cpp:82-93 | the byte loop keeps the first eighty printable characters |
| NativeIdentity.LiveOsdState.ApplyAssignment | backend/pipeline/src/live_osd_state.cpp:12-24 | an accepted assignment resets the entry, a refused one or a foreign generation changes no entry's value |
| NativeIdentity.LiveOsdState.Observe | backend/pipeline/src/live_osd_state.cpp:26-53 | only an entry with reference and threshold is updated, by its clamped similarity |
| NativeIdentity.LiveOsdState.LabelFor | backend/pipeline/src/live_osd_state.cpp:55-74 | a name is drawn exactly for a held and currently visible identity |
| NativeIdentity.CountersAreRuns | backend/pipeline/src/live_osd_state.cpp:41-51 | for every score sequence the saturating counters are the lengths of the newest run on each side, capped at three |
| NativeIdentity.VisibilityIsLastTriple | backend/pipeline/src/live_osd_state.cpp:41-52 | for any entry without counted scores and every score sequence, visibility is the side of the newest three in a row |
| NativeIdentity.ClampIsNearest | backend/pipeline/src/live_osd_state.cpp:36-39 | clamping is the identity on [-1, 1] and otherwise the nearest end |
| NativeIdentity.ScoreAtThresholdCountsHigh | backend/pipeline/src/live_osd_state.cpp:40-51 | a score at the threshold speaks for the face |
| NativeIdentity.ThreeInARowDecide | backend/pipeline/src/live_osd_state.cpp:41-51 | three scores in a row on one side decide visibility from any entry |
| NativeIdentity.CleanNameIsKept | backend/pipeline/src/live_osd_state.cpp:82-93 | a printable name of at most eighty characters is shown as it is |
| NativeIdentity.ControlIsDropped | backend/pipeline/src/live_osd_state.cpp:87-91 | control characters are dropped wherever they stand |
| LiveProjection.EvidenceProjects | backend/app/services/live_supervisor.py:423-441 | an evidence event acts on its own tracker as one decision and at most evicts the queued entry of others |
| LiveProjection.ExpiryProjects | backend/app/services/live_supervisor.py:433-441 | an expiry acts on its own tracker only, apart from evictions |
| LiveProjection.SendProjects | backend/app/infrastructure/live/native_runner.py:169-173 | sending moves one entry to the pipe and changes no other tracker's view |
| LiveProjection.DeliverProjects | backend/pipeline/src/live_pipeline.cpp:398-417 | delivery applies the oldest assignment of its tracker and changes no other tracker's view |
| LiveProjection.RunsAreSound | backend/app/services/live_event_service.py:236-238 | in every reachable state revisions in flight increase strictly and lie between what native has seen and what was stamped last |
| LiveSafety.DeliveredRevisionsIncrease | backend/app/services/live_event_service.py:236-238 | in every run the revisions native reads for a tracker increase strictly, through coalescing, eviction and expiry |
| LiveSafety.NothingStaleIsDelivered | backend/pipeline/src/live_protocol.cpp:729-736 | neither the decoder's nor apply's stale-revision refusal is ever taken |
| LiveSafety.ReplicasAlwaysAgree | backend/pipeline/src/live_pipeline.cpp:398-417 | in every reachable state the track replica and the display replica hold the same identity for every tracker |
| LiveSafety.RunsAreSafe | backend/pipeline/src/live_track_state.cpp:206-231 | inductive invariant of all runs without id reuse: whatever is queued, on the pipe, pending or held by native was decided by the service in that epoch |
| LiveAgreement.LabelSafety | backend/pipeline/src/live_track_state.cpp:206-231 | native is never in a newer epoch than a live track, and a face it shows in an epoch was held by the service in that epoch |
| LiveAgreement.OneFacePerEpoch | backend/app/services/live_identity_service.py:126-182 | at no two moments of a run do service or native hold different faces in one epoch |
| LiveAgreement.DecisionAgreesExactlyWhen | backend/app/services/live_event_service.py:92-117 | exact condition, per kind of decision, for native to end up in the service's epoch with its face; a stored drop resynchronises from any state |
| LiveAgreement.InStepUnlessSwapped | backend/app/services/live_event_service.py:92-117 | from the start, or from a stored drop after any losses: while rows are stored, entries are not evicted and a first known face does not overwrite the queued opener of its epoch, native is bound for the service's epoch and face if and only if the epoch was not opened by a replacement |
| LiveAgreement.SettledAgreement | backend/pipeline/src/live_track_state.cpp:207-230 | once nothing is in flight the same holds of what native shows |
| LiveAgreement.ReplacementNeverReachesNative | backend/app/infrastructure/live/native_runner.py:48-54 | as long as an epoch opened by a replacement lasts, native stays below it, whatever is sent or delivered |
| LiveAgreement.SwapIsNotShown | backend/app/services/live_event_service.py:113-117 | a concrete run, one vote for Ann and three for Bob: the service holds Bob in epoch 2, which native will not reach |
| LiveAgreement.OneKnownEventPerEpoch | backend/app/services/live_event_service.py:104-117 | known events of a track, the stored ones and likewise all attempted ones with raised rows included, carry strictly increasing epochs |
| LiveAgreement.ReuseBreaksLabelSafety | backend/app/services/live_identity_service.py:184-193 | a concrete run with a reused id in which native shows one face while the service holds another in the same epoch |
| LiveReuse.CleanReuseIsHarmless | backend/app/services/live_identity_service.py:184-193 | from any state in which the service has forgotten the id, native is blank and everything under way is harmless, label safety holds until the next expiry, whatever came before |
| LiveReuse.ReuseIsSafeExactlyWhenClean | backend/app/services/live_identity_service.py:184-193 | with no stop under way: label safety holds in every continuation without another expiry if and only if native is blank and everything in flight is harmless |
| LiveReuse.UncleanReuseIsUnsafe | backend/pipeline/src/live_track_state.cpp:206-231 | otherwise sending and delivering what is left over breaks it |
| LiveReuse.BlankStaysExactlyIfHarmless | backend/pipeline/src/live_track_state.cpp:206-231 | a blank native stays blank under a legal fresh assignment if and only if that is an unknown of epoch 1 or a known of a later epoch |
| LiveReuse.RunsAreLegal | backend/app/services/live_event_service.py:230-264 | in every run, ids reused or not, every assignment on its way has an epoch, a legal word and a face if it says known |
| LiveReuse.AbsentHasNothingPending | backend/app/services/live_event_service.py:119-135 | in every run an id the service does not know has nothing pending |
| LiveDisplay.EntryInRuns | backend/pipeline/src/live_osd_state.cpp:12-53 | in every run the display entry of a tracker is the last applied assignment with the frames since observed on it |
| LiveDisplay.NamedExactlyByLastTriple | backend/pipeline/src/live_osd_state.cpp:12-74 | in every run a name is shown exactly when the last applied assignment named a face and the newest three scores in a row since then, if any, were not below the threshold |
| LiveProcesses.LiveSupervisor.ProcessEvidence | backend/app/services/live_supervisor.py:423-443 | the evidence handler carries out exactly one action of the state machine, raised errors included |
| LiveProcesses.LiveSupervisor.ProcessExpired | backend/app/services/live_supervisor.py:433-443 | the expiry handler carries out exactly one action; a raised error keeps the identity |
| LiveProcesses.LiveSupervisor.PutEach | backend/app/services/live_supervisor.py:440-441 | queueing a list of assignments one by one |
| LiveProcesses.LiveSupervisor.WriteNext | backend/app/infrastructure/live/native_runner.py:169-173 | the writer task carries out exactly one send and puts that command on the pipe |
| LiveProcesses.NativeWorker.OnAssignment | backend/pipeline/src/live_worker_main.cpp:270-275 | decode context, hop, track replica and display replica together carry out one delivery, keep the replicas equal and report whether it was applied |
| LiveLifecycle.Lifecycle.DoStart | backend/pipeline/src/live_pipeline.cpp:184-193 | the start step |
| LiveLifecycle.Lifecycle.DoOnFrame | backend/pipeline/src/live_pipeline.cpp:195-215 | the frame step |
| LiveLifecycle.Lifecycle.DoPoll | backend/pipeline/src/live_pipeline.cpp:217-238 | the poll step; its answer is true exactly when it counts a new attempt |
| LiveLifecycle.Lifecycle.DoRebuildResult | backend/pipeline/src/live_pipeline.cpp:240-256 | the rebuild-result step |
| LiveLifecycle.Lifecycle.DoStop | backend/pipeline/src/live_pipeline.cpp:258-266 | the stop step |
| LiveLifecycle.Lifecycle.DoClose | backend/pipeline/src/live_pipeline.cpp:268-278 | the close step |
| LiveLifecycle.StoppedOnlyFromStopping | backend/pipeline/src/live_pipeline.cpp:258-278 | in every call sequence each Stopped notice directly follows a Stopping one |
| LiveLifecycle.FailureReportedExactlyOnce | backend/pipeline/src/live_pipeline.cpp:169-182 | a run begun with start() has reported one failure if it is Failed and none otherwise, however the clock goes |
| LiveLifecycle.FailedIsLeftExactlyByFirstStart | backend/pipeline/src/live_pipeline.cpp:184-193 | in any reachable state Failed is left exactly by a first start() |
| LiveLifecycle.FailedIsFinal | backend/pipeline/src/live_pipeline.cpp:164-278 | a run begun with start() that failed stays Failed, however the clock goes |
| LiveLifecycle.RebuildOnlyAfterLongSilence | backend/pipeline/src/live_pipeline.cpp:217-238 | a rebuild is asked for strictly more than frame timeout plus recovery deadline after every earlier accepted frame |
| LiveLifecycle.OneRebuildOutstanding | backend/pipeline/src/live_pipeline.cpp:217-256 | between two requests for a rebuild lies a result or a frame |
| LiveLifecycle.FailedRebuildIsFatalFromNth | backend/pipeline/src/live_pipeline.cpp:240-256 | a failed rebuild is fatal exactly from the N-th rebuild of the run on, successes included |
| LiveLifecycle.AtMostNMinusOneFailuresTolerated | backend/pipeline/src/live_pipeline.cpp:240-256 | over a whole run at most N-1 failed rebuilds are tolerated |
| LiveLifecycle.AnswerIsFatalExactlyWhen | backend/pipeline/src/live_pipeline.cpp:195-278 | for every run begun with start() and every request answered without a further request in between: the answer is fatal if and only if something other than a poll came in between, or the rebuild failed and was at least the N-th |
| LiveLifecycle.OutstandingExactlyWhilePolling | backend/pipeline/src/live_pipeline.cpp:195-278 | a request stays outstanding exactly as long as nothing but polls happens |
| LiveLifecycle.InterruptedRebuildIsFatal | backend/pipeline/src/live_pipeline.cpp:195-278 | a frame, a stop or a close while a rebuild is outstanding, then its answer, even a successful one: Failed with one failure reported |
| LiveLifecycle.EarlyFrameIsRevived | backend/pipeline/src/live_pipeline.cpp:184-215 | a frame before start() fails the watchdog with one report, and start() then leaves Failed |
| LiveLifecycle.RevivedNeverFailsAgain | backend/pipeline/src/live_pipeline.cpp:169-193 | a revived watchdog never enters Failed and never reports again, whatever is called |
| LiveLifecycle.PollTimesOutExactly | backend/pipeline/src/live_pipeline.cpp:217-230 | while Starting or Active a poll enters Reconnecting if and only if more than the frame timeout has passed since the newest sign of life, and otherwise does nothing |
| LiveLifecycle.PollAsksExactly | backend/pipeline/src/live_pipeline.cpp:231-238 | a poll asks for a rebuild if and only if the run is Reconnecting, none is outstanding and more than the recovery deadline has passed since the later of entering Reconnecting and the last answered rebuild |
| LiveLifecycle.CallsLeadExactly | backend/pipeline/src/live_pipeline.cpp:184-278 | the state every other call leads to |
| LiveLifecycle.ReasonExactly | backend/pipeline/src/live_pipeline.cpp:169-182 | the reported reason is a used-up budget exactly when an awaited rebuild failed |
| EventQueue.LiveWorkerEventQueue.DoPush | backend/pipeline/src/live_worker_queue.cpp:7-37 | the four overflow policies, keeping the representation invariant; refused exactly when closed or when control is full |
| EventQueue.LiveWorkerEventQueue.DoPop | backend/pipeline/src/live_worker_queue.cpp:39-66 | priority order, keeping the invariant; nothing comes out exactly when closed and drained |
| EventQueue.LiveWorkerEventQueue.DoClose | backend/pipeline/src/live_worker_queue.cpp:68-72 | closing drops nothing |
| EventQueue.AlwaysValid | backend/pipeline/src/live_worker_queue.cpp:7-72 | in every run the order list is duplicate-free and equals the evidence keys, and all limits hold |
| EventQueue.PopKeepsValid | backend/pipeline/src/live_worker_queue.cpp:39-66 | the evidence lookup never misses, and a pop is empty exactly on an empty queue |
| EventQueue.ControlIsFifo | backend/pipeline/src/live_worker_queue.cpp:31-46 | in every run received plus waiting control messages are exactly the accepted ones, in order |
| EventQueue.ControlGoesFirst | backend/pipeline/src/live_worker_queue.cpp:42-46 | while control messages wait, the writer gets the oldest of them |
| EventQueue.DropsAreAccountedFor | backend/pipeline/src/live_worker_queue.cpp:17-30 | in every run the drop count is refused evidence plus evicted operations, and the waiting operations are the newest accepted ones |
| EventQueue.OperationsComeInOrder | backend/pipeline/src/live_worker_queue.cpp:25-64 | in every run the operations received, then those waiting, are some of the accepted ones in their order |
| EventQueue.EvidenceIsNewest | backend/pipeline/src/live_worker_queue.cpp:10-22 | what waits for a tracker is the first admitted evidence of largest revision since the tracker last left |
| EventQueue.PopPrefers | backend/pipeline/src/live_worker_queue.cpp:39-66 | in every run: the oldest control message, else the evidence of the tracker that entered first, else the newest metrics, else the oldest operation |
| EventQueue.MetricsAreNewest | backend/pipeline/src/live_worker_queue.cpp:23-24 | the metrics slot holds the newest accepted metrics since one was last sent |
| EventQueue.OrderIsEntryOrder | backend/pipeline/src/live_worker_queue.cpp:17-19 | trackers wait in the order in which they entered while absent |
| EventQueue.RefusedExactlyWhenFull | backend/pipeline/src/live_worker_queue.cpp:31-36 | a push is refused exactly when closed, or for control when thirty-two wait |
| EventQueue.OperationEvictsExactlyAtLimit | backend/pipeline/src/live_worker_queue.cpp:25-30 | an operation evicts the oldest exactly when sixty-four wait |
| EventQueue.WithinLimits | backend/pipeline/src/live_worker_queue.cpp:7-37 | at most 256 trackers, 32 control messages and 64 operations wait |
| TraceState.Scan | backend/pipeline/src/live_protocol.cpp:107-127 | the one-pass scanner accepts exactly the strings the split-based Python validator accepts |
| TraceState.SplitJoins | backend/app/infrastructure/live/protocol.py:323-331 | splitting at commas is inverted by joining, and no piece holds a comma |
| TraceState.PythonMeets | backend/app/infrastructure/live/protocol.py:317-333 | the Python validator accepts exactly: at most 512 visible characters in at most 32 members, each non-empty, without outer spaces and with an equals sign |
| TraceState.TraceparentHasShape | backend/app/infrastructure/live/protocol.py:313-316 | a traceparent is valid exactly when it is version 00, a trace id, a parent id and flags in lower-case hexadecimal, no id all zero |
| RoundTrips.DecodeUndoesEncode | backend/app/infrastructure/live/protocol.py:574-802 | for every valid message of all twelve kinds decoding its payload gives it back |
| RoundTrips.EncodeUndoesDecodeExactlyOnCanonical | backend/app/infrastructure/live/protocol.py:412-514 | every decoded message is valid, and encoding it gives the payload back if and only if the payload is canonical |
| RoundTrips.OtherSpellingIsAccepted | backend/app/infrastructure/live/protocol.py:353-362 | any other spelling of a session id is accepted as the same message, is not canonical and is not written back |
| Wire.UuidHasGroups | backend/app/infrastructure/live/protocol.py:353-362 | an identifier is five groups of 8, 4, 4, 4 and 12 hexadecimal digits of either case |
| Wire.EmbeddingIsUnit | backend/app/infrastructure/live/protocol.py:523-532 | an accepted embedding has 512 numbers and a length between 0.99 and 1.01 |
| RoundTrips.KnownCarriesAll | backend/app/infrastructure/live/protocol.py:574-802 | an assignment carries all of name, face, score, threshold and reference if known, and none otherwise |
| RoundTrips.OperationsAreConsistent | backend/app/infrastructure/live/protocol.py:574-802 | an accepted operation ends no earlier than it starts and names an error exactly when it failed |
| RoundTrips.EvidenceLimits | backend/app/infrastructure/live/protocol.py:574-802 | evidence is accepted up to ten observations and half a mebibyte of picture |
| RoundTrips.UpperCaseSessionIsNotWrittenBack | backend/app/infrastructure/live/protocol.py:353-362 | a concrete stop command with an upper-case session id: accepted, re-encoded differently |
| RoundTrips.ObservationsWrite | backend/app/infrastructure/live/protocol.py:399-409 | lists of observations round-trip |
| RoundTrips.ObservationsRead | backend/app/infrastructure/live/protocol.py:535-571 | a read list is valid and is written back as it was exactly when all its entries are canonical |
| RoundTrips.HeaderReads | backend/app/infrastructure/live/protocol.py:375-396 | a decoded header is valid, and each field is written back as read exactly when canonical |
| WireFormat.HeaderFormat | backend/app/infrastructure/live/protocol.py:413-424 | the ten header fields travel under their own names, which a round trip alone would not notice exchanged |
| WireFormat.StartSourceFormat | backend/app/infrastructure/live/protocol.py:425-435 | the source, model and output fields of a start command travel under their own names |
| WireFormat.StartTuningFormat | backend/app/infrastructure/live/protocol.py:436-441 | the tuning fields of a start command travel under their own names |
| WireFormat.StartTimingFormat | backend/app/infrastructure/live/protocol.py:441-449 | the timing and recording fields of a start command travel under their own names |
| WireFormat.AssignmentFormat | backend/app/infrastructure/live/protocol.py:450-462 | each field of this kind of message travels under its own name |
| WireFormat.StopFormat | backend/app/infrastructure/live/protocol.py:463-464 | each field of this kind of message travels under its own name |
| WireFormat.HelloFormat | backend/app/infrastructure/live/protocol.py:465-470 | each field of this kind of message travels under its own name |
| WireFormat.StateFormat | backend/app/infrastructure/live/protocol.py:471-472 | each field of this kind of message travels under its own name |
| WireFormat.OutputReadyFormat | backend/app/infrastructure/live/protocol.py:473-474 | each field of this kind of message travels under its own name |
| WireFormat.EvidenceFormat | backend/app/infrastructure/live/protocol.py:475-483 | each field of this kind of message travels under its own name |
| WireFormat.ExpiredFormat | backend/app/infrastructure/live/protocol.py:484-491 | each field of this kind of message travels under its own name |
| WireFormat.MetricsFormat | backend/app/infrastructure/live/protocol.py:492-493 | each field of this kind of message travels under its own name |
| WireFormat.FailedFormat | backend/app/infrastructure/live/protocol.py:494-495 | each field of this kind of message travels under its own name |
| WireFormat.StoppedFormat | backend/app/infrastructure/live/protocol.py:496-503 | each field of this kind of message travels under its own name |
| WireFormat.OperationFormat | backend/app/infrastructure/live/protocol.py:504-512 | each field of this kind of message travels under its own name |
| WireFormat.ObservationFormat | backend/app/infrastructure/live/protocol.py:399-409 | each field of an observation travels under its own name |
| WireFormat.DecodedVersion | backend/app/infrastructure/live/protocol.py:375-396 | a decoded message has protocol version 2 |
| FrameStream.LengthRoundTrip | backend/app/infrastructure/live/protocol.py:516-520 | the four-byte length prefix round-trips |
| FrameStream.MostSignificantFirst | backend/app/infrastructure/live/protocol.py:516-520 | the length is sent most significant byte first |
| FrameStream.FrameLimit | backend/app/infrastructure/live/protocol.py:516-520 | frames over four mebibytes are refused |
| FrameStream.EncodedFrame | backend/app/infrastructure/live/protocol.py:516-520 | an encoded frame of a valid message has the right prefix and decodes to the message |
| FrameStream.DecodeContext.Decode | backend/app/infrastructure/live/protocol.py:843-860 | the first failed context check is reported and leaves the recorded revisions; an accepted assignment records its revision |
| FrameStream.ContextRefusesExactly | backend/app/infrastructure/live/protocol.py:843-860 | a context refuses exactly foreign headers and assignments not newer than the last accepted one |
| FrameStream.ContextReportsFirst | backend/app/infrastructure/live/protocol.py:843-860 | the first header field that differs is reported, staleness last |
| FrameStream.RevisionsAreNewest | backend/app/infrastructure/live/protocol.py:843-860 | the recorded revision of a tracker is that of its newest accepted assignment |
| FrameStream.ReadEvents | backend/app/infrastructure/live/native_runner.py:130-166 | the reader's loop hands on exactly the events, and ends exactly as, the recursive reading of the whole stream says |
| FrameStream.FramesReadBack | backend/app/infrastructure/live/native_runner.py:144-166 | any concatenation of acceptable frames is read back as exactly those messages, whatever follows |
| FrameStream.WholeOutputReadsBack | backend/app/infrastructure/live/native_runner.py:142-166 | whole output reads back completely and the last stopped event is returned |
| FrameStream.AnswerIsLastStopped | backend/app/infrastructure/live/native_runner.py:162-166 | the reader's answer is the newest stopped event it read |
| FrameStream.CutInsideFrameIsDetected | backend/app/infrastructure/live/native_runner.py:145-157 | output cut inside a frame is always reported as truncated, after all whole frames were handed on |
| FrameStream.WriteEvents | backend/pipeline/src/live_worker_main.cpp:140-150 | the writer writes the renumbered frames in order, up to the first event too large for a frame |
| FrameStream.NumbersRiseFromHundred | backend/pipeline/src/live_worker_main.cpp:141-147 | numbers rise by one from one hundred and nothing else of an event changes |
| FrameStream.WriterToReader | backend/pipeline/src/live_worker_main.cpp:140-150 | whatever valid events are queued, also with a foreign header: the reader receives those before the first one whose context it refuses and then raises that context error; all that were written when they are all of the run |
| FrameStream.WriterIsNeverOutOfOrder | backend/pipeline/src/live_worker_main.cpp:140-150 | whatever is queued, valid or not and of any run, the reader never reports an out-of-order sequence |
| FrameStream.TakenIsOfTheRun | backend/app/infrastructure/live/protocol.py:843-860 | every event taken carries the run's header, and a refused event that is no assignment does not |
| VideoAccumulator.InsideIsIntersection | backend/pipeline/src/video_pipeline.cpp:121-129 | the clamped box lies in the frame and is the intersection of box and frame |
| VideoAccumulator.ClipToFrame | backend/pipeline/src/video_pipeline.cpp:121-129 | the steps that clip a box give that intersection |
| VideoAccumulator.VideoTrackAccumulator.Add | backend/pipeline/src/video_pipeline.cpp:116-149 | one observation changes its own track only: clamp, push, stable sort, truncate, picture |
| VideoAccumulator.OnlineTopFive | backend/pipeline/src/video_pipeline.cpp:133-143 | for every history the retained embeddings are the first five of one stable sort of all of them |
| VideoAccumulator.KeptAreTheBestFive | backend/pipeline/src/video_pipeline.cpp:131-143 | for every history the best five are kept, or all while fewer, by quality and then frame; whatever is not kept outranks nothing that is |
| VideoAccumulator.RanksAre | backend/pipeline/src/video_pipeline.cpp:131-133 | an observation ranks by its confidence times the root of the area of its clipped box |
| VideoAccumulator.RepresentativeIsBest | backend/pipeline/src/video_pipeline.cpp:144-148 | the picture is that of the first most confident observation that has one |
| VideoAccumulator.AverageOf | backend/pipeline/src/video_pipeline.cpp:160-169 | the nested loops compute the component-wise mean and its squared length |
| VideoAccumulator.FinishTracks | backend/pipeline/src/video_pipeline.cpp:151-192 | the output loop skips unusable tracks and yields the rest sorted |
| VideoAccumulator.PutOutExactly | backend/pipeline/src/video_pipeline.cpp:155-172 | a track is put out exactly when it has embeddings and detections and its mean is not the zero vector |
| VideoAccumulator.EveryUsableTrackIsPutOut | backend/pipeline/src/video_pipeline.cpp:154-184 | the output has an entry for a tracker exactly when its track is such |
| VideoAccumulator.OutputIsUnit | backend/pipeline/src/video_pipeline.cpp:160-176 | every embedding handed on has length one |
| VideoAccumulator.OutputInFrameOrder | backend/pipeline/src/video_pipeline.cpp:178-182 | an output's detections are those of its track in frame order |
| VideoAccumulator.OutputsByFrameThenTracker | backend/pipeline/src/video_pipeline.cpp:185-190 | outputs come by first frame, then tracker id |
| VideoAccumulator.MeanIsAverage | backend/pipeline/src/video_pipeline.cpp:160-169 | the mean times the number of embeddings is their sum |
| VideoAccumulator.FinishIgnoresHashOrder | backend/pipeline/src/video_pipeline.cpp:151-192 | the output does not depend on the iteration order of the hash table |
| EvidenceBank.TrackEvidenceBank.Consider | backend/pipeline/src/live_track_state.cpp:154-192 | the change reported and the contents kept, sorted and within capacity; rejected or unchanged calls change nothing |
| EvidenceBank.TrackEvidenceBank.SortObservations | backend/pipeline/src/live_track_state.cpp:149-152 | the contents become a sorted permutation of themselves |
| EvidenceBank.ConsiderImprovesRanks | backend/pipeline/src/live_track_state.cpp:154-192 | one call never shrinks the bank and makes no rank worse, in whatever order ties are sorted |
| EvidenceBank.RanksNeverGetWorse | backend/pipeline/src/live_track_state.cpp:138-192 | over every sequence of observations the bank stays bounded and sorted and no rank gets worse |
| EvidenceBank.BestIsWithinMargin | backend/pipeline/src/live_track_state.cpp:138-192 | the best retained quality is within the margin of every accepted observation ever offered |
| EvidenceBank.PlacesExactly | backend/pipeline/src/live_track_state.cpp:154-192 | what a call does, case by case, in terms of times, poses and scores |
| EvidenceBank.BankIsRanked | backend/pipeline/src/live_track_state.cpp:138-152 | the bank is listed by quality, then timestamp, then ordinal |
| Reconciliation.FindBest | backend/app/services/video_tracking_service.py:57-83 | the first candidate of greatest similarity, or none exactly when there is no candidate |
| Reconciliation.TakeIn | backend/app/services/video_tracking_service.py:57-96 | one raw track is merged into its best candidate or opens a new track |
| Reconciliation.Reconcile | backend/app/services/video_tracking_service.py:50-98 | the loop computes the greedy merge for any input; on frame-ordered input the result partitions the non-empty tracks, each canonical track is sound and no two could be merged |
| Reconciliation.ReconciliationIsSound | backend/app/services/video_tracking_service.py:50-98 | partition, pairwise similarity, time order, plain concatenation, representative picture, embedding (source by source the unit vector of the component-wise sum) and merge-maximality of the result |
| Reconciliation.MergeAppends | backend/app/services/video_tracking_service.py:91-92 | a merge only appends in time, so the re-sort is a no-op |
| Reconciliation.OverlapIsSharedFrame | backend/app/services/video_tracking_service.py:144-147 | two frame-ordered tracks overlap exactly when a frame lies within both |
| Reconciliation.TakenByFrameThenTracker | backend/app/services/video_tracking_service.py:52-55 | tracks are taken by first frame, then tracker id |
| Reconciliation.BestConfidenceIsGreatest | backend/app/services/video_tracking_service.py:93-96 | the score of a track is its greatest confidence |
| Reconciliation.CosineOf | backend/app/services/video_tracking_service.py:149-153 | similarity is the sum of products, zero for different lengths |
| Reconciliation.DetectionsAreConserved | backend/app/services/video_tracking_service.py:50-98 | every detection occurs as often in the output as in the input |
| Reconciliation.SegmentsAreMaximalRuns | backend/app/services/video_tracking_service.py:100-109 | the segments are the detections in order, tight inside and separated by more than the gap |
| Reconciliation.Finalize | backend/app/services/video_tracking_service.py:100-109 | the loop reports one appearance per segment, from its first to its last detection |
| IdentityVoting.BestByIdentity | backend/app/services/video_identity_voting_service.py:71-87 | per identity a candidate of greatest score among those eligible and above the vote bar |
| IdentityVoting.Tally | backend/app/services/video_identity_voting_service.py:55-99 | the dictionary holds exactly the supported faces, each with its votes, weight, weighted score, best score and a sample of that score |
| IdentityVoting.TopTwo | backend/app/services/video_identity_voting_service.py:103-107 | the entry no other outranks by mean then weight, and the greatest mean of the others or zero |
| IdentityVoting.Judge | backend/app/services/video_identity_voting_service.py:121-141 | the verdict on the face ranked first, case by case |
| IdentityVoting.Resolve | backend/app/services/video_identity_voting_service.py:46-141 | the whole answer; a match wins, has its mean as score in [0, 1] and at or above the bar, and leads every other supported face by the margin; with a positive margin a match is returned whenever a face wins |
| IdentityVoting.OrderDoesNotMatter | backend/app/services/video_identity_voting_service.py:55-141 | with a positive margin the matched face and score, or no match, do not depend on the order of templates or candidates |
| IdentityVoting.TemplateOrderDoesNotMatter | backend/app/services/video_identity_voting_service.py:55-99 | all tallies are independent of template order |
| IdentityVoting.CandidateOrderDoesNotMatter | backend/app/services/video_identity_voting_service.py:58-87 | all tallies are independent of candidate order |
| IdentityVoting.AtMostOneWinner | backend/app/services/video_identity_voting_service.py:134-135 | with a positive margin at most one face wins |
| IdentityVoting.MeanBounds | backend/app/services/face_matcher.py:66 | a mean lies in [0, 1] and at or above the vote bar, so clamping it changes nothing |
| IdentityVoting.VotesExactly | backend/app/services/video_identity_voting_service.py:72-82 | a candidate votes exactly when its status is eligible and it reaches its threshold or the floor |
| IdentityVoting.NearestIsGreatest | backend/app/services/video_identity_voting_service.py:64-70 | the nearest score is the greatest of any eligible candidate |
| IdentityVoting.StrongExactly | backend/app/services/video_identity_voting_service.py:121-126 | a face is strong exactly when an eligible candidate reaches the threshold of its status |
| IdentityVoting.ConsensusExactly | backend/app/services/video_identity_voting_service.py:127-131 | consensus is enough votes and at least the required share of the total weight |
| IdentityVoting.LeadsExactly | backend/app/services/video_identity_voting_service.py:107-135 | a face leads when its mean reaches every other supported mean plus the margin, or the margin alone when there is none |
| IdentityVoting.SupportGrowsBy | backend/app/services/video_identity_voting_service.py:90-97 | what one supporting template adds to a face |
| IdentityVoting.TotalCountsEveryTemplate | backend/app/services/video_identity_voting_service.py:56-57 | every template adds to the total weight, supported or not |
| VideoResults.Finalize | backend/app/services/video_result_service.py:88-151 | the loop gives every track its face, and with fresh ids no face to two overlapping tracks |
| VideoResults.AssignedTracks | backend/app/services/video_result_service.py:149-151 | the assignment table lists, face by face, exactly the tracks given that face |
| VideoResults.KeepsMatchExactly | backend/app/services/video_result_service.py:98-103 | a track keeps its match exactly when no earlier track given that face overlaps it |
| VideoResults.OverlapIsSharedInstant | backend/app/services/video_result_service.py:257-266 | tracks overlap exactly when both are present at some instant |
| VideoResults.DoublePresenceExactlyByMinting | backend/app/services/video_result_service.py:257-266 | for all inputs: overlapping tracks never share a face if and only if no track falls back to a minted id already carried by an earlier overlapping track |
| VideoResults.FreshIdsPreventDoublePresence | backend/app/services/video_result_service.py:88-151 | if no earlier overlapping track mints or matches the id a track would mint, nobody is in two places at once |
| VideoResults.OwnMatchesAreFresh | backend/app/services/video_result_service.py:247-255 | a retried job in which every matching track matches the id it minted itself shares no face |
| VideoResults.RetriedJobCanShareFace | backend/app/services/video_result_service.py:247-255 | a concrete input with a matched id equal to a minted one in which two overlapping tracks share a face |
| MediaReconciler.MediaMtxReconciler.ApplyDesired | backend/app/services/mediamtx_reconciliation_service.py:70-98 | the loop over desired generations: compared, added, replaced and counted, with calls failing before, in or after the write |
| MediaReconciler.MediaMtxReconciler.RemoveStale | backend/app/services/mediamtx_reconciliation_service.py:100-118 | the clean-up loop: exactly the deleted names leave the server, and a failing deletion ends the pass |
| MediaReconciler.MediaMtxReconciler.ReconcileOnce | backend/app/services/mediamtx_reconciliation_service.py:65-120 | one whole pass: the counts and contents of the first half, minus exactly what the clean-up of the listed paths deletes; paths that held their configuration still do |
| MediaReconciler.WholePassConverges | backend/app/services/mediamtx_reconciliation_service.py:65-120 | an error-free first half and any clean-up leave every desired path with its configuration |
| MediaReconciler.WrittenIsRecognised | backend/app/infrastructure/media/mediamtx_client.py:31-42 | what was written is recognised again if and only if it is not an RTSP source with a mixed-case scheme |
| MediaReconciler.OnePassConverges | backend/app/services/mediamtx_reconciliation_service.py:65-90 | one error-free pass from any server contents gives every desired path its configuration |
| MediaReconciler.IngressExactly | backend/app/infrastructure/media/mediamtx_client.py:31-42 | what each kind of source asks for, and which URLs are refused |
| MediaReconciler.OwnedExactly | backend/app/services/mediamtx_reconciliation_service.py:106-110 | a path is owned exactly when it continues the prefix |
| MediaReconciler.PassStores | backend/app/services/mediamtx_reconciliation_service.py:70-90 | the stored source and transport of every desired path after an error-free pass |
| MediaReconciler.CountsExactly | backend/app/services/mediamtx_reconciliation_service.py:71-98 | what one generation adds to each counter under each fault, and when the server changes |
| MediaReconciler.SecondPassReplacesMixedCase | backend/app/services/mediamtx_reconciliation_service.py:74-80 | a second pass adds nothing and replaces exactly the mixed-case RTSP sources |
| MediaReconciler.SecondPassIsIdleExactlyOnLowerCase | backend/app/services/mediamtx_reconciliation_service.py:121-127 | after one error-free pass a second one is idle if and only if every RTSP scheme is in lower case |
| MediaReconciler.MixedCaseIsWrittenAgain | backend/app/services/mediamtx_reconciliation_service.py:74-80 | a concrete mixed-case source: accepted, and replaced by the second pass from any server contents |
| MediaReconciler.DeletedOnlyAfterGrace | backend/app/services/mediamtx_reconciliation_service.py:106-118 | over all runs a deleted path is owned and undesired and was so, at least the grace period ago and at every completed clean-up since |
| MediaReconciler.DeletedOnlyIfAlwaysStale | backend/app/services/mediamtx_reconciliation_service.py:100-118 | a deleted path was undesired at every completed pass since some pass at least the grace period ago, and at every completed pass of the last grace period; if all passes of that period were completed it was undesired throughout |
| MediaReconciler.LongStaleIsDeleted | backend/app/services/mediamtx_reconciliation_service.py:111-116 | a path found undesired by a completed clean-up and every listing since is deleted by the first completed clean-up a grace period later |
| MediaReconciler.EarlyDeletionExactlyWhen | backend/app/services/mediamtx_reconciliation_service.py:100-118 | less than the grace period after the pass behind the last one that desired it, or did not find it, a path is deleted if and only if that last pass was not completed, its listing or a deletion having failed, and the path was remembered as stale from before it for long enough |
| MediaReconciler.NoFailureNoAbort | backend/app/services/mediamtx_reconciliation_service.py:111-118 | a pass without a failing deletion does not end early |
| MediaReconciler.AbortedCleanUpDeletesEarly | backend/app/services/mediamtx_reconciliation_service.py:111-118 | a concrete run in which a failing deletion leads to a path being deleted one second after it was desired |
| MediaReconciler.FailedListingDeletesEarly | backend/app/services/mediamtx_reconciliation_service.py:100-105 | a concrete run in which a failed listing, with no failing deletion, does the same |

## Left out

- GStreamer, DeepStream, CUDA and TensorRT graph building, pads, probes and RTSP serving.
- Database repositories, leases and job claims. A database row in the live path is one input bit: stored or raised.
- MessagePack bytes: packing is a parameter with an inverse. Encryption, HMAC, name-based ids and vector search are inputs.
- HTTP routers, schemas, telemetry, metrics exposition, scripts, migrations and the frontend.
- Floating-point rounding and fixed-width overflow: numbers are reals and unbounded integers. Square root, inverse root and log1p are parameters with the facts used about them stated.
- Which error code a payload validator raises: a refused payload is refused. Dictionary keys that are byte strings are not modelled.
- Header fields and trace context of assignments on the live path, apart from the generation.
- Validation of a stored reference vector in the identity service: a reference is present or absent.
- `measure_quality`: each observation carries its score and whether the gate accepts it.
- Pairwise time and pose separation inside the evidence bank: a replacement can be near a second element, so it is not kept by the code.
- Metric deltas in the supervisor: an event without a counter resets its baseline.
- Media state of a path (ready or waiting), and the total duration and its rounding in a finished track.
- The decimal text of a label: labels are modelled by what they show.
- Thread scheduling below the granularity of one call: each locked operation is one step, and waiting is a precondition.
- Stopping the pipeline while an assignment is applied: a stop ends the native side's dispatch.
- EventQueue.LiveWorkerEventQueue.DoPop: the wait is expressed as the precondition it ends with.
- LiveLifecycle.Lifecycle.DoStart: failure texts are modelled by their two codes only.
- EvidenceBank.TrackEvidenceBank.SortObservations: the library sort may place full ties in any order; the class picks the stable one and the lemmas hold for any.
