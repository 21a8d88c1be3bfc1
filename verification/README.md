# A verified model of KB-1's ordering, ownership and identity rules

This project models the parts of the KB-1 daemon that keep order, ownership or identity across many steps, and
proves what they promise.

- **Document streams** (`DocumentStreamCodec`, `StreamMux`, `StreamSystem`, `StreamOutcomes`): messages cut into
  frames behind a byte window, acknowledged, reassembled and written to a loopback that may not be open yet. Two
  ends are joined by FIFO channels and run under every interleaving.
- **Document sessions** (`SessionProtocol`, `SessionSafety`, `SessionMutations`, `SessionStragglers`,
  `SessionGuarantees`, `SessionOwnership`, `SessionWaiting`, `SessionProgress`, `SessionDeadlocks`,
  `SessionBooks`, `SessionQueue`, `SessionEffects`, `StableOpens`, `SessionManager`): path reservations, the
  serial queue of structure mutations, reference counts, idle closes and stable-open barriers. One step is the
  code between two awaits.
- **Saving** (`Persistence`, `SaveLedger`, `SaveTurns`, `DocumentSession`): the persist loop, the session's
  check of its file, `flush`, and direct and deferred save acknowledgements.
- **Note history** (`NoteHistory`, `NoteIdentity`, `NoteVersions`, `PendingHistory`, `CommitTrailers`,
  `CommitMessages`, `CommitFields`, `EscapedJson`): the traversal of the commit log across moves against the
  identity of notes, coalescing and paging, and the commit messages as text.
- **Snapshots** (`SnapshotPaths`, `SnapshotNames`, `AsciiNames`, `SnapshotRestore`, `SnapshotAuthority`,
  `SnapshotRoundTrip`): portable names and the way back.
- **Anchored splices** (`Splice`, `SpliceOutcomes`): matching on normalised text, editing raw text, and
  prepending behind frontmatter.
- **HTTP over the tunnel** (`HttpRequests`, `HttpResponses`): reassembly, frame sizes and acknowledged chunks.
- **Folder metadata** (`FolderMetadata`), **paths** (`VaultPaths`, `FilePaths`) and the **MCP endpoint's
  shutdown** (`McpEndpoint`, `McpBooks`).

Every module holds specification functions; where the program changes things in place, a class or a method with
loops is proved to compute them. The main results are about all runs or all inputs. What a run has done is read
from its steps, apart from the state, and compared with it. Five of the rules do not hold without a condition,
and there the exact condition is proved together with an input that breaks the rule:

- A folder move whose note lands on an identical copy that a deleted note left in the git index is not found in
  that note's history, which then continues with the deleted note's (`NoteIdentity.UnseenIffStale`,
  `FolderMoveOntoStaleCopy`).
- A trailer whose text contains U+2028 or U+2029 is not read back, and a message that shows U+001E not at all
  (`CommitMessages.MessageRoundTrip`, `SomePathsAreNotReadBack`).
- A raw splice is not the normalised splice if a CR at the end of the kept prefix comes to stand before an LF
  (`Splice.RawSpliceMeansNormalizedSplice`, `SpliceCanJoinLineEndings`).
- Edits are dropped from the document when a read takes the session's own write for a change from outside: after
  a state snapshot failed, or when the check of the file compares what it read before the write
  (`Persistence.RunsKeepEditsIffLossless`, `AcknowledgedEditIsLost`, `StaleCheckDropsEdit`). And a save whose
  loop failed once and then succeeded stays unacknowledged until the next edit (`SavesStuckIff`,
  `SavedButNotAcknowledged`).
- When one completion of a subtree move fails, the mutation settles while other completions still run. From then
  on a move or deletion may take a session from its holder (`SessionOwnership.AlwaysOwnedIff`,
  `SessionGuarantees.StragglerLosesHeldSession`), and a late completion, or an ordinary move after it, may make
  two operations wait for each other for ever (`SessionWaiting.NeverCircularIff`,
  `SessionDeadlocks.StragglerDeadlocks`, `MoveDeadlocks`). A run is called calm if no late completion of it
  disturbs anything; these are exactly the runs that keep the whole bundle of promises
  (`SessionGuarantees.PromisesKeptIffCalm`).

Platform functions are parameters or plain data: hashes and case folding are functions with stated laws, JSON is
an invertible one-line encoding (both sets of laws are shown to be satisfiable), base64 has a known length,
timers are steps that may be taken while they are set. Texts of the splice are sequences of UTF-16 units; other
texts are sequences of characters.

## Model

| member | source | states |
|---|---|---|
| `StreamSystem.StreamsAreExact` | packages/tunnel-client/src/stream-mux.ts:67-136 | in every run of two ends joined by FIFO channels, each loopback has been handed a prefix of what the other side said, and while both ends live, what was written, the backlog, the buffered chunks, the frames in flight and the queued frames together spell exactly what was said |
| `StreamSystem.NeverStalls` | packages/tunnel-client/src/stream-mux.ts:138-179 | when nothing can be delivered any more and both ends live, nothing is queued, unacknowledged or paused, and every message said has reached the other loopback or its backlog |
| `StreamSystem.WindowsHold` | packages/tunnel-client/src/stream-mux.ts:169-179 | in every run the unacknowledged counter is the sum of the outstanding frames, the window is kept, and a loopback is paused exactly while frames wait, with a frame outstanding |
| `StreamSystem.DeliveryShrinksWork` | packages/tunnel-client/src/stream-mux.ts:101-143 | every delivery strictly reduces a measure of queued frames and messages under way |
| `StreamSystem.DeliveriesAreBounded` | packages/tunnel-client/src/stream-mux.ts:101-143 | a run of deliveries alone is no longer than that measure, so it ends |
| `StreamSystem.TornOnlyWithCause` | packages/tunnel-client/src/stream-mux.ts:101-132 | with all messages within the receiver's limit a live end dies only because its loopback hung up or refused a write, or because the backlog of an unopened loopback would pass the window |
| `StreamSystem.MessageInProgress` | packages/tunnel-protocol/src/index.ts:474-490 | what is buffered together with the next frame is part of a message that was said, so the oversize error cannot hit a message within the limit |
| `StreamOutcomes.OpenLoopbackGetsEverything` | packages/tunnel-client/src/stream-mux.ts:67-77 | once a loopback has opened and taken its backlog, its end has no backlog as long as it lives, writes every message that the next frame completes right then, and between two live ends with nothing under way has been handed everything that was said |
| `StreamOutcomes.EndsExactlyIff` | packages/tunnel-client/src/stream-mux.ts:101-132 | in every run a live end ends exactly at a hang-up, a close from the other side, a refused write, a message over the limit or a backlog over the window, announces it unless it was told so, and then says nothing more |
| `StreamOutcomes.EndsTogether` | packages/tunnel-client/src/stream-mux.ts:84-99 | whenever nothing is under way any more both ends live or neither does |
| `StreamOutcomes.SaidIsHandedOver` | packages/tunnel-client/src/stream-mux.ts:78-83 | what a side has said is what its loopback handed over while it lived, read from the steps |
| `StreamOutcomes.WindowIsUsed` | packages/tunnel-protocol/src/index.ts:457-468 | in every run a frame waits only if the next one does not fit the window beside what is unacknowledged |
| `StreamOutcomes.FramesAreFull` | packages/tunnel-protocol/src/index.ts:426-452 | every frame of a message but the last is as long as frames may be |
| `StreamOutcomes.OversizeIsForgotten` | packages/tunnel-protocol/src/index.ts:474-490 | a message that is too long leaves nothing behind in the codec: the next one is taken for itself |
| `DocumentStreamCodec.WindowNeverOverrun` | packages/tunnel-protocol/src/index.ts:457-497 | over any run of enqueue, pull and acknowledge: the counter equals the outstanding sum, never exceeds the larger of window and chunk size, and passes the window only with a single frame outstanding |
| `DocumentStreamCodec.PullTakesPrefix` | packages/tunnel-protocol/src/index.ts:457-468 | pulling sends a prefix of the queue in order and stops only at the window |
| `DocumentStreamCodec.AckKeepsSendInv` | packages/tunnel-protocol/src/index.ts:492-497 | an acknowledgement keeps the counter equal to the outstanding sum; the clamp at zero never fires and unknown or repeated acknowledgements change nothing |
| `DocumentStreamCodec.SplitSpellsMessage` | packages/tunnel-protocol/src/index.ts:426-452 | the frames of a message are decoded back to exactly that message, whatever was decoded before |
| `DocumentStreamCodec.SplitShape` | packages/tunnel-protocol/src/index.ts:426-452 | the frames of a message are numbered consecutively, none exceeds the chunk size, and only the last one is final |
| `DocumentStreamCodec.ConcatBytes` | packages/tunnel-protocol/src/index.ts:387-395 | the copied buffer is the concatenation of the chunks |
| `DocumentStreamCodec.DocumentStreamCodec.Enqueue` | packages/tunnel-protocol/src/index.ts:426-452 | the new state is the old one with the message's frames queued |
| `DocumentStreamCodec.DocumentStreamCodec.PullSendable` | packages/tunnel-protocol/src/index.ts:457-468 | returns and records exactly the frames that the window admits |
| `DocumentStreamCodec.DocumentStreamCodec.Ingest` | packages/tunnel-protocol/src/index.ts:474-490 | returns the whole message at a final frame, buffers otherwise, and fails exactly when the limit would be passed |
| `DocumentStreamCodec.DocumentStreamCodec.OnAck` | packages/tunnel-protocol/src/index.ts:492-497 | frees exactly the bytes of the frame that is acknowledged |
| `DocumentStreamCodec.DocumentStreamCodec.HasPendingOutbound` | packages/tunnel-protocol/src/index.ts:470-472 | tells whether frames are queued |
| `StreamMux.StreamMux.HandleOpen` | packages/tunnel-client/src/stream-mux.ts:50-66 | registers a fresh stream once; a known id changes nothing |
| `StreamMux.StreamMux.LoopbackOpened` | packages/tunnel-client/src/stream-mux.ts:67-77 | writes the backlog in order; a refused write tears the stream down |
| `StreamMux.StreamMux.LoopbackMessage` | packages/tunnel-client/src/stream-mux.ts:78-83 | queues the message and sends what the window admits |
| `StreamMux.StreamMux.LoopbackClosed` | packages/tunnel-client/src/stream-mux.ts:84-92 | forgets the stream and announces the close once |
| `StreamMux.StreamMux.HandleData` | packages/tunnel-client/src/stream-mux.ts:101-132 | acknowledges a frame only once its bytes are held or written, and otherwise tears the stream down |
| `StreamMux.StreamMux.HandleDataAck` | packages/tunnel-client/src/stream-mux.ts:138-143 | applies the acknowledgement and flushes; an unknown stream changes nothing |
| `StreamMux.StreamMux.HandleClose` | packages/tunnel-client/src/stream-mux.ts:145-150 | forgets the stream without answering |
| `StreamMux.StreamMux.TearDown` | packages/tunnel-client/src/stream-mux.ts:181-187 | forgets the stream and announces the close |
| `StreamMux.MuxStream.Flush` | packages/tunnel-client/src/stream-mux.ts:169-179 | sends what the window admits and pauses or resumes the loopback accordingly |
| `SessionGuarantees.PromisesKeptIffCalm` | packages/doc-session/src/manager.ts:203-268 | through any run whatever the manager keeps what it promises (one path for a session, a place for every held one, exact counts, nothing under a path that is being closed or moved to, barriers at their place) if and only if no late completion of a failed subtree move disturbs anything, which is a check on the state it arrives in |
| `SessionGuarantees.LateCompletionKeepsPromisesIff` | packages/doc-session/src/manager.ts:230-268 | one late completion keeps these promises if and only if it evicts no held session, doubles no session, crosses no pick or target of the running mutation, does not intrude on a closing session, and carries no barrier to another path |
| `SessionOwnership.AlwaysOwnedIff` | packages/doc-session/src/manager.ts:203-268 | through any run whatever every session is under at most one path, every held one has a path unless it was deleted, and a close is apart from everybody, if and only if no step of the run takes a session from its holder, which is a check on the state before each step |
| `SessionOwnership.StepOwnedIff` | packages/doc-session/src/manager.ts:203-311 | for every single step: ownership ends exactly at a completed move, in time or late, that takes the place of a held session, leaves its own at a third path or meets a close, and at a deletion from under a held session that it has not picked |
| `SessionOwnership.OwnershipIsSafe` | packages/doc-session/src/manager.ts:93-158 | after every run without such a step a session is under at most one path, counts are the outstanding leases and running operations, a held session keeps its place unless it was deleted, and an idle close never holds a session that is in use |
| `SessionOwnership.CalmRunsDispossessNobody` | packages/doc-session/src/manager.ts:230-268 | where no late completion disturbs anything there is no such step |
| `SessionGuarantees.NothingHandedOutWhileReserved` | packages/doc-session/src/manager.ts:122-158 | in any state a lease or operation is only handed out on a path that no queued or running mutation covers, and is the session of that path |
| `SessionWaiting.NeverCircularIff` | packages/doc-session/src/manager.ts:170-187 | through any run whatever everybody only ever waits for earlier mutations, or is bound to, if and only if no step of the run closes a circle, which is a check on the state before each step |
| `SessionWaiting.StepClosesCircleIff` | packages/doc-session/src/session.ts:256-339 | for every single step: waiting becomes circular exactly when a completed move, in time or late, or a failed close puts a session under the path of an operation queued before the owner of one of its barriers, when an operation gets an eager barrier on a session that is also under another queued path, or when a move or delete opens a session under a barrier |
| `SessionWaiting.NoCircularWaiting` | packages/doc-session/src/manager.ts:170-187 | after every run without such a step a mutation waits only for earlier ones or is bound to, the head for none, and every barrier belongs to a queued mutation |
| `SessionWaiting.CalmRunsCloseNoCircle` | packages/doc-session/src/manager.ts:230-268 | where no late completion disturbs anything there is no such step |
| `SessionDeadlocks.StragglerDeadlocks` | packages/doc-session/src/session.ts:295-339 | a run in which a late completion makes two stable-path operations wait for each other, and nothing that can happen afterwards ends it |
| `SessionDeadlocks.MoveDeadlocks` | packages/doc-session/src/session.ts:295-339 | a run in which the late completion closes no circle but an ordinary move after it does, with the same end |
| `SessionProgress.DeadlockIsForever` | packages/doc-session/src/manager.ts:170-187 | once the head awaits a barrier that is not released, in every continuation it stays suspended and the queue only grows |
| `SessionProgress.HeadCanProceed` | packages/doc-session/src/manager.ts:313-321 | after every run that closes no circle the head of the queue has a next step, and no barrier that it awaits is still pending |
| `SessionProgress.SchedulesEndOrCloseCircle` | packages/doc-session/src/manager.ts:313-321 | after every run that closes no circle, calm or not, no schedule of head steps goes on for ever without closing one, whatever their order and whatever is answered |
| `SessionProgress.EndedScheduleDrains` | packages/doc-session/src/manager.ts:313-321 | such a schedule that leaves the head nothing to do has emptied the queue and released every barrier |
| `SessionGuarantees.AdvancingSettles` | packages/doc-session/src/manager.ts:313-321 | after every calm run every step of the head, with success or failure, brings it closer to settling |
| `SessionGuarantees.QueueDrains` | packages/doc-session/src/manager.ts:313-321 | after every calm run some steps of the queue alone empty it, dropping every reservation and releasing every barrier |
| `SessionGuarantees.EveryScheduleEnds` | packages/doc-session/src/manager.ts:313-321 | after every calm run no infinite schedule of head steps exists, whatever their order and whatever is answered |
| `SessionGuarantees.FinishedScheduleDrains` | packages/doc-session/src/manager.ts:313-321 | after every calm run a schedule of head steps that leaves none to take has emptied the queue |
| `SessionBooks.BooksFollowSteps` | packages/doc-session/src/manager.ts:122-158 | in every run, calm or not, the books are those that the steps make: every lease and operation that is handed out is entered with its session until it is given back, who fails to save is so until it recovers, what a failed folder move left behind is out until it moves or fails, and each session is counted exactly as often |
| `SessionBooks.IdleCloseTakesUnheld` | packages/doc-session/src/manager.ts:541-560 | in every run an idle close only ever takes a session that nobody was handed without giving it back, and whose last save did not fail |
| `SessionBooks.ClosingStaysUnheld` | packages/doc-session/src/manager.ts:541-572 | where no step takes a session from its holder, what an idle close has taken stays unheld |
| `SessionBooks.HandingOutIsEntered` | packages/doc-session/src/manager.ts:122-146 | what is handed out on an unreserved path is entered under the next number with the session that is under the path then, counted once more, without an idle timer |
| `SessionBooks.RefusalChangesNothing` | packages/doc-session/src/manager.ts:416-426 | a caller that meets a reservation changes nothing, but that an operation cancels the idle timer of its path |
| `SessionBooks.LookingUpHoldsNothing` | packages/doc-session/src/manager.ts:93-118 | looking up an unreserved path gives its session, found or new, without an idle timer and without a hold; on a reserved path nothing changes |
| `SessionBooks.OpenedStaysOpen` | packages/doc-session/src/session.ts:247-249 | a session that has been opened is open until it is deleted, in every run |
| `SessionQueue.QueueIsFifo` | packages/doc-session/src/manager.ts:313-321 | in every run the queue is exactly the mutations submitted last, in the order of their submission: nothing is lost, doubled or overtaken, and only the head leaves |
| `SessionQueue.ReservedIffNamed` | packages/doc-session/src/manager.ts:370-403 | in every run a path is reserved exactly if one of the submitted mutations that have not left the queue names its text, as a path or as a folder that it lies in |
| `SessionQueue.SubmissionJoins` | packages/doc-session/src/manager.ts:170-187 | a stable-path operation takes an eager barrier exactly on an unreserved path with a session, and that barrier waits for those already there |
| `SessionEffects.MoveFileMoves` | packages/doc-session/src/manager.ts:203-228 | a file move takes the open session of its source to its target, where it is idle if nobody uses it |
| `SessionEffects.MoveFileIsRefused` | packages/doc-session/src/manager.ts:203-228 | a file move onto another session's path is refused and changes nothing |
| `SessionEffects.MoveSubtreePrepares` | packages/doc-session/src/manager.ts:230-262 | a folder move picks every session below its source |
| `SessionEffects.MoveSubtreeMoves` | packages/doc-session/src/manager.ts:262-268 | in whatever order the completions come, every picked session gets to its place below the target and no other moves |
| `SessionEffects.DeleteFileDeletes` | packages/doc-session/src/manager.ts:270-287 | deleting a file deletes its session and leaves the others |
| `SessionEffects.DeleteSubtreeEmpties` | packages/doc-session/src/manager.ts:289-311 | deleting a folder deletes every session below it, and no other; all else is as before but for the queue |
| `SessionEffects.DeleteSubtreeDeletes` | packages/doc-session/src/manager.ts:289-311 | deleting a folder deletes the sessions of the listed paths one after the other, and no other |
| `SessionEffects.IdleCloseCloses` | packages/doc-session/src/manager.ts:541-572 | an idle close takes an unused session out of the map; one that is in use or cannot be saved stays |
| `SessionEffects.StablePathOperates` | packages/doc-session/src/manager.ts:170-187 | an operation runs under its own barrier and releases it at its end |
| `SessionEffects.LastHolderSchedules` | packages/doc-session/src/manager.ts:122-146 | whoever lets go of a session last starts the idle timer of the path it has by then, or drops it if it was never open |
| `StableOpens.ToldStaysTrue` | packages/doc-session/src/session.ts:256-339 | in every run of opens and stable-path operations on one session, at most one operation has begun, and what it was told of the session being open stays true until it ends, with no load under way |
| `StableOpens.SomethingGoesOn` | packages/doc-session/src/session.ts:256-339 | nobody waits for ever: something can go on whenever something is left to do, unless the oldest operation has only been reserved |
| `StableOpens.StepsLead` | packages/doc-session/src/session.ts:256-339 | an open that goes on leaves the session open or loading, and an operation waits for the load that it finds |
| `SessionGuarantees.StragglerLosesHeldSession` | packages/doc-session/src/manager.ts:230-268 | where ownership ends: a subtree move of which one completion fails settles while another completion still runs, and that one then displaces a session handed out meanwhile |
| `SessionStragglers.StepKeepsInv` | packages/doc-session/src/manager.ts:203-321 | every step, late completions that disturb nothing included, keeps ownership, reservations, barriers and the targets of the running mutation consistent |
| `SessionStragglers.LateKeepsInv` | packages/doc-session/src/manager.ts:230-268 | a late completion that disturbs nothing keeps this consistency |
| `SessionMutations.BeginStablePathKeepsInv` | packages/doc-session/src/session.ts:295-339 | starting a stable-path operation, with an eager or a late barrier, keeps the barriers owned and ordered |
| `SessionMutations.MoveSubtreeStatKeepsInv` | packages/doc-session/src/manager.ts:230-268 | a subtree move captures its sessions so that none is lost and no destination is taken |
| `SessionMutations.MoveCompletedKeepsInv` | packages/doc-session/src/session.ts:542-592 | a completed move rekeys its session without overwriting another and without losing a held one |
| `SessionMutations.BeginIdleCloseKeepsInv` | packages/doc-session/src/manager.ts:541-572 | an idle close takes a session only if nobody holds it |
| `SessionMutations.AfterCloseKeepsInv` | packages/doc-session/src/manager.ts:541-572 | a session that could not be closed returns to its path, which nobody took meanwhile |
| `SessionSafety.SubmitStablePathKeepsInv` | packages/doc-session/src/manager.ts:170-187 | an eager barrier is installed only when no earlier reservation covers the path, which keeps waiting acyclic |
| `SessionSafety.ReleaseKeepsInv` | packages/doc-session/src/manager.ts:122-146 | releasing a lease keeps the counts exact |
| `SessionSafety.EndOperationKeepsInv` | packages/doc-session/src/manager.ts:460-491 | ending an operation keeps the counts exact |
| `SessionManager.DocumentSessionManager.HasPathReservation` | packages/doc-session/src/manager.ts:370-403 | finds a reservation exactly when a queued mutation covers the path |
| `SessionManager.DocumentSessionManager.IsSessionInUse` | packages/doc-session/src/manager.ts:456-458 | true exactly when clients or operations are counted |
| `SessionManager.DocumentSessionManager.FindSessionPath` | packages/doc-session/src/manager.ts:493-498 | the path of the session, or none if it has none |
| `SessionManager.DocumentSessionManager.RekeySession` | packages/doc-session/src/manager.ts:500-508 | moves the session to its new path and restarts the idle close if it is unused |
| `SessionManager.DocumentSessionManager.CancelIdleClose` | packages/doc-session/src/manager.ts:510-515 | removes the timer of the path |
| `SessionManager.DocumentSessionManager.ScheduleIdleClose` | packages/doc-session/src/manager.ts:517-539 | schedules a close only for an unused session, and drops one that was never opened |
| `SessionManager.DocumentSessionManager.GetSession` | packages/doc-session/src/manager.ts:93-120 | returns the session of the path, created if there is none, and cancels its timer |
| `SessionManager.DocumentSessionManager.TryAttachClient` | packages/doc-session/src/manager.ts:122-146 | hands out a lease exactly when the path is not reserved |
| `SessionManager.DocumentSessionManager.ReleaseClient` | packages/doc-session/src/manager.ts:122-146 | gives a lease back once, under whatever path the session has by then |
| `SessionManager.DocumentSessionManager.TryBeginOperation` | packages/doc-session/src/manager.ts:460-485 | starts an operation exactly when the path is not reserved |
| `SessionManager.DocumentSessionManager.EndOperation` | packages/doc-session/src/manager.ts:460-491 | ends an operation and may schedule the idle close |
| `SessionManager.DocumentSessionManager.ReserveStablePath` | packages/doc-session/src/manager.ts:170-187 | queues the operation and installs its barrier under the rule for eager barriers |
| `SessionManager.DocumentSessionManager.TimerFires` | packages/doc-session/src/manager.ts:517-539 | a fired timer queues one idle close |
| `SessionManager.DocumentSessionManager.BeginIdleClose` | packages/doc-session/src/manager.ts:541-560 | takes the session out of the map, or settles if it is in use or failing |
| `SessionManager.DocumentSessionManager.FinishIdleClose` | packages/doc-session/src/manager.ts:560-572 | puts a session that failed to close back under its path |
| `SessionManager.DocumentSessionManager.SettleHead` | packages/doc-session/src/manager.ts:313-321 | drops the reservation and barrier of the head and lets the next mutation start |
| `SessionManager.DocumentSessionManager.ContinueMove` | packages/doc-session/src/manager.ts:203-228 | after the check of the disk: refused targets, nothing to move, or waiting for the opens |
| `SessionManager.DocumentSessionManager.CompleteMove` | packages/doc-session/src/manager.ts:203-268 | rekeys one moved session and settles after the last |
| `Persistence.NothingIsLost` | packages/doc-session/src/session.ts:648-739 | in every run without a lossy read, by the loop or by the session's check of its file, the file is an earlier state of the document, and the document itself when nothing runs and nothing failed; flushes return and saves are acknowledged, at once or later, only when every edit made before is in the file |
| `SaveLedger.EveryCallIsAccounted` | packages/doc-session/src/session.ts:648-679 | in every run each save and each flush that the steps issue waits, or has returned and is acknowledged with its document, or failed with its loop and is put off, acknowledged later or without a client; and nothing else is answered |
| `SaveLedger.IdleSavesAreAcknowledged` | packages/doc-session/src/websocket.ts:209-249 | after any run without lossy reads, with nothing running and nothing failed, every save is acknowledged with its document unless it was put off for good or its client went away, and every flush has returned or failed with its loop |
| `SaveLedger.FailureIsRetriedOnce` | packages/doc-session/src/session.ts:472-479 | when a loop ends well although an earlier failure stands, every call asks for one more try, once, and the others return |
| `SaveTurns.TurnWritesWhatItTook` | packages/doc-session/src/session.ts:689-721 | whatever is edited meanwhile, a turn that finds the file as it was last written writes the document that it took when it began; what came later is left to the next turn |
| `SaveTurns.TurnTakesDocument` | packages/doc-session/src/session.ts:648-690 | every turn begins with the document of that moment |
| `SaveTurns.ChecksFollowSteps` | packages/doc-session/src/session.ts:885-911 | in every run a check compares what it read itself when it began, and ends with that |
| `SaveTurns.ChangeIsTakenOnce` | packages/doc-session/src/session.ts:913-946 | a change from outside that the check took over is known to the next turn, which writes what has been edited on top of it |
| `Persistence.EditsGoExactlyAtLossyReads` | packages/doc-session/src/session.ts:681-709 | a step drops edits exactly if it takes over a file that is not what was recorded as written while the document has moved on |
| `Persistence.RunsKeepEditsIffLossless` | packages/doc-session/src/session.ts:648-739 | a run keeps every edit if and only if it has no such read |
| `Persistence.LossyReadsHaveTwoCauses` | packages/doc-session/src/session.ts:894-911 | such a read needs a state snapshot that failed after its file was written, or a check that compares what it read before a write |
| `Persistence.StaleCheckDropsEdit` | packages/doc-session/src/session.ts:894-911 | a run without any failure in which a check of the file undoes an edit that is already written |
| `Persistence.AcknowledgedEditIsLost` | packages/doc-session/src/session.ts:711-739 | a run in which a failed state snapshot makes the session drop an edit whose save is acknowledged afterwards |
| `Persistence.SavedButNotAcknowledged` | packages/doc-session/src/websocket.ts:209-249 | a run in which a persist fails and a later turn of the same loop succeeds: the save is on disk, nothing is pending, and it is not acknowledged |
| `Persistence.SavesStuckIff` | packages/doc-session/src/websocket.ts:310-333 | after any run without lossy reads a save on disk is unacknowledged with nothing running and nothing failed if and only if the loop it waited for failed in one turn and wrote everything in its last, and nobody has edited or gone away since |
| `Persistence.StuckStepIff` | packages/doc-session/src/websocket.ts:209-249 | the same for every single step: what makes a save stuck, and what frees it |
| `DocumentSession.OneFileDocumentSession.Take` | packages/doc-session/src/session.ts:634-739 | every step of the protocol is done by the session's methods, so that its runs are the session's |
| `NoteIdentity.HistoryFollowsIdentity` | packages/vault-core/src/file-history.ts:585-643 | after any run of creates, appends, edits, file moves, folder moves and deletes, reading the history of a living note returns exactly its own versions, newest first, with the path of its content in each, if and only if the note was never misread |
| `NoteVersions.VersionsFollowSteps` | packages/vault-core/src/file-history.ts:310-396 | in every run each living note has exactly one version for every create, append, edit and move that it went through, newest first, with its path and content then, and where it is not misread reading its history returns as many |
| `NoteVersions.IndexHoldsNotes` | packages/vault-core/src/file-history.ts:484-512 | in every run the index holds each living note with the content of its newest version, and nothing else but what deletions and folder moves left there: a note that moves leaves nothing behind |
| `NoteVersions.CommitIsCalled` | packages/vault-core/src/file-history.ts:1051-1058 | every step that says something about a note makes one commit with its kind and paths: a birth by an append is an update, and a file that moves within its folder is renamed |
| `NoteIdentity.PlainRunsAreReadExactly` | packages/vault-core/src/file-history.ts:585-643 | no note is misread if appends create notes only where there is no history, folder moves take notes only from addressable paths, and none lands on an identical copy left in the index |
| `NoteIdentity.UnseenIffStale` | packages/vault-core/src/file-history.ts:351-396 | a folder move is missing from the log of a moved note exactly when the index already held that content at its new path |
| `NoteIdentity.FolderMoveOntoStaleCopy` | packages/vault-core/src/file-history.ts:351-396 | a run in which a note moved with its folder is given the history of a deleted note |
| `NoteIdentity.GrowsAccounted` | packages/vault-core/src/file-history.ts:585-643 | a commit that is seen and leads to where the note was adds exactly one version |
| `NoteIdentity.MissedIsMisread` | packages/vault-core/src/file-history.ts:585-643 | a folder move that the log does not show is missed for ever |
| `NoteIdentity.StoppedIsMisread` | packages/vault-core/src/file-history.ts:718-751 | a traversal that stops at an unaddressable source loses every older version |
| `NoteIdentity.BirthIsAccounted` | packages/vault-core/src/file-history.ts:585-643 | a create ends the traversal; an append-born note is read back exactly when no earlier commit touches its path as one of its own |
| `NoteHistory.NothingIsReadIff` | packages/vault-core/src/file-history.ts:585-643 | a path is read as having no version if and only if no commit of the log touches it as one of its own |
| `NoteIdentity.MovedFolderKeepsInv` | packages/vault-core/src/file-history.ts:351-396 | a folder move carries every note below it and leaves the others' histories alone |
| `NoteIdentity.MovedFileKeepsInv` | packages/vault-core/src/file-history.ts:310-341 | a file move or rename continues the note's history at its old path |
| `NoteHistory.ReadCommittedHistory` | packages/vault-core/src/file-history.ts:585-643 | the loop over segments ends, meets no commit twice, and returns the traversal |
| `NoteHistory.ScopeReadsText` | packages/vault-core/src/file-history.ts:718-751 | the scope decision on path texts is the one on segment lists |
| `NoteHistory.SegmentListsTouched` | packages/vault-core/src/file-history.ts:645-677 | a log segment lists exactly the commits that touch the path or its marker, newest first |
| `PendingHistory.PendingStandsForRecords` | packages/vault-core/src/file-history.ts:170-203 | there is at most one pending entry for a note and bucket, exactly if something was recorded since the last flush, with the last content and time, a create kept, and every contributor |
| `PendingHistory.FlushCommitsRecords` | packages/vault-core/src/file-history.ts:398-422 | a flush commits exactly one entry for each selected note and bucket with records, and leaves the rest |
| `PendingHistory.FirstSeenIsDistinct` | packages/vault-core/src/file-history.ts:957-963 | contributors are kept once each, in the order of their first record |
| `PendingHistory.FileHistory.RecordFileHistory` | packages/vault-core/src/file-history.ts:170-203 | coalesces into the entry of the bucket or starts one |
| `PendingHistory.FileHistory.FlushFileHistory` | packages/vault-core/src/file-history.ts:398-422 | commits every selected entry once, least recently updated first, and removes it |
| `PendingHistory.BucketsTile` | packages/vault-core/src/file-history.ts:1064-1069 | buckets start at multiples of the window, and two instants share one exactly if no such multiple lies between them |
| `PendingHistory.CursorContinues` | packages/vault-core/src/file-history.ts:1071-1089 | the cursor of a row leaves exactly the rows after it |
| `PendingHistory.PageHolds` | packages/vault-core/src/file-history.ts:224-233 | a page is the first of the rows that the cursor leaves, as many as asked for up to 200, or 50, and says that there is more exactly if there is |
| `PendingHistory.CursorLeaves` | packages/vault-core/src/file-history.ts:1071-1089 | a cursor leaves exactly the older rows, and those of its time with a smaller id |
| `PendingHistory.FollowPages` | packages/vault-core/src/file-history.ts:206-233 | following the cursors gives every row once, in order, and stops |
| `PendingHistory.CursorWithoutId` | packages/vault-core/src/file-history.ts:1071-1089 | a cursor without an id continues exactly if no later row has the same time |
| `CommitMessages.MessageRoundTrip` | packages/vault-core/src/file-history.ts:541-583 | the text of a message, cleaned by git, cut out of the log, trimmed and split, is read back: all other fields exactly when no shown path or label holds U+001E, and paths and contributors exactly when, besides, they contain neither U+2028 nor U+2029; line breaks in paths do no harm |
| `CommitMessages.MessageIsRead` | packages/vault-core/src/file-history.ts:645-677 | what is read from the log for a message is its trailers, or nothing if it is cut short |
| `CommitFields.FieldsAreRead` | packages/vault-core/src/file-history.ts:541-583 | every field of an entry is read back under its own key, and a hash format that is not named is not made up |
| `CommitFields.FirstCounts` | packages/vault-core/src/file-history.ts:776-803 | of several trailers with a key the first one counts |
| `CommitFields.PathIsTold` | packages/vault-core/src/file-history.ts:753-766 | in any message, whoever wrote it, the JSON path counts if there is one, even unreadable, and only without it the plain path that messages used to have |
| `CommitFields.MessageSays` | packages/vault-core/src/file-history.ts:545-558 | what a message shows to its human readers: operation, paths, bucket and contributors |
| `CommitFields.LabelsByExample` | packages/vault-core/src/file-history.ts:975-978 | a contributor is shown by name, id or kind, with the client behind |
| `CommitMessages.SomePathsAreNotReadBack` | packages/vault-core/src/file-history.ts:753-766 | the failing inputs: a path with U+2028, of which no trailer is read, and one with U+001E, where nothing is |
| `CommitMessages.ScopeIsReadFromMessage` | packages/vault-core/src/file-history.ts:718-751 | from the text of a commit's message the traversal takes the scope that the commit has, wherever no path is hidden |
| `CommitMessages.StoredLines` | packages/vault-core/src/file-history.ts:514-527 | git's cleaning drops and joins no line of a printed message |
| `CommitTrailers.TrailersAreRead` | packages/vault-core/src/file-history.ts:776-809 | what the printed trailers are read back as, field by field |
| `CommitTrailers.ValuesOfTrailers` | packages/vault-core/src/file-history.ts:776-809 | the continuation rule for legacy paths never swallows a trailer |
| `CommitTrailers.CommitValues` | packages/vault-core/src/file-history.ts:776-809 | collects the values of every key in the order of the lines |
| `CommitTrailers.PathIsRead` | packages/vault-core/src/file-history.ts:753-766 | a path is found by its JSON trailer exactly if no separator hides it; the fallback then finds another path or none |
| `CommitTrailers.GotContributors` | packages/vault-core/src/file-history.ts:693-695 | what is read back of the contributors is exactly those whose JSON holds no separator, in order |
| `CommitTrailers.LinesAreSingle` | packages/vault-core/src/file-history.ts:541-583 | no printed line holds a line break, whatever the paths are |
| `CommitTrailers.PreambleHasNoTrailers` | packages/vault-core/src/file-history.ts:541-560 | no line before the trailers is taken for one |
| `EscapedJson.PrinterIsLawful` | packages/vault-core/src/file-history.ts:559-576 | what is asked of the JSON of a trailer can be met: an escaping printer meets it |
| `SnapshotPaths.PortableSnapshotPaths` | apps/daemon/src/snapshot-paths.ts:29-73 | succeeds exactly for safe, distinct paths without colliding names, with a domain of exactly all non-empty prefixes |
| `SnapshotPaths.Visit` | apps/daemon/src/snapshot-paths.ts:46-70 | maps every path below a directory, and fails exactly at a collision |
| `SnapshotPaths.CollectChildren` | apps/daemon/src/snapshot-paths.ts:29-45 | the names below every directory, for safe and distinct paths only |
| `SnapshotPaths.CountFolded` | apps/daemon/src/snapshot-paths.ts:48-53 | a folded name counts more than once exactly if another sibling shares it |
| `SnapshotPaths.ImageOfPrefix` | apps/daemon/src/snapshot-paths.ts:66-69 | the image of a path continues the image of its prefixes |
| `SnapshotPaths.ImagesStayDistinct` | apps/daemon/src/snapshot-paths.ts:46-70 | different originals stay different after folding every segment |
| `SnapshotPaths.OutputIsPortable` | apps/daemon/src/snapshot-paths.ts:17-21 | every output segment is portable |
| `SnapshotPaths.OutputIsSafe` | apps/daemon/src/snapshot-paths.ts:8-15 | every output segment of a safe one is a safe ZIP name |
| `SnapshotPaths.PrefixMarksGenerated` | apps/daemon/src/snapshot-paths.ts:54-62 | an output segment has the reserved prefix exactly if it was generated, and is the original otherwise |
| `SnapshotNames.SegmentIsKeptOrReplaced` | apps/daemon/src/snapshot-paths.ts:54-62 | a segment is kept exactly if it is portable, folds unlike all its siblings and does not start with the prefix when lower-cased; otherwise it becomes the prefix, the hash of the original and its short extension |
| `SnapshotNames.PathIsKept` | apps/daemon/src/snapshot-paths.ts:54-69 | a path of such segments is mapped to itself |
| `SnapshotNames.FineTreeIsListedAsIs` | apps/daemon/src/snapshot-archive.ts:288-303 | a tree of such paths is archived under its own names, and its manifest notes no original |
| `SnapshotNames.OriginalIsNotedIff` | apps/daemon/src/snapshot-archive.ts:296-302 | an original is noted exactly for the paths that are replaced |
| `SnapshotNames.DevicesAreNotPortable` | apps/daemon/src/snapshot-paths.ts:17-21 | a device name is not portable, whatever extension it has |
| `SnapshotNames.OthersArePortable` | apps/daemon/src/snapshot-paths.ts:17-21 | any other name is portable exactly if it does not end in a dot or blank and holds no refused character |
| `SnapshotNames.ReservedByExample` | apps/daemon/src/snapshot-paths.ts:5-6 | which names are device names, by example |
| `SnapshotNames.ExtensionsByExample` | apps/daemon/src/snapshot-paths.ts:58-60 | which extensions a replaced name keeps, by example |
| `SnapshotPaths.CollisionIsUnreachable` | apps/daemon/src/snapshot-paths.ts:63-65 | the collision error cannot occur among siblings whose hashes differ |
| `AsciiNames.AsciiPlatformIsLawful` | apps/daemon/src/snapshot-paths.ts:75-77 | what is asked of hashing and case folding can be met: lower-casing ASCII letters does |
| `SnapshotRoundTrip.SnapshotAndRestore` | apps/daemon/src/snapshot-restore.ts:43-155 | planning a snapshot of a tree under the two roots and restoring it succeeds and gives back the same files, contents and directories |
| `SnapshotRoundTrip.RestoreUndoesSnapshot` | apps/daemon/src/snapshot-restore.ts:83-142 | what is restored is exactly the source's files with their contents, and its directories with whatever leads to them |
| `SnapshotRoundTrip.PlannedIsRestorable` | apps/daemon/src/snapshot-restore.ts:55-111 | every planned archive passes every check of the restore |
| `SnapshotRoundTrip.PlanningSucceeds` | apps/daemon/src/snapshot-archive.ts:288-303 | a safe tree can be planned unless siblings have the same hash |
| `SnapshotRoundTrip.SameDirectories` | apps/daemon/src/snapshot-restore.ts:106-120 | with all parents listed, exactly the listed directories are restored |
| `SnapshotRestore.RestoreSnapshotArchive` | apps/daemon/src/snapshot-restore.ts:43-155 | succeeds exactly for a complete and consistent archive, and creates exactly what its manifest lists under the original names |
| `SnapshotAuthority.RestoreStaysInRoots` | apps/daemon/src/snapshot-restore.ts:83-118 | whatever an accepted archive says, a restore only writes below `vaults` and `.trash`, and no segment of a path is empty, a dot name or holds a separator |
| `SnapshotAuthority.ManifestDecidesRestore` | apps/daemon/src/snapshot-restore.ts:118-139 | two archives accepted under one manifest are restored to the same files with the same contents, unless two of their contents have the same hash |
| `SnapshotAuthority.AcceptedIsComplete` | apps/daemon/src/snapshot-restore.ts:63-105 | an accepted archive holds exactly the entries of the listed items and its own, each once, with the listed sizes and hashes, the totals and the completion mark |
| `SnapshotAuthority.SafePathIff` | apps/daemon/src/snapshot-paths.ts:9-15 | a path is safe exactly if its text holds no backslash or NUL and no segment of the text is empty or a dot name |
| `SnapshotRestore.MakeDirectories` | apps/daemon/src/snapshot-restore.ts:114-120 | every directory is created once and after its parent |
| `SnapshotRestore.WriteFiles` | apps/daemon/src/snapshot-restore.ts:121-142 | no file is created twice or outside a directory, and a wrong hash fails the restore |
| `SnapshotRestore.CheckItems` | apps/daemon/src/snapshot-restore.ts:83-101 | passes exactly if every item is safe, under a root, present with its size, and none shares a restore path or entry |
| `SnapshotRestore.ItemsAreDistinct` | apps/daemon/src/snapshot-restore.ts:83-101 | the incremental check is the pairwise one |
| `SnapshotRestore.IndexEntries` | apps/daemon/src/snapshot-restore.ts:55-64 | indexes the entries, or fails exactly at an unsafe or repeated name |
| `SnapshotRestore.CollectDirectories` | apps/daemon/src/snapshot-restore.ts:106-109 | collects the listed directories and all parents |
| `SnapshotRestore.AddParents` | apps/daemon/src/snapshot-restore.ts:168-171 | adds exactly the proper non-empty prefixes of a path |
| `SnapshotRestore.PlanSnapshot` | apps/daemon/src/snapshot-archive.ts:288-303 | succeeds exactly if the names can be mapped, and lists every path under its portable name, with the original where they differ |
| `Splice.RawSpliceMeansNormalizedSplice` | packages/vault-core/src/splice.ts:25-87 | an accepted raw edit keeps the raw text around the match, which normalises to the text around it, and the result normalises to the normalised edit if and only if no CR that ended the kept prefix meets an LF |
| `Splice.SpliceCanJoinLineEndings` | packages/vault-core/src/splice.ts:25-87 | the failing input: taking X out of CR X LF is accepted and leaves one line ending where the normalised edit leaves two |
| `Splice.PickIsTheMatch` | packages/vault-core/src/splice.ts:46-66 | which match is edited, and exactly when it is not found or ambiguous |
| `SpliceOutcomes.PickedOccurrence` | packages/vault-core/src/splice.ts:46-66 | the edited occurrence, counted: the only one, or with several the one that has exactly occurrence - 1 others before it; several without a choice are refused with their number, and a choice outside it is not found |
| `SpliceOutcomes.SpliceAnswers` | packages/vault-core/src/splice.ts:25-87 | what an edit answers: refused exactly for the UTF-8 sizes of old and new text first and of the result last, else for the pick, else accepted |
| `SpliceOutcomes.ByteLengthIsOfUtf8` | packages/vault-core/src/splice.ts:127-129 | the byte length is that of the UTF-8 encoding |
| `SpliceOutcomes.PrependGoes` | packages/vault-core/src/splice.ts:93-102 | without frontmatter the addition comes first; behind frontmatter it is kept apart from a closing line without a line end |
| `SpliceOutcomes.FrontmatterEnds` | packages/vault-core/src/splice.ts:104-121 | with LF or CR LF line ends frontmatter ends behind the first delimiter line after the opening one, and without one there is none |
| `SpliceOutcomes.OpeningIff` | packages/vault-core/src/splice.ts:104-108 | only three dashes and a line end at the very start open frontmatter |
| `SpliceOutcomes.DelimiterIff` | packages/vault-core/src/splice.ts:110-117 | a delimiter line is three dashes with nothing but white space around them |
| `Splice.MatchesExact` | packages/vault-core/src/splice.ts:131-142 | the matches are exactly all occurrences, overlapping ones included, in order |
| `Splice.FindAllSubstringOffsets` | packages/vault-core/src/splice.ts:131-142 | the loop returns those matches, and none for an empty needle |
| `Splice.NormalizeWithRawOffsets` | packages/vault-core/src/splice.ts:144-164 | one pass returns the two-pass normal form and the raw offset of every unit |
| `Splice.OnePassIsTwoPass` | packages/vault-core/src/splice.ts:123-125 | replacing CRLF and then CR is the single pass |
| `Splice.OffsetsIncrease` | packages/vault-core/src/splice.ts:144-164 | the offsets strictly increase |
| `Splice.OffsetsKeepCrLf` | packages/vault-core/src/splice.ts:144-164 | no offset splits a CRLF |
| `Splice.CutNormalizes` | packages/vault-core/src/splice.ts:144-164 | cutting the raw text at an offset cuts the normal form at its index |
| `Splice.NormalizeConcat` | packages/vault-core/src/splice.ts:123-125 | normalisation distributes over concatenation exactly away from a CR-LF seam |
| `Splice.NormalizeIdempotent` | packages/vault-core/src/splice.ts:123-125 | normalising twice is normalising once |
| `Splice.NextLineEnd` | packages/vault-core/src/splice.ts:166-182 | finds the end of a line and the start of the next |
| `Splice.FrontmatterInsertionPoint` | packages/vault-core/src/splice.ts:104-121 | finds the position after the closing delimiter of frontmatter, if any |
| `Splice.AppendMeansNormalizedAppend` | packages/vault-core/src/splice.ts:89-91 | appending means appending to the normalised note exactly if no LF follows a CR at its end |
| `Splice.PrependKeepsFrontmatter` | packages/vault-core/src/splice.ts:93-102 | behind frontmatter closed by LF, prepending keeps the frontmatter and the body verbatim and does not move the insertion point |
| `Splice.PrependComposes` | packages/vault-core/src/splice.ts:93-102 | prepending twice is prepending the joined additions, unless a CR and an LF meet between them |
| `HttpRequests.ReassemblyIsExact` | packages/tunnel-client/src/index.ts:1190-1245 | whatever comes in between and in whatever order, `end` returns a request exactly when the first copies are numbered 0 to n-1 and sum to the announced total within the limit, and the body is their concatenation |
| `HttpRequests.OrderDoesNotMatter` | packages/tunnel-client/src/index.ts:1190-1245 | permuting and repeating the chunks does not change the result |
| `HttpRequests.StorageIsBounded` | packages/tunnel-client/src/index.ts:1201-1216 | the stored bytes are those of the chunks and never exceed the announced total nor the limit |
| `HttpRequests.ChunkedHttpRequestAssembler.Begin` | packages/tunnel-client/src/index.ts:1193-1199 | replaces any draft of the id by an empty one |
| `HttpRequests.ChunkedHttpRequestAssembler.Chunk` | packages/tunnel-client/src/index.ts:1201-1216 | keeps the first copy of a chunk, or drops the draft that would pass a limit |
| `HttpRequests.ChunkedHttpRequestAssembler.End` | packages/tunnel-client/src/index.ts:1218-1241 | removes the draft and returns its chunks in order, if complete |
| `HttpRequests.ChunkedHttpRequestAssembler.Cancel` | packages/tunnel-client/src/index.ts:1242-1244 | removes the draft |
| `HttpResponses.SplitBody` | packages/tunnel-client/src/index.ts:1096-1123 | the chunks rebuild the body, none is empty, each fits a frame with its header, and it fails exactly when a chunk without room is reached before the end |
| `HttpResponses.SendHttpResponse` | packages/tunnel-client/src/index.ts:1065-1130 | one message if it fits, else a start with the size, the chunks in sequence and an end with their number |
| `HttpResponses.ChunkFits` | packages/tunnel-client/src/index.ts:1103-1108 | a chunk within its room makes a frame within the limit |
| `HttpResponses.RoomIsUsed` | packages/tunnel-client/src/index.ts:1103-1108 | one byte more would not fit |
| `HttpResponses.RoomAtTheEnd` | packages/tunnel-client/src/index.ts:1096-1108 | room for the last chunk is room for all, since the header grows with the sequence number |
| `HttpResponses.ChunksStopAndWait` | packages/tunnel-client/src/index.ts:1132-1165 | in every run the chunks of a response are sent in order, each only after the one before it was acknowledged, with at most one outstanding; the error of a second wait cannot occur |
| `HttpResponses.ResponseFinishes` | packages/tunnel-client/src/index.ts:1132-1165 | if every chunk is acknowledged the response gets to its end with all of them sent in order |
| `HttpResponses.AwaitedAckGoesOn` | packages/tunnel-client/src/index.ts:1034-1057 | the awaited acknowledgement lets the response go on, any other fails it, and one that nobody awaits changes nothing |
| `HttpResponses.ReadyResponseGoesOn` | packages/tunnel-client/src/index.ts:1132-1165 | a ready response sends its next chunk and waits, or is finished when there is none |
| `HttpResponses.AckKeepsDiscipline` | packages/tunnel-client/src/index.ts:1034-1057 | only the acknowledgement of the outstanding chunk lets a response go on |
| `FolderMetadata.MoveFolderMetadataSubtree` | packages/vault-core/src/vault-ops.ts:457-484 | keys at or below the source are rewritten, those at or below the target are dropped, all others stay, whatever the order of the entries |
| `FolderMetadata.MovesAreInjective` | packages/vault-core/src/vault-ops.ts:457-484 | no two keys end up as one |
| `FolderMetadata.MovingBackRestores` | packages/vault-core/src/vault-ops.ts:457-484 | moving back restores the metadata exactly when the target had none |
| `FolderMetadata.RemovalFollowsText` | packages/vault-core/src/vault-ops.ts:443-455 | removing a folder drops exactly the entries whose path texts are found at or below it |
| `FolderMetadata.RemovingTheMoved` | packages/vault-core/src/vault-ops.ts:443-484 | removing the target after a move is removing the source and the target |
| `McpEndpoint.TearDownIsQuiet` | packages/local-mcp/src/server.ts:182-205 | when sessions are torn down no operation runs or can start, every admitted request but event streams has finished, and no session can appear again |
| `McpEndpoint.BusySessionsAreKept` | packages/local-mcp/src/server.ts:411-431 | a session's count is the number of its unfinished requests, and the idle timer never closes it while there are any |
| `McpEndpoint.ConsumedKeepsSessions` | packages/local-mcp/src/server.ts:411-431 | a finished request was counted, so the clamp at zero never fires |
| `McpEndpoint.ShutdownCompletes` | packages/local-mcp/src/server.ts:182-205 | once requests and operations are over the shutdown runs to its end |
| `McpBooks.BooksFollowSteps` | packages/local-mcp/src/server.ts:81-205 | in every run exactly the requests admitted before the close and not yet consumed are tracked, and exactly the operations let start and not settled; and operations may start as long as such a request is under way |
| `McpBooks.UnusedSessionsAreClosed` | packages/local-mcp/src/server.ts:411-431 | in every run an open session that no unfinished request uses has its idle timer set, and is gone when it fires |
| `McpBooks.TearDownStopsTimers` | packages/local-mcp/src/server.ts:190-204 | the step that tears the endpoint down clears both timers of every open session, and in no continuation does one of them do anything |
| `McpBooks.AcknowledgedSessionsStay` | packages/local-mcp/src/server.ts:328-340 | once acknowledged, a session is never closed by its initialization timer |
| `McpBooks.NewSessionsAreTimed` | packages/local-mcp/src/server.ts:296-306 | a new session counts its first request, and its initialization timer closes it if nobody acknowledges it |
| `McpBooks.RequestsStopTheTimer` | packages/local-mcp/src/server.ts:310-345 | a request for a known session is counted for it and stops its idle timer |
| `McpEndpoint.LocalMcpEndpoint.Take` | packages/local-mcp/src/server.ts:81-205 | every step of the protocol is done by the endpoint's methods, so that its runs are the endpoint's |
| `VaultPaths.RelativeDescendantIsPrefix` | packages/vault-core/src/path.ts:79-83 | the text test finds exactly the path and what continues it by whole segments, and returns the continuation |
| `VaultPaths.SplitJoin` | packages/vault-core/src/path.ts:41 | splitting a joined path gives back its segments |
| `VaultPaths.JoinSplit` | packages/vault-core/src/path.ts:41 | joining the segments of a text gives back the text |
| `FilePaths.FilePathIff` | packages/vault-core/src/path.ts:23-66 | what a file path is, segment by segment |

## Left out

- Stream ids are opened once; base64 of stream frames, close codes and `disposeAll` are not modelled: frames carry raw bytes.
- SessionManager.DocumentSessionManager.CompleteMove: the class holds the code segments that touch the maps; the segments that only wait are steps of the protocol, and sessions are creation numbers rather than objects.
- `DocumentSessionManager.close` of the whole manager is not modelled.
- SessionWaiting.NeverCircularIff: chains of microtasks that nothing can interrupt (the end of a mutation, the release of its reservation and the start of the next) are one step. An operation that is bound to wait for a later one counts as waiting for it.
- SessionGuarantees.QueueDrains: after calm runs; `StragglerDeadlocks` and `MoveDeadlocks` are runs after which the queue never drains.
- A disk move is taken to succeed only between folders of which neither contains the other, as the checks of `moveVaultPath` ensure.
- Persistence.NothingIsLost: nobody else writes the file, a write that fails leaves the file unchanged, a file that is missing when it is read, path transitions and deletion are left out, the state snapshot that a check of the file writes is taken to change nothing, and the end of the loop with its `finally` is one step.
- StableOpens.ToldStaysTrue: speaks of one session; that a session is closed or deleted meanwhile is left to the mutations of the manager's queue, in whose protocol opening is a step that may happen at any time.
- SessionEffects.MoveSubtreeMoves: steps of clients between those of the head are left out; the laws for all runs cover them.
- Documents are sequences of edits; the merging of concurrent edits by Yjs is not modelled.
- NoteIdentity.HistoryFollowsIdentity: entries are committed in the order in which they were recorded, every history call succeeds, and no note is staged where the index still has a file as its folder or a folder in its place, which git refuses; git's pathspecs are taken literally. Commits are taken to say their paths as they are; `CommitMessages.ScopeIsReadFromMessage` shows this of all whose paths hold none of U+2028, U+2029 and U+001E.
- NoteIdentity.PlainRunsAreReadExactly: gives a sufficient condition on whole runs; the exact condition for one note is its `misread` mark in `HistoryFollowsIdentity`.
- CommitMessages.MessageRoundTrip: actor labels contain no line break, other fields are words without white space, and numbers are kept as their text.
- PendingHistory.CursorContinues: the order of ids by `localeCompare` and by `<` is taken to be the same.
- SnapshotPaths.PortableSnapshotPaths: siblings are visited in any order, which is shown not to matter; the sort is left out.
- SnapshotRestore.RestoreSnapshotArchive: manifest version 1, entry types, size limits of small entries, modes and times, and hosts that refuse non-portable names are left out; the destination file system tells all names apart.
- Splice.PrependKeepsFrontmatter: frontmatter whose closing line ends in CR or at the end of the text is modelled by `PrependContent` but not claimed to keep its insertion point.
- HttpResponses.ChunksStopAndWait: a request id is answered once; streaming of upstream bodies uses the same chunk rule and is not modelled separately.
- HttpResponses.SendHttpResponse: without cancellation and without acknowledgements; these are the steps of `ChunksStopAndWait`.
- FolderMetadata.MoveFolderMetadataSubtree: only between folders of which neither contains the other.
- McpEndpoint.BusySessionsAreKept: speaks of the idle timer; the timer for sessions that were never acknowledged closes them regardless of their requests.
- Git, yazl/yauzl, YAML, zod, the MCP SDK, HTTP routing, the user interface, configuration, the command line, audit rows, vault registry and tree polling are not part of this model.
