# Verified model of the messages gateway

This project models the concurrent protocols and the byte-level codecs of the
gateway and proves what they keep over every run and on every input. All of it
is Dafny 4.11; `dafny verify dfyconfig.toml` checks the whole project.

How the model is built:

- A class holds the state that the source updates in place. Its methods are the
  lock-protected sections of the source, each proved against the function on values
  that the runs are built from, or against the promised property itself.
- A run is a sequence of moves. Every locked section and every outside call (the
  provider, the repository, the broker, a hook) is one move, with an arbitrary
  answer. `Exec(moves)` is the state after the run, so a lemma about `Exec(moves)`
  holds in every interleaving. Pointers are positions in a sequence that only grows.
- What a section decides is stated a second time without its function, as an
  if-and-only-if in the terms of the run or of the input (the lemmas named
  `...Exactly`, `...Cases` and `...IsExact`).
- Codecs come with an independent grammar: a renderer from structured values to
  bytes. The loops are proved to accept exactly the rendered values.

The parts:

- Pairing attempts: `PairingAttempts` (the sections on one attempt and the two
  indexes), `PairingService` (in place), `PairingRuns` (interleavings),
  `PairingSafety` (the invariant and the theorems), `PairingDevices` (whom an approval
  is for), `PairingWindow` (one run).
- Connection actor: `ActorPool`, `ActorOperations`, `ActorSessions`, `Teardown`.
- Durable before ACK: `ResponseWaiters`, `FrameHandling`, `AckQueue`, `AckPipeline`.
- Streams and media: `FrameScanner` and `FrameGrammar`, `MediaCipher`, `WebP`, `Gif`.
- `Lifecycle`, `KafkaFetch`, `MessageState`, `Identity`, `Digests`.
- `Wrappers`, `Faults`, `Octets`, `Rasters`: shared definitions.

Where the code does less than one might expect, the model follows the code, a
lemma shows the case, and the exact condition is proved:

- `Start` gives its reservation back before the approval and takes it again
  without a currency check, so an approval can be lost (`PairingWindow.ApprovalCanBeLost`):
  exactly when the attempt had already left the maps at that moment, and never for an
  approval begun by `SelectDevice` (`PairingSafety.ApprovalIsLostExactly`).
- A final session flush can succeed with nothing left to flush although the last
  session never became durable (`ActorSessions.VacuousFlushLosesSession`; the
  condition is in `FinalFlushKeepsNewest`), and an empty session hides the ones
  before it (`EmptySessionHidesLatest`; the condition on the accepted sessions is
  in `CleanEndKeepsLastNonempty`).
- A claimed response is safe to send exactly when request IDs are not reused
  (`ResponseWaiters.SendsAreSafeIffIDsAreFresh`), whatever the comment on
  `cancelResponse` says.
- A coordinator's retry list goes back unread when coordination fails, so an ID that was
  never durable can be acknowledged (`AckPipeline.ForeignRetryReachesProvider`; the
  condition is in `RetriesAreRequeuedUnread`).
- A WebP file with two canvases can be reported with a size other than the coded
  one (`WebP.FirstCanvasCanMislead`, `WebP.ReportedIsCoded`).
- An encrypted media file cut down to its header decrypts to nothing; exactly which
  wires decrypt is in `MediaCipher.OnlyTheOriginalDecrypts`. Short payloads reach a Go
  run-time panic, modelled as `Panicked` (`MediaCipher.ShortWiresPanic`; the condition
  is in `MediaCipher.DecryptData`).
- Partition keys identify their parts exactly for lengths below 2^32
  (`Identity.PartitionKeysIdentify`).

## Model

| member | source | states |
|---|---|---|
| PairingAttempts.InsertKeepsIndexes | internal/gateway/pairing/service.go:238-248 | publishing an attempt under a free key and a free ID keeps the two indexes in agreement and makes exactly the new attempt current besides the old ones |
| PairingAttempts.RemoveKeepsIndexes | internal/gateway/pairing/service.go:736-749 | removal keeps the indexes in agreement and ends the currency of exactly that attempt |
| PairingAttempts.ApplyKeepsIndexes | internal/gateway/pairing/service.go:736-761 | rewriting or removing an attempt in place keeps the indexes in agreement and every other attempt's currency |
| PairingAttempts.AdmissionCases | internal/gateway/pairing/service.go:326-430 | for every attempt and caller, exactly when a selection or completion goes ahead, when cleanup starts and with what outcome, when and why the caller is refused, and that nothing else changes the attempt |
| PairingAttempts.UsableListsExactly | internal/gateway/pairing/service.go:67-77 | a usable device list has distinct IDs of 1 to 256 printable ASCII characters and labels of 1 to 128 |
| PairingService.ScanDevices | internal/gateway/pairing/service.go:287-301 | the device loop accepts exactly the usable lists, and leaves the IDs read up to the first bad one |
| PairingService.Service.Insert | internal/gateway/pairing/service.go:238-248 | inserts exactly when key and ID are free; the new attempt is reserved and current |
| PairingService.Service.RemoveLocked | internal/gateway/pairing/service.go:736-749 | both indexes lose the attempt and stay in agreement |
| PairingService.Service.SetOperation | internal/gateway/pairing/service.go:361-371 | tag and generation of one attempt change, the indexes do not |
| PairingService.Service.Admit | internal/gateway/pairing/service.go:326-357 | the admission whose cases AdmissionCases lists, in place; a reserved selection names a known device of a current, idle attempt that is in time |
| PairingService.Service.AcceptDevices | internal/gateway/pairing/service.go:279-302 | after discovery the owner stores handle and device IDs, or learns that ownership is lost |
| PairingService.Service.TakeApproval | internal/gateway/pairing/service.go:361-371 | the approval takes an idle attempt without asking whether it is current |
| PairingService.Service.Approve | internal/gateway/pairing/service.go:383-393 | the owner moves the attempt to phone approval and releases it; anyone else changes nothing |
| PairingService.Service.StorePending | internal/gateway/pairing/service.go:450-461 | the owner stores the sealed session and gives up the handle in one section |
| PairingService.Service.FinishCommit | internal/gateway/pairing/service.go:469-497 | a commit that succeeded or was superseded removes the attempt as complete or failed, any other failure only releases it, the sealed session kept |
| PairingService.Service.BeginFinish | internal/gateway/pairing/service.go:526-548 | cleanup takes handle and persistence once, and the provider is to be told exactly when asked for and nothing was sealed |
| PairingService.Service.Settle | internal/gateway/pairing/service.go:570-575 | a settled cleanup leaves both indexes |
| PairingSafety.RunsKeepInv | internal/gateway/pairing/service.go:197-646 | every interleaving of Start, SelectDevice, Complete, Cancel, lookups, cleanup retries and sweeps keeps the protocol invariant |
| PairingSafety.IndexesAgreeAndGenerationsAreFresh | internal/gateway/pairing/service.go:736-761 | in every run byKey and byID hold the same attempts and no generation is granted twice |
| PairingSafety.OneHolder | internal/gateway/pairing/service.go:326-430 | in every run at most one call holds an attempt's reservation |
| PairingSafety.OwnershipIsNeverLost | internal/gateway/pairing/service.go:279-540 | the lost-ownership branches after Discover, after Seal and after a commit, and the busy guard of finishReserved, are never taken |
| PairingSafety.HandlesAreDisposedOnce | internal/gateway/pairing/service.go:249-577 | a handle that Discover returned is disposed at most once, and exactly once when its attempt has left the maps |
| PairingSafety.PairingIsSettledOnce | internal/gateway/pairing/service.go:431-577 | a successful BeginPairing is followed by at most one success among commit and restore, and by exactly one once the attempt has left the maps, unless the repository answered superseded |
| PairingSafety.ApprovalIsLostExactly | internal/gateway/pairing/service.go:361-393 | in every run an answered approval has lost its reservation exactly when the attempt was already out of the maps when the reservation was taken, and then changes nothing; one begun by SelectDevice never has; otherwise the attempt is released to wait for the phone |
| PairingSafety.HeldAttemptStaysPut | internal/gateway/pairing/service.go:326-577 | while a call holds a reservation no other call takes the attempt out of the maps |
| PairingSafety.RefusedCommitIsRepeated | internal/gateway/pairing/service.go:463-483 | in every run a commit refused for any reason but a successor leaves the attempt current, idle and sealed, and the next Complete in time commits again without the phone |
| PairingDevices.KeptIDs | internal/gateway/pairing/service.go:286-301 | the IDs kept from a device list were all in it, and all of them are kept from a usable list |
| PairingDevices.RunsAreTraced | internal/gateway/pairing/service.go:270-430 | every interleaving keeps attempts, calls and selectable IDs in step with the devices that Discover returned and that were approved |
| PairingDevices.ApprovalsAreForDiscoveredDevices | internal/gateway/pairing/service.go:312-381 | in every run the provider is asked to approve only a device that Discover returned for that attempt: the one SelectDevice named, under the attempt's own key, or for Start the only one |
| PairingDevices.SelectionIsExact | internal/gateway/pairing/service.go:319-357 | in every run a selection goes ahead exactly when the attempt is current, idle, in time and waiting for a selection and Discover returned that device for it; whoever acts on an attempt named its own key |
| PairingDevices.CompletionFollowsApproval | internal/gateway/pairing/service.go:397-497 | in every run nothing is completed, sealed or committed for an attempt unless the approval of a device discovered for it had been started |
| PairingWindow.ApprovalCanBeLost | internal/gateway/pairing/service.go:361-393 | a run exists in which the approval branch for a lost reservation is taken |
| ActorPool.Pool.constructor | internal/gateway/connectionactor/pool.go:39-44 | an empty, open pool |
| ActorPool.Pool.Start | internal/gateway/connectionactor/pool.go:46-77 | a new generation is started exactly when the context is live, the pool open, the key valid and unoccupied and the actor could be built; an occupied key answers with its terminal error |
| ActorPool.Pool.Record | internal/gateway/connectionactor/pool.go:79-102 | what is kept of a Run that returned: a join timeout or another blocking error leaves a tombstone, otherwise the entry goes |
| ActorPool.Pool.Quarantine | internal/gateway/connectionactor/pool.go:130-155 | an entry is marked, or a bare tombstone buried, without losing an earlier error; QuarantineHolds says what that prevents |
| ActorPool.Pool.Resume | internal/gateway/connectionactor/pool.go:172-192 | succeeds exactly for a finished quarantined entry without a join timeout |
| ActorPool.RunsKeepInv | internal/gateway/connectionactor/pool.go:46-211 | every sequence of starts, returns, completions, quarantines, resumes and shutdown keeps the pool invariant |
| ActorPool.GenerationsNeverOverlap | internal/gateway/connectionactor/pool.go:46-104 | a newer generation of a key exists only after the older Run returned and was recorded |
| ActorPool.CompletionFindsItsEntry | internal/gateway/connectionactor/pool.go:79-85 | the completion goroutine always finds its own entry |
| ActorPool.TombstonesHold | internal/gateway/connectionactor/pool.go:79-192 | after a join timeout a key never starts again; after another blocking end only an explicit Resume makes room |
| ActorPool.ExecuteReachesLiveActor | internal/gateway/connectionactor/pool.go:106-124 | in every run an operation is handed to an actor exactly while its Run is not recorded as over and was never quarantined |
| ActorPool.QuarantineHolds | internal/gateway/connectionactor/pool.go:130-155 | from a quarantine on, whatever is recorded, started or quarantined again, the key is neither executed nor started until a Resume of it succeeds |
| ActorPool.TakenExactly | internal/gateway/connectionactor/pool.go:46-104 | in every run a key is taken exactly while one of its generations or tombstones runs, ended in a blocking way or is quarantined, and was not resumed |
| ActorPool.StartsExactly | internal/gateway/connectionactor/pool.go:46-77 | in every run a start makes a generation exactly for a valid, free key of a pool never shut down, with an actor that could be built |
| ActorPool.ResumesExactly | internal/gateway/connectionactor/pool.go:172-192 | in every run a resume succeeds exactly for a quarantined key whose Run, if any, was recorded without a join timeout, and frees that key only |
| ActorPool.TakenKeyReports | internal/gateway/connectionactor/pool.go:58-65 | in every run a taken key shows the join timeout, the blocking error, the quarantine or nothing, in that order |
| ActorOperations.Gate.Capture | internal/gateway/connectionactor/actor.go:235-250 | a request is admitted exactly when a run of its key is active and ready, under that run |
| ActorOperations.Gate.Drain | internal/gateway/connectionactor/actor.go:296-312 | every queued request is answered, in order |
| ActorOperations.Gate.BeginRun | internal/gateway/connectionactor/actor.go:267-286 | a second run is refused; otherwise the section that begins a run, with the queue answered and empty |
| ActorOperations.Gate.SetReady | internal/gateway/connectionactor/actor.go:288-294 | the section that opens and closes the gate in every run; a run that is not the active one changes nothing |
| ActorOperations.Gate.EndRun | internal/gateway/connectionactor/actor.go:296-312 | the section that ends a run, with the queue answered and empty; a run that is not the active one ends nothing |
| ActorOperations.RunsKeepInv | internal/gateway/connectionactor/actor.go:235-312 | every interleaving of callers, drains, the generation loop and stragglers keeps the queue invariant, the queue holding exactly the queued requests |
| ActorOperations.AdmittedExactly | internal/gateway/connectionactor/actor.go:235-250 | in every run a request is admitted exactly while the run of its key has opened its gate, hence in a generation whose ready event was durably written |
| ActorOperations.OperationsRunWhereAdmitted | internal/gateway/connectionactor/actor.go:543-570 | an operation executes only in the run that admitted it, in a generation whose ready event was durably written; beside the active one run only operations that were answered without being joined |
| ActorOperations.RequestsAreAnsweredOnce | internal/gateway/connectionactor/actor.go:543-618 | every request that left the queue, late ones included, has exactly one result or is the active operation; no other request has any, so a send always finds the channel empty |
| ActorOperations.NothingIsLeftExecuting | internal/gateway/connectionactor/actor.go:607-618 | when Run has returned every request that left the queue has exactly one result |
| ActorSessions.Callbacks.ReplaceSession | internal/gateway/connectionactor/actor.go:856-870 | draining and filling the slot, as the callback steps of every run, while sessions are accepted |
| ActorSessions.Callbacks.TakeLatest | internal/gateway/connectionactor/actor.go:879-892 | the draining section of every run |
| ActorSessions.Callbacks.StopAcceptingAndTakeLatest | internal/gateway/connectionactor/actor.go:872-892 | the stopping section of every run |
| ActorSessions.CallbackReplaces | internal/gateway/connectionactor/actor.go:856-870 | the steps of a callback that is alone with the mutex are the whole of replaceSession |
| ActorSessions.Flusher.Take | internal/gateway/connectionactor/actor.go:583-586 | the latest session becomes pending only if it is not empty |
| ActorSessions.Flusher.Flush | internal/gateway/connectionactor/actor.go:788-804 | the flush section of every run: nothing to do, a successful swap that moves snapshot and revision, or a pending session thrown away |
| ActorSessions.RunsKeepInv | internal/gateway/connectionactor/actor.go:571-595 | every interleaving of callbacks, loop, debounce, swaps and teardown, with any sessions, keeps the session invariant |
| ActorSessions.SendNeverBlocks | internal/gateway/connectionactor/actor.go:856-870 | whoever is about to send finds the slot empty, for any sessions |
| ActorSessions.DurableSessionsAreInOrder | internal/gateway/connectionactor/actor.go:788-804 | durable sessions are an in-order subsequence of the accepted ones, whatever the sessions |
| ActorSessions.FinalFlushKeepsNewest | internal/gateway/connectionactor/actor.go:637-641 | after a successful final flush a non-empty newest session is the snapshot, durable, and used by the next restore, exactly when no failed debounced flush had dropped it; the revision counts the swaps |
| ActorSessions.VacuousFlushLosesSession | internal/gateway/connectionactor/actor.go:571-595 | a run in which the exception occurs |
| ActorSessions.EmptySessionHidesLatest | internal/gateway/connectionactor/actor.go:788-804 | for every list of sessions that ends with an empty one, a run that accepts it and ends cleanly with nothing durable |
| ActorSessions.CleanEndKeepsLastNonempty | internal/gateway/connectionactor/actor.go:571-641 | every clean end with given accepted sessions leaves the last non-empty one as the snapshot, exactly when there is none or nothing was accepted after it |
| Teardown.Generation.LeaveLoop | internal/gateway/connectionactor/actor.go:489-606 | the exit handed to teardown for every way of leaving the loop |
| Teardown.Generation.ApplyTerminal | internal/gateway/connectionactor/actor.go:758-786 | a terminal provider error sets actor state, connection state and reason of its class, any other changes nothing |
| Teardown.Generation.Degrade | internal/gateway/connectionactor/actor.go:642-672 | actor state, connection state and reason of a teardown that lost the session or a join |
| Teardown.Generation.FinalizeGeneration | internal/gateway/connectionactor/actor.go:622-748 | stop, the whole final health, backoff included, and the writes as a function of the exit and the joins |
| Teardown.Generation.FinishProvider | internal/gateway/connectionactor/actor.go:703-748 | the provider branch: retry exactly for non-terminal errors, states by class, reauthorization only after its fenced write |
| Teardown.Generation.TearDown | internal/gateway/connectionactor/actor.go:489-786 | a generation is retried exactly when Connect returned on its own with an ordinary error, everything joined and the session is safe; a terminal cause fixes reason and states whatever began the teardown, except after a lost reauthorization write; an unjoined part always leaves a join timeout |
| Teardown.StrongestClassDecides | internal/gateway/connectionactor/actor.go:758-786 | the strongest terminal class in a cause decides actor state, connection state and reason, by a table of the five classes |
| Teardown.TerminalHasClass | internal/gateway/connectionactor/actor.go:750-756 | every terminal cause has a strongest class |
| Teardown.CauseCases | internal/gateway/connectionactor/actor.go:596-641 | which provider error counts in the end: a terminal one always, an ordinary one only when Connect came back on its own |
| ResponseWaiters.Waiters.WaitResponse | pkg/libgm/session_handler.go:137-150 | registers a fresh channel under the request ID |
| ResponseWaiters.Waiters.CancelResponse | pkg/libgm/session_handler.go:163-173 | closes the caller's channel exactly while the ID is unclaimed |
| ResponseWaiters.Waiters.CancelAllResponseWaiters | pkg/libgm/session_handler.go:175-182 | empties the table, closing each waiter's own channel |
| ResponseWaiters.Waiters.Receive | pkg/libgm/session_handler.go:199-302 | response, poison and failure claim exactly the waiters they may, and poison and failure carry no payload |
| ResponseWaiters.RunsKeepInv | pkg/libgm/session_handler.go:137-302 | with fresh IDs every interleaving keeps the table, the pending sends and the channels in order |
| ResponseWaiters.WaitersCompleteOnce | pkg/libgm/session_handler.go:137-302 | with fresh IDs a waiter is sent to or closed at most once, never lost, and what arrives matches its ID and action or is a poison without payload |
| ResponseWaiters.RequestIsClaimedExactly | pkg/libgm/session_handler.go:199-302 | with fresh IDs, exactly which responses, poisons and failures complete a request that still waits, ignored ones excluded, and exactly what its caller then receives |
| ResponseWaiters.SendsAreSafeIffIDsAreFresh | pkg/libgm/session_handler.go:163-240 | no claimed send meets a closed or full channel in any run with given registrations, exactly when these use no ID twice |
| ResponseWaiters.ReusedIDClosesClaimedChannel | pkg/libgm/session_handler.go:163-173 | for every reuse of an ID, a run that closes a claimed channel under its send |
| FrameHandling.Receiver.DurableRequestFor | pkg/libgm/session_handler.go:184-197 | the action of the matching waiter, or unspecified |
| FrameHandling.Receiver.Classify | pkg/libgm/event_handler.go:441-455 | exactly the unsolicited decodable data frames are classified, and such a frame is a replay exactly while the backlog counter is positive |
| FrameHandling.Receiver.Withhold | pkg/libgm/event_handler.go:460-473 | a failed durable attempt reaches the observer once and at most the matching waiter |
| FrameHandling.Receiver.Quarantine | pkg/libgm/event_handler.go:487-508 | a quarantined frame poisons its waiter; a fresh one nobody waited for is reported |
| FrameHandling.Receiver.Deliver | pkg/libgm/event_handler.go:512-532 | a message goes to its waiter or is dispatched, with its replay mark |
| FrameHandling.Receiver.Finish | pkg/libgm/event_handler.go:456-532 | the ACK is queued exactly when the handler answered committed, poisoned or known poison without an error; an error or an unknown outcome queues and dispatches nothing; one completion of the right kind; the backlog counter and dispatches move exactly when they must |
| FrameHandling.CompletionCases | pkg/libgm/event_handler.go:460-513 | for every frame and answer, which completion is attempted and with which message |
| AckQueue.KeptFacts | pkg/libgm/session_handler.go:617-636 | what is kept is new, unrepeated and within the room, and nothing new is left out while there is room |
| AckQueue.KeptIsPrefix | pkg/libgm/session_handler.go:617-636 | for a list without repetitions the kept IDs are a prefix of the unknown ones, in order |
| AckQueue.RequeueKeepsWindow | pkg/libgm/session_handler.go:617-636 | requeueing keeps the window unrepeated and bounded, puts the list at the front in order, and leaves out only known IDs unless the window is full |
| AckQueue.FailedSendRestores | pkg/libgm/session_handler.go:496-535 | a failed direct send with no concurrent enqueue leaves the queue as it was |
| AckQueue.ProviderFailureRestores | pkg/libgm/session_handler.go:509-530 | a validated provider failure restores admitted IDs at the front, unrepeated and in the returned order |
| AckQueue.ReadList | pkg/libgm/session_handler.go:586-610 | a list is accepted exactly when it repeats nothing and names only candidates that are allowed |
| AckQueue.ValidateACKCoordinationResult | pkg/libgm/session_handler.go:586-615 | accepts exactly the acceptable results |
| AckQueue.AckWindow.QueueMessageAck | pkg/libgm/session_handler.go:441-461 | appends a valid, unknown ID while there is room; queue and set agree |
| AckQueue.AckWindow.TakeBatch | pkg/libgm/session_handler.go:496-504 | takes the first 256 IDs at most; queue and set agree |
| AckQueue.AckWindow.RequeueMessageACKs | pkg/libgm/session_handler.go:617-636 | the queue becomes its specified requeueing; queue and set agree |
| AckPipeline.RunsKeepInv | pkg/libgm/session_handler.go:441-549 | every interleaving of frames, refills, batches, sends, observers and coordinators keeps the pipeline invariant |
| AckPipeline.DurableBeforeACK | pkg/libgm/event_handler.go:420-513 | whatever a move first hands to the provider was, by an earlier move, answered committed, poisoned or known poison without an error, or refilled |
| AckPipeline.StepKeepsPending | pkg/libgm/session_handler.go:441-549 | an ID in the window or in a task's hands stays there over every move, except one whose batch was sent and recorded, that the coordinator did not want back, or that met a window now full |
| AckPipeline.DurableBecomesPending | pkg/libgm/event_handler.go:136-154 | an ID answered committed, poisoned or known poison without an error, or refilled, is pending at once, and nothing else becomes durable |
| AckPipeline.CoordinationKeepsTheRest | pkg/libgm/session_handler.go:509-530 | when a coordination ends, exactly the IDs of its batch that it does not let go of stay in hand |
| AckPipeline.NoACKIsLost | pkg/libgm/session_handler.go:496-549 | between a moment when an ID is pending and a later one when it is not, some move made while it was pending let go of it in one of the three permitted ways |
| AckPipeline.WindowIsBounded | pkg/libgm/session_handler.go:441-461 | in every run the window repeats no ID and holds at most 1024 |
| AckPipeline.WindowIsAQueue | pkg/libgm/session_handler.go:441-535 | over every move IDs enter the window at its end, leave from its front and come back to its front |
| AckPipeline.RetriesAreRequeuedUnread | pkg/libgm/session_handler.go:509-527 | when coordination ends, a retry list of known IDs queues only known IDs; with room, or for a list without repetitions as far as it fits, only such a list does |
| AckPipeline.ForeignRetryReachesProvider | pkg/libgm/session_handler.go:509-520 | for any two IDs, a run in which a failed coordination makes the provider be told of an ID that was never durable |
| FrameScanner.Scanner.FeedByte | pkg/libgm/longpoll.go:587-654 | one byte, error paths included, as specified |
| FrameScanner.CharactersByCode | pkg/libgm/longpoll.go:587-658 | opening, closing and separating characters by code, and the 4 MiB limit |
| FrameScanner.Scanner.Feed | pkg/libgm/longpoll.go:587-654 | one chunk equals the fold over its bytes, stopping at the first error |
| FrameScanner.ErrorsStay | pkg/libgm/longpoll.go:587-654 | after an error no further byte matters |
| FrameScanner.ScanInTwo | pkg/libgm/longpoll.go:587-654 | feeding a then b equals feeding their concatenation, from any state |
| FrameScanner.ChunksDoNotMatter | pkg/libgm/longpoll.go:587-654 | however a body is cut, the final state and the emitted frames are the same |
| FrameGrammar.Understand | pkg/libgm/longpoll.go:577-654 | whatever was read without an error is a list of balanced containers and an unfinished rest, and the state is determined by them |
| FrameGrammar.CompleteIsScanned | pkg/libgm/longpoll.go:577-654 | every complete body whose containers fit and are taken is emitted exactly and in order, with the end seen |
| FrameGrammar.ScannerAcceptsExactlyCompleteBodies | pkg/libgm/longpoll.go:577-658 | the scanner ends cleanly with given frames exactly when the body is complete and these are its containers |
| FrameGrammar.DepthNeverNegative | pkg/libgm/longpoll.go:638-643 | the negative-depth error is unreachable |
| MediaCipher.EncryptData | pkg/libgm/crypto/aesgcm.go:63-89 | header and chunks sealed with index and last flag |
| MediaCipher.OpenChunks | pkg/libgm/crypto/aesgcm.go:99-125 | the loop opens every chunk in turn or rejects |
| MediaCipher.DecryptData | pkg/libgm/crypto/aesgcm.go:91-126 | plain, rejected or panicking for every wire, and the exact wires on which it panics |
| MediaCipher.ShortWiresPanic | pkg/libgm/crypto/aesgcm.go:91-104 | a lone header byte and every non-empty payload below 28 bytes reach the panic |
| MediaCipher.AADsDiffer | pkg/libgm/crypto/aesgcm.go:128-135 | associated data determine index and last flag below 2^32 |
| MediaCipher.AADBytes | pkg/libgm/crypto/aesgcm.go:128-135 | the flag byte and the four index bytes, most significant first |
| MediaCipher.WireLength | pkg/libgm/crypto/aesgcm.go:61-89 | the wire has 2 + n + 28 * ceil(n / 32740) bytes and announces chunks of 32768 |
| MediaCipher.RoundTrip | pkg/libgm/crypto/aesgcm.go:63-126 | decryption undoes encryption for data of any length, for a cipher that opens what it sealed for that data |
| MediaCipher.OnlyTheOriginalDecrypts | pkg/libgm/crypto/aesgcm.go:91-126 | under an ideal cipher exactly these wires decrypt: the header alone, and the original payload behind a chunk-size byte that cuts it alike |
| MediaCipher.IdealCipherExists | pkg/libgm/crypto/aesgcm.go:34-59 | for any nonces and data there is a cipher that opens exactly what it sealed |
| Rasters.ValidDimensionsIsPixelLimit | internal/gateway/media/upload.go:564-566 | the quotient check is width * height <= limit |
| WebP.ReadChunk | internal/gateway/media/upload.go:505-552 | one chunk is refused exactly when it breaks the rules for its kind or is a second image |
| WebP.StoredCanvasIsRead | internal/gateway/media/upload.go:519-520 | a canvas of any 24-bit sizes is read back |
| WebP.StoredLosslessIsRead | internal/gateway/media/upload.go:529-530 | lossless sizes of 14 bits are read back, whatever the bits above them |
| WebP.StoredLossyIsRead | internal/gateway/media/upload.go:539-540 | lossy sizes of 14 bits are read back, whatever the scaling bits |
| WebP.TypesAreSpelled | internal/gateway/media/upload.go:502-535 | the chunk types are spelled as their names |
| WebP.ChunkRules | internal/gateway/media/upload.go:502-547 | exactly which chunks are allowed, by name, animation bit, signature and pixel count |
| WebP.ValidateStaticWebP | internal/gateway/media/upload.go:471-562 | accepts exactly the files tiled by header and padded chunks with one still image, no animation, sizes within the limit and the last canvas equal to the coded size |
| WebP.FilesAreUnambiguous | internal/gateway/media/upload.go:484-556 | a file holds at most one list of chunks |
| WebP.InspectWebP | internal/gateway/media/upload.go:343-378 | succeeds exactly for accepted files of at least 30 bytes that begin with a canvas or an image, within the pixel limit, which is never the reason to refuse |
| WebP.FirstIsReported | internal/gateway/media/upload.go:591-614 | the fixed header offsets read the first chunk |
| WebP.ReportedIsCoded | internal/gateway/media/upload.go:343-378 | the reported size is the coded one exactly when the file begins with its image or with a canvas equal to its last one |
| WebP.FirstCanvasCanMislead | internal/gateway/media/upload.go:591-614 | an accepted file whose reported size is not the coded one |
| Gif.DiscardSubBlocks | internal/gateway/media/upload.go:456-469 | succeeds exactly at well-formed sub-blocks and stops right after them |
| Gif.TableSizes | internal/gateway/media/upload.go:402-406 | a colour table has three bytes for each of 2 to 256 colours, exactly when the flag is set |
| Gif.StoredWordIsRead | internal/gateway/media/upload.go:397-398 | a stored 16-bit size or position is read back |
| Gif.ImageRules | internal/gateway/media/upload.go:433-450 | exactly which images are allowed: inside the canvas, with pixels, within the limit, code size 2 to 8 |
| Gif.ReadBlock | internal/gateway/media/upload.go:421-452 | an extension or image is accepted exactly when well formed and, for an image, inside the canvas and the limit |
| Gif.TrailerDecides | internal/gateway/media/upload.go:414-420 | at a trailer, acceptance means one image seen and nothing after it |
| Gif.ValidateStaticGIF | internal/gateway/media/upload.go:391-454 | accepts exactly the files with one in-canvas image and nothing after the trailer |
| Lifecycle.Generation.EmitSessionChange | pkg/libgm/lifecycle.go:459-476 | the signalling section of every run |
| Lifecycle.Generation.FinishLifecycleSessions | pkg/libgm/lifecycle.go:435-448 | the draining section of every run |
| Lifecycle.RunsKeepInv | pkg/libgm/lifecycle.go:303-375 | every interleaving of signals, cancellation, loop, drain and failed starts keeps the invariant |
| Lifecycle.NoSignalIsLost | pkg/libgm/lifecycle.go:401-457 | every accepted signal is followed by a hook call that starts after it and before done closes |
| Lifecycle.HooksNeverExceedSignals | pkg/libgm/lifecycle.go:401-485 | hook calls never outnumber accepted signals |
| Lifecycle.NothingAfterDone | pkg/libgm/lifecycle.go:345-375 | after done closes nothing is accepted and no hook is called |
| KafkaFetch.Consumer.DeadLetterAndCommit | internal/gateway/kafka/consumer.go:218-235 | the offset is committed only after the dead letter was stored |
| KafkaFetch.Consumer.Handle | internal/gateway/kafka/consumer.go:155-194 | the effects that EffectsExactly lists event by event, in place, and whether handling succeeds |
| KafkaFetch.EffectsExactly | internal/gateway/kafka/consumer.go:155-194 | for every record and answer, when exactly it is submitted, dead-lettered and committed, and for which tenant |
| KafkaFetch.Consumer.ProcessCommandFetch | internal/gateway/kafka/franz.go:381-439 | every record before the stop passes, the record at the stop does not, and the effects are those of the eligible records |
| KafkaFetch.CommittedExactly | internal/gateway/kafka/franz.go:381-415 | exactly the eligible records that were submitted or dead-lettered for an authorised tenant and whose offset the broker took are committed |
| KafkaFetch.SubmittedExactly | internal/gateway/kafka/consumer.go:155-194 | a command is submitted exactly when eligible, authorised, on an allowed topic, of 1 byte to 1 MiB, in the name of the authorised tenant, and accepted; and for that tenant |
| KafkaFetch.StoredExactly | internal/gateway/kafka/consumer.go:167-192 | a record is dead-lettered exactly when eligible, authorised, taken by the store, and malformed, for another tenant or rejected; and for the authorised tenant |
| KafkaFetch.PausedExactly | internal/gateway/kafka/franz.go:398-408 | a partition is paused exactly at its first untrusted record |
| KafkaFetch.CommitsFollowDurableWork | internal/gateway/kafka/consumer.go:155-235 | every commit directly follows the submission or dead letter of the same record |
| KafkaFetch.CommittedIsPartitionPrefix | internal/gateway/kafka/franz.go:376-415 | committed records are a prefix of each partition, none at or after an untrusted one, and an untrusted record holds back no other partition |
| MessageState.DeriveMessageState | internal/gateway/domain/message.go:35-61 | the loop yields what the closed form says of the history by what occurs in it, without ranks |
| MessageState.FoldDerives | internal/gateway/domain/message.go:35-61 | on every history the ranked fold is the closed form: failed first, else the furthest of read, delivered, sent, else the furthest step since the last uncertain one |
| MessageState.SettledStatesHold | internal/gateway/domain/message.go:32-61 | failed and read never change, delivered moves only to read, sent only to delivered or read, each exactly when observed |
| Identity.FieldsAreDecodable | internal/gateway/ingress/service.go:616-621 | any number of length-prefixed fields is recovered from the bytes |
| Identity.WriteFields | internal/gateway/ingress/service.go:616-621 | the loop appends exactly the fields |
| Identity.PartitionKey | internal/gateway/kafka/outbox.go:102-112 | the key is the three length-prefixed parts |
| Identity.PartitionKeysIdentify | internal/gateway/kafka/outbox.go:102-112 | keys identify their parts below a length limit exactly when the limit is at most 2^32 |
| Identity.AssociatedData | internal/gateway/session/envelope.go:215-231 | version and the three length-prefixed scope parts |
| Identity.AssociatedDataIdentifies | internal/gateway/session/envelope.go:215-231 | associated data agree exactly on scope and 32-bit version |
| Digests.CanonicalRequestDigest | internal/gateway/messaging/service.go:242-263 | the hash over the canonical fields and all media IDs |
| Digests.RequestDigestsIdentify | internal/gateway/messaging/service.go:242-263 | digests agree exactly on the same request up to trimming |
| Digests.WriteKeyIdentity | internal/gateway/ingress/service.go:623-638 | a fingerprint or the whole sealed envelope, tagged |
| Digests.KeyOfIdentifies | internal/gateway/ingress/service.go:623-638 | key identities agree exactly for equal fingerprints, or for equal envelopes where there is no fingerprint |
| Digests.AttachmentIdentityDigest | internal/gateway/ingress/service.go:576-589 | the hash over the attachment's fields and two key identities |
| Digests.KeyFieldsSplit | internal/gateway/ingress/service.go:623-638 | the tagged key forms are recovered from the front of a list of fields |
| Digests.AttachmentDigestsIdentify | internal/gateway/ingress/service.go:576-589 | digests agree exactly on the same content, across fingerprints and envelopes |
| Digests.AttachmentAggregateID | internal/gateway/ingress/service.go:591-600 | the prefix and the hexadecimal short hash of message, position and identity |
| Digests.AggregateIDsIdentify | internal/gateway/ingress/service.go:591-600 | IDs agree exactly on the same attachment at the same position of the same message |

## Left out

- HTTP handlers, routing, OIDC, server setup, commands, metrics and readiness: only branch-level claims.
- The bridge connector, generated protobuf code and enum tables.
- Postgres, S3, KMS, the provider adapter and the broker: they appear only as arbitrary answers.
- The ditto pinger, long-poll HTTP retries, media transfer, DNS and URL pinning: timing and network I/O.
- Key exchange, HMAC, ECDSA and the AES block cipher: the AEAD and the hash are parameters.
- Logging, zeroing of secrets, clock values and timer durations; a timer that fires is a move of a run.
- Generation and run counters are unbounded; 64-bit wrap-around is not modelled.
- The validity of a provider response ID (its length and characters) is a boolean of the frame, and so is the rule that ignores unencrypted messages before a real response.
- FrameHandling.Receiver.DurableRequestFor: returns only the action; the conversation and cursor that a durable request also carries do not affect what is claimed.
- ActorPool.Pool.Quarantine: the cancellation of the actor, the bounded wait and its join-timeout answer are not modelled, nor is the waiting in Shutdown; a closed pool starts nothing.
- AckPipeline.DurableBeforeACK: holds while the coordinator names only IDs of its batch; RetriesAreRequeuedUnread says what happens otherwise.
- MediaCipher.DecryptData: for chunk exponents of 64 and more the capacity computed from an infinite quotient is taken not to panic.
- MediaCipher.OnlyTheOriginalDecrypts: one encryption under the key, and at most 2^32 chunks, since the chunk index is 32 bits wide.
- WebP.InspectWebP: PNG, JPEG and GIF sizes come from Go's decoders, which are not part of this model.
- Lifecycle.NoSignalIsLost: one generation; which generation a signal reaches is decided before the model begins.
- KafkaFetch.Consumer.Handle: decoding a command is an answer of the outside, and the stored dead letter's text is not modelled.
- Digests.RequestDigestsIdentify: trimming is a parameter, and the hash is taken to be injective.
- Digests.AggregateIDsIdentify: the 16-byte short hash is taken to be injective too.
