# Verified models of the clangd bridge

The repository keeps clangd sessions alive for Unreal Engine projects, regenerates their
compilation databases when files change, and answers code-intelligence requests over two
framed wire protocols. This project models the parts of it where mistakes hide, in Dafny, and
proves what they promise. `dafny verify dfyconfig.toml` checks everything.

**Concurrent parts** (`Manager*`, `Coordinator*`, `WatchBackend*`, `DocSync*`). Each is a state
machine whose step is one critical section, one channel operation, or one event of the outside
world; a run is any sequence of steps, and a disabled step does nothing. A statement about all
sequences is therefore about every interleaving. Beside each machine stands a class whose methods
update its fields in place, one method per critical section. Each method is proved to take exactly
the machine's step, and `Drive` shows that any schedule of methods is a run of the machine, so what
is proved of runs holds of the object.

What keeps a machine safe is proved beside what makes it useful: `ManagerDismissal`, `ManagerOutcomes`,
`ManagerRestarts`, `CoordinatorBursts`, `WatchBackendLifecycle` and `DocSyncOutcomes` say, in terms of
runs and not of the step functions, what each request, event and operation comes to.

- *Session manager.* A launch number stands for the context, startup channel, process and client
  of one start of clangd and for the goroutine working on it. A session is named by its position,
  which stands for its address. `claims` counts, per project, clients handed out and not released.
- *Coordinator.* Timers may fire at any time while armed; a fired timer can no longer be stopped.
- *Windows watch backend.* The kernel completes reads whenever it wants; every system call may
  have any outcome.
- *Document sync.* One operation holds the document lock; a bounded queue leads to one writer.
  Time-outs, failing writes and termination strike between any two steps.

**Wire protocols** (`Framing*`, `Stdio*`, `Streams`, `Text`). Parsers and writers are methods on
buffered input and unreliable output. Their results are tied to specification functions, and these
to independent descriptions: a grammar of whole messages, and a characterization of overlong lines.

**Shaping of answers** (`Call*`, `FitText`, `SymbolTree`) and **indexes and names** (`Rider*`,
`Registry`). Loops as in the source, proved against reachability, longest prefixes, pre-order, plain
search, and minimal covers.

Findings, where the code does something other than it says or one would expect; each with a concrete
input and its exact condition:

- A restart after a crash resets the reference count while callers still hold claims
  (internal/lsp/manager.go:468-471). `ManagerCrash.ACrashForgetsReferences` is a run in which a client
  in use is closed because of it. `ManagerClaims.CountsAreExact`: a run keeps counts exact if and only
  if no step of it is such a reset.
- A startup that finds its session gone before it published its process never closes its channel
  (internal/lsp/manager.go:301-305). `ManagerCrash.AnEarlyReturnForgetsWaiters` is a run of four steps;
  `ManagerTheorems.OnlyAnEarlyReturnForgetsWaiters` shows that this is the only way to end without
  waking waiters.
- `SessionState` documents "absent" as "no session has been requested yet". It reports "absent" after
  any removal of the session (idle stop, invalidation, configuration change, Close), and for a session
  still in the table after a crash (`ManagerCrash.ARemovalLooksAbsent`, `ManagerCrash.ACrashLooksAbsent`).
  `ManagerReport.AbsentExactlyWhen`: the report is "absent" if and only if every startup of the project
  has been followed by a removal or a crash.
- The exported `DidClose` does not look at the bookkeeping (internal/lsp/client.go:672-680). Called on a
  client that has opened nothing it closes a document that is not open (`DocSyncTheorems.ACloseTooMany`);
  `DocSyncTheorems.CloseIsLegalExactlyWhenOpen` gives the exact condition under which it keeps the
  history legal.
- `fitText` can return the whole text marked as truncated, because `true` is a byte shorter than `false`
  (`FitText.AWholeTextIsMarked`); `FitText.WholeTextIsMarkedExactlyWhen` says when.
- A call hierarchy can be marked as truncated although nothing is missing, because the budget is looked
  at before the repetition of a root (internal/mcpserver/server.go:378-382). `CallMarks.ARepeatedRootIsMarked`
  is an example; `CallMarks.MarkIsSpuriousExactlyWhen` is the exact condition.

## Model

| member | source | states |
|---|---|---|
| ManagerTheorems.NothingIsLeaked | internal/lsp/manager.go:288-328 | in every reachable state each running process, open client and live context has somebody responsible: its startup goroutine, a session in the table, or a pending cleanup |
| ManagerTheorems.NothingSurvivesClose | internal/lsp/manager.go:682-709 | once Close and the startups and cleanups it overtook are over, no process runs, no client is open and no context is live, whatever happens later |
| ManagerSettling.CloseSettles | internal/lsp/manager.go:682-709 | once closed, the manager settles after at most the remaining turns of its startups and cleanups, whatever happens between them, and until then one of these can be taken |
| ManagerTheorems.SingleFlight | internal/lsp/manager.go:217-252 | a session has at most one launch that is not over; in the table, `starting` is set exactly while that startup is in flight, and a client implies its process and no startup |
| ManagerTheorems.ChannelsCloseOnce | internal/lsp/manager.go:484-489 | a startup channel that a session would close has not been closed yet |
| ManagerTheorems.FinishedStartupsWake | internal/lsp/manager.go:445-476 | a startup that is over has woken its waiters if its session is in the table; one that has not will never |
| ManagerTheorems.OnlyAnEarlyReturnForgetsWaiters | internal/lsp/manager.go:301-305 | a step ends a startup without closing its channel if and only if it is the early return for a session no longer in the table |
| ManagerClaims.RefsNeverExceedClaims | internal/lsp/manager.go:572-587 | in every run the count of a session never exceeds the claims its project's callers hold |
| ManagerClaims.ExactUnlessForgotten | internal/lsp/manager.go:445-476 | until Close, a step keeps counts equal to claims if and only if it is not the success of a restart on a session whose references were not zero |
| ManagerClaims.CountsAreExact | internal/lsp/manager.go:445-476 | a run keeps counts equal to claims throughout, until Close, if and only if no step of it resets a count that is not zero |
| ManagerClaims.CrashFreeRunsAreExact | internal/lsp/manager.go:445-476 | in runs without a crash, counts equal claims until Close |
| ManagerClaims.HeldClientsStay | internal/lsp/manager.go:590-620 | as long as no count has been reset, no step but Close and its own crash closes a client that somebody still holds |
| ManagerClaims.UnusedClientsAreStopped | internal/lsp/manager.go:665-681 | an unused client's idle timer is armed or has fired, and its callback closes the client, ends the process and empties the table entry |
| ManagerClaims.RestartsWait | internal/lsp/manager.go:547-571 | successive launches of a session are separated by the full backoff for at least one failure, and failure counts increase |
| ManagerDismissal.MarkedExactlyWhenDismissed | internal/lsp/manager.go:196-206 | in every run a session in the table is marked stale if and only if it was, while in the table, invalidated or asked for with another configuration |
| ManagerOutcomes.DismissedSessionsRetire | internal/lsp/manager.go:572-601 | in every run, once a session has been invalidated or asked for with another configuration, no request for its project gets its client any more, and as long as it is in the table the release that brings its count to zero takes it out and disposes of its client, process and context |
| ManagerOutcomes.SessionsLeaveExactlyWhen | internal/lsp/manager.go:572-620 | before Close, a step takes a session out of the table if and only if it is the last release of a dismissed one, or one nobody counts on is dismissed, asked for after having been dismissed, or found idle; its client, process and context are then disposed of |
| ManagerOutcomes.OffersEndExactlyWhen | internal/lsp/manager.go:553-620 | before Close, an offered client stays open and offered until its session leaves the table or its process exits, and exactly these steps shut it |
| ManagerOutcomes.RefusalsFollowDismissal | internal/lsp/manager.go:196-206 | a request is refused exactly when its session has been dismissed in this run or has another configuration: with an error while the session is in use, else by taking it out of the table and trying again |
| ManagerOutcomes.RequestsGetTheClient | internal/lsp/manager.go:207-216 | a request gets the client if and only if its session offers one and is not refused; exactly then a claim and a reference are added, and the client stays offered |
| ManagerOutcomes.RequestsStartClangd | internal/lsp/manager.go:217-252 | any other request waits for a startup, which it begins if and only if none is in flight, unless the session is backing off |
| ManagerRestarts.BackingOffExactlyWhen | internal/lsp/manager.go:237-240 | a request is turned away as backing off if and only if it is not refused, finds neither client nor startup, and the wait after some failure of its session has not passed |
| ManagerRestarts.BackoffDoubles | internal/lsp/manager.go:547-552 | the wait is one second after the first failure, doubles with each, and stays at sixteen from the fifth on |
| ManagerRestarts.FailuresAreCounted | internal/lsp/manager.go:445-467 | in every run a session counts exactly its launches that failed or crashed |
| ManagerRestarts.OneIdleTimer | internal/lsp/manager.go:478-482 | a session in the table has at most one idle timer running, and none while it has references |
| ManagerOutcomes.ReleasesGiveBack | internal/lsp/manager.go:572-587 | a release takes one claim and one reference away, if there are any, of its project alone, and the last one leaves a session that stays with an armed idle timer |
| ManagerOutcomes.WaitersGetTheClient | internal/lsp/manager.go:265-286 | a woken waiter claims a client if and only if its session offers one |
| ManagerOutcomes.SuccessesAreOffered | internal/lsp/manager.go:445-482 | a successful startup of a session in the table offers its client, wakes the waiters and arms the idle timer; otherwise all it made is left to a cleanup |
| ManagerOutcomes.FailuresAreReported | internal/lsp/manager.go:445-467 | a failed startup of a session in the table wakes its waiters, keeps the references and is reported as degraded |
| ManagerOutcomes.CrashesClear | internal/lsp/manager.go:553-571 | the crash of a client on offer shuts it and cancels its context; session, references and idle timer stay |
| ManagerOutcomes.CloseLetsGo | internal/lsp/manager.go:682-709 | Close empties the table, wakes the waiters and stops the idle timer of each session that was in it, and leaves what it had to a cleanup |
| ManagerOutcomes.UnsetValuesAreDefaults | internal/lsp/manager.go:184-189 | fewer than one thread means one, a time-out that is not positive means five minutes, and nothing else is changed |
| ManagerReport.StartingIsInFlight | internal/lsp/manager.go:150-167 | the reported state is "starting" exactly while a startup of the project's session is in flight |
| ManagerReport.AbsentExactlyWhen | internal/lsp/manager.go:150-167 | in every run, the reported state is "absent" if and only if every startup of the project has been followed by a removal or a crash of its session |
| ManagerReport.AbsentInTableMeansCrash | internal/lsp/manager.go:553-571 | a step makes the report "absent" for a session in the table if and only if it is the crash of that session's process |
| ManagerReport.CrashLooksAbsent | internal/lsp/manager.go:553-571 | the crash turns a running session's report into "absent", while it is in the table and backing off |
| ManagerCrash.ACrashLooksAbsent | internal/lsp/manager.go:553-571 | a run with a crash after which a requested project's session is in the table and reported "absent" |
| ManagerCrash.ARemovalLooksAbsent | internal/lsp/manager.go:590-601 | a run of two steps after which a requested project is reported "absent" |
| ManagerCrash.AnEarlyReturnForgetsWaiters | internal/lsp/manager.go:301-305 | a run of four steps that ends a startup without closing its channel |
| ManagerCrash.ACrashForgetsReferences | internal/lsp/manager.go:468-471 | a run with a crash in which the count falls below the claims and a client in use is closed |
| Manager.Manager.Client | internal/lsp/manager.go:183-254 | one turn of the loop: closed, new session, changed configuration, claim, wait, back off or relaunch, with the answer to the caller and the whole new state |
| Manager.Manager.StartupResult | internal/lsp/manager.go:265-286 | a woken waiter claims the client of its session if that is still in the table and has one |
| Manager.Manager.Publish | internal/lsp/manager.go:297-316 | the spawned process becomes the session's, or is left to a cleanup |
| Manager.Manager.FailStartup | internal/lsp/manager.go:445-467 | the failing ways out of a startup, for a live and for a removed session |
| Manager.Manager.SucceedStartup | internal/lsp/manager.go:468-482 | the client is offered with no references and the idle timer armed, or disposed of if the session is gone |
| Manager.Manager.Watch | internal/lsp/manager.go:553-571 | a crash clears the session's process and client and starts its backoff |
| Manager.Manager.Release | internal/lsp/manager.go:572-587 | one reference less; the last one arms the idle timer or retires a stale session |
| Manager.Manager.Invalidate | internal/lsp/manager.go:590-601 | the session is stale, in use or not, and retired if unused |
| Manager.Manager.Stop | internal/lsp/manager.go:665-681 | the idle callback removes the session unless it is gone or used |
| Manager.Manager.Close | internal/lsp/manager.go:682-709 | every session is emptied, every timer stopped, every waiter woken, and each process, client and context left to a cleanup |
| Manager.Drive | internal/lsp/manager.go:183-709 | any schedule of the methods, from a state that satisfies the invariant, is a run of the state machine |
| CoordinatorTheorems.ExclusionAndBound | internal/watch/coordinator.go:95-124 | in every run at most one generation of a project is active, and those generating are as many as the permits taken, at most the limit |
| CoordinatorTheorems.NoInvalidationLost | internal/watch/coordinator.go:71-137 | until Close begins, an invalidation has been followed by a start of its project, or an idle project has a callback on its way, or a running one has its pending flag set |
| CoordinatorTheorems.QuietMeansServed | internal/watch/coordinator.go:71-137 | a project for which nothing is in flight has had a generation started after every earlier invalidation |
| CoordinatorTheorems.Quiesces | internal/watch/coordinator.go:95-137 | whatever the schedule, at most five units of work per invalidation are done for a project, and after the last only what is in flight is left |
| CoordinatorTheorems.Coalesces | internal/watch/coordinator.go:79-92 | a project never has more generations than invalidations |
| CoordinatorBursts.BurstLeavesOneTimer | internal/watch/coordinator.go:79-92 | from any reachable state in which a project is quiet, however many invalidations arrive before a timer of it fires, and whatever else happens, exactly one callback is on its way afterwards |
| CoordinatorBursts.BurstIsOneGeneration | internal/watch/coordinator.go:71-137 | such a burst comes to at most one generation, and to exactly one once the project is quiet again without Close |
| CoordinatorBursts.InvalidationsArm | internal/watch/coordinator.go:71-93 | an invalidation adds one armed timer if and only if the project has a name, none of its generations is active and the coordinator is open |
| CoordinatorBursts.CallbacksStart | internal/watch/coordinator.go:95-108 | a fired callback starts a generation if and only if the coordinator is open and none of the project is active |
| CoordinatorBursts.PermitsAreGiven | internal/watch/coordinator.go:106-123 | a waiting goroutine may go on if and only if fewer than the limit are generating |
| CoordinatorBursts.GenerationsGenerate | internal/watch/coordinator.go:106-123 | until Close begins, no generation is over without having taken a permit |
| CoordinatorBursts.FinishesRearm | internal/watch/coordinator.go:125-137 | the end of a generation is followed by a new timer if and only if its project was invalidated after it began and Close has not |
| CoordinatorBursts.ClosingTimesNothing | internal/watch/coordinator.go:125-151 | once Close has begun no end of a generation adds a timer, and once closed nothing adds a timer or a generation |
| CoordinatorBursts.CloseStopsTimers | internal/watch/coordinator.go:140-151 | no timer that a project refers to is armed once Close has passed its loop |
| CoordinatorTheorems.WorkIsPossible | internal/watch/coordinator.go:95-137 | while anything is in flight for a project, some unit of work is enabled |
| CoordinatorTheorems.CloseIsFinal | internal/watch/coordinator.go:140-151 | when Close returns no generation runs, and none is ever started or moves again |
| CoordinatorTheorems.CloseReturns | internal/watch/coordinator.go:110-151 | once the coordinator is closed, its goroutines take at most the turns left to them, whatever happens between; when those are spent the wait group is empty, and until it is, one of them can take a turn |
| Coordinator.Coordinator.Invalidate | internal/watch/coordinator.go:71-93 | a running project is marked pending, an idle one gets a new timer and its old one is stopped |
| Coordinator.Coordinator.Start | internal/watch/coordinator.go:95-108 | a fired callback is discarded, or starts a generation |
| Coordinator.Coordinator.Finish | internal/watch/coordinator.go:125-137 | a project at rest again, or with a new timer if it was invalidated meanwhile |
| Coordinator.Drive | internal/watch/coordinator.go:71-151 | any schedule of the methods is a run of the state machine |
| WatchBackendProofs.OneReadWhileOpen | internal/watch/backend_windows.go:64-145 | in every run a watch has at most one outstanding read, in the kernel or queued, and one exactly while it is registered; handle and channel are closed at most once, the handle never during a read |
| WatchBackendProofs.NoPacketAfterRemove | internal/watch/backend_windows.go:108-135 | once a watch's channel is closed or its root has no watch, as when Remove returns without error, no packet ever refers to the watch again, even if the root has been added anew |
| WatchBackendProofs.CanceledOnlyCloses | internal/watch/backend_windows.go:167-201 | a canceled watch never becomes active again; it is closed exactly when its read has been drained |
| WatchBackendProofs.CanceledIsClosed | internal/watch/backend_windows.go:108-212 | why the wait in `Remove` ends: at most two steps, the completion of the read and the draining of its packet, stand between a canceled watch and its closed channel, which is closed exactly when they have been taken, whatever happens between them; until then one of them is enabled |
| WatchBackendProofs.CloseDrainsEverything | internal/watch/backend_windows.go:251-280 | after Close has succeeded no watch is registered and no read outstanding, forever |
| WatchBackendProofs.ReaderNeverLeavesPackets | internal/watch/backend_windows.go:147-212 | the reader exits only when every packet has been drained |
| WatchBackendLifecycle.WatchesLeaveExactlyWhen | internal/watch/backend_windows.go:167-201 | in every run a step takes a watch out of the table if and only if it drains a packet of that watch and the watch is canceled, the packet is not a completed read, or the next read cannot be started; the watch is then closed |
| WatchBackendLifecycle.WatchesKeepListening | internal/watch/backend_windows.go:192-200 | as long as a watch is registered a drained packet is followed by its next read, and it becomes canceled exactly by a removal of its root that succeeds |
| WatchBackendLifecycle.WatchesStayActive | internal/watch/backend_windows.go:108-201 | an active watch that is still registered is active, as long as no removal of its root has succeeded |
| WatchBackendLifecycle.WatchesEnterExactlyWhen | internal/watch/backend_windows.go:64-97 | a watch enters the table if and only if a root without one is added and its first read is started; it is then active, as recursive as asked for |
| WatchBackendLifecycle.NewWatch | internal/watch/backend_windows.go:64-97 | what is left by adding a known root, failing to open, and failing to read |
| WatchBackendLifecycle.RemovedExactlyWhenGone | internal/watch/backend_windows.go:251-280 | the wait of Close for a root is over exactly when that root has no watch |
| WatchBackend.RootBackend.Add | internal/watch/backend_windows.go:64-97 | an unknown or closed root gets a watch with its first read, or none if opening or reading fails |
| WatchBackend.RootBackend.Drain | internal/watch/backend_windows.go:147-212 | one packet re-arms the read of an active watch, or closes the watch |
| WatchBackend.Drive | internal/watch/backend_windows.go:64-280 | any schedule of the methods is a run of the state machine |
| DocSyncTheorems.HistoryIsLegal | internal/lsp/client.go:206-233 | whatever times out, fails or terminates, the notifications written are a legal history: open once, change only while open with consecutive versions from one, close only while open, as long as DidClose is called for open documents |
| DocSyncTheorems.ReplayIsLegality | internal/lsp/client.go:660-718 | following the set of open documents and checking each document's notifications alone accept the same histories |
| DocSyncTheorems.BookkeepingIsAccurate | internal/lsp/client.go:660-764 | between operations a live client has on its books exactly the documents and versions the server has open |
| DocSyncOutcomes.OperationsWriteWhatIsDue | internal/lsp/client.go:660-764 | on a live client, an operation carried through writes DidOpen if and only if it opens a document the server does not have open, DidChange with the next version if and only if it changes an open one, DidClose if it closes one or removes an open one, and otherwise one other message or none; then its books are again what the server has open |
| DocSyncOutcomes.MessagesGoOutInOrder | internal/lsp/client.go:158-173 | in every run all that is in the queue was queued after the message the writer holds |
| DocSyncTheorems.CloseIsLegalExactlyWhenOpen | internal/lsp/client.go:672-680 | on a live idle client, carrying the exported DidClose through keeps the history legal if and only if the document is open |
| DocSyncTheorems.ACloseTooMany | internal/lsp/client.go:672-680 | a DidClose on a client that has opened nothing leaves an illegal history |
| DocSyncTheorems.AtMostOneAfterTermination | internal/lsp/client.go:192-233 | after termination at most one more notification is ever written |
| DocSync.Client.Begin | internal/lsp/client.go:660-718 | each operation picks its message from the bookkeeping, or has nothing to send |
| DocSync.Client.Receive | internal/lsp/client.go:660-718 | the bookkeeping changes only after a successful write, and a removal goes on to its second message |
| DocSync.Client.TakeNext | internal/lsp/client.go:162-162 | the writer takes the oldest message off the queue |
| DocSync.Client.Write | internal/lsp/client.go:163-163 | it writes the message; a failing write may or may not have taken it whole |
| DocSync.Client.Answer | internal/lsp/client.go:164-168 | it answers the sender, and stops after a failure |
| DocSyncProofs.StepMerges | internal/lsp/client.go:158-173 | the writer's three steps, interleaved with everything else, amount to one step at the moment of the write |
| DocSync.Drive | internal/lsp/client.go:158-233 | any schedule of the methods is a run of the state machine |
| FramingProofs.FramesRoundTrip | internal/lsp/jsonrpc.go:34-87 | reading any sequence of written frames within the limit gives the bodies in order and consumes exactly the bytes written, whatever follows |
| FramingProofs.AcceptsExactlyTheGrammar | internal/lsp/jsonrpc.go:47-87 | a frame is read if and only if the stream starts with a message of the grammar: lines and header within their limits, the last declared length that of the body and within the maximum |
| FramingProofs.FramesAreUnambiguous | internal/lsp/jsonrpc.go:34-45 | two sequences of bodies that are written the same are the same |
| FramingProofs.LengthLineDeclares | internal/lsp/jsonrpc.go:39-39 | the printed length line is read as declaring that length |
| FramingLines.LinesSay | internal/lsp/jsonrpc.go:62-74 | a line is blank exactly if it is white space, refused as no header exactly if it has no colon, and otherwise a field: ignored unless its trimmed name is Content-Length in any case, and that declares its trimmed value, or is refused if this is no number or negative |
| Text.FoldingIgnoresCase | internal/lsp/jsonrpc.go:70 | names are taken for the same exactly if they differ at most in the case of letters |
| FramingLines.NumbersAreParsed | internal/lsp/jsonrpc.go:71 | a value is a number exactly if it is an optional sign and digits, within 64 bits |
| FramingLines.HeadersDecide | internal/lsp/jsonrpc.go:47-87 | after a whole header of lines of at most 8192 bytes, 32768 in all, the outcome is an error if no length was declared, or more than the limit, by default 8388608, or more than is there, and else the body |
| FramingLines.LastDeclarationCounts | internal/lsp/jsonrpc.go:70-74 | the length that counts is the one declared last |
| FramingLines.TooLongIsRefused | internal/lsp/jsonrpc.go:54-61 | a line over 8192 bytes, or a header that grows over 32768, is refused as too large, whatever follows |
| FramingLines.RefusedLinesEnd | internal/lsp/jsonrpc.go:62-74 | after any header lines, a line that is refused ends the message with its error, whatever follows |
| FramingLines.ErrorsAreFinal | internal/lsp/jsonrpc.go:47-87 | what has been read is read the same when more bytes follow, and so is every error but the end of the stream |
| FramingLines.AFrame | internal/lsp/jsonrpc.go:34-45 | a body of two bytes, as it is written |
| Framing.ReadHeaderLine | internal/lsp/jsonrpc.go:89-104 | a line assembled from buffer-sized slices is the stream's first line, too large, or ended, independently of the buffer; never more than the limit is held |
| Framing.ReadFrame | internal/lsp/jsonrpc.go:47-87 | the reading loop computes the specified frame or error and leaves the stream after the body |
| Framing.WriteFrame | internal/lsp/jsonrpc.go:34-45 | a successful write sends one whole frame, a failing one a beginning of it |
| Text.AtoiOfDec | internal/lsp/jsonrpc.go:71-71 | parsing the decimal print of a number that fits 64 bits gives the number |
| StdioProofs.ChunkingDoesNotMatter | internal/mcpserver/stdio.go:371-398 | frames, pending bytes and failure depend only on the bytes written, not on how they are divided into writes |
| StdioProofs.AnyTwoChunkings | internal/mcpserver/stdio.go:371-398 | two ways to divide the same bytes into writes have the same outcome |
| StdioProofs.CutKeepsStream | internal/mcpserver/stdio.go:371-398 | frames followed by what is pending are the input, and no newline is pending |
| StdioProofs.CutsLongestTerminatedPrefix | internal/mcpserver/stdio.go:371-398 | what is emitted is the longest prefix that ends in a newline |
| StdioProofs.TooLargeIffOverlong | internal/mcpserver/stdio.go:376-388 | writing fails for size if and only if some line start is followed by more than the limit without a newline |
| Stdio.JsonWriter.Write | internal/mcpserver/stdio.go:371-398 | one write emits the complete frames, each one line within the limit and together a beginning of the input; an oversized one drops what is pending; a failing sink leaves its frame and all after it pending, and with a reliable sink size is the only failure |
| Stdio.WriteChunks | internal/mcpserver/stdio.go:371-398 | any number of writes up to the first error have the outcome of one write of all their bytes |
| Stdio.ReadFrame | internal/mcpserver/stdio.go:207-227 | the next line within the limit, or exactly which error |
| Stdio.WriteAll | internal/mcpserver/stdio.go:229-244 | all of the payload through partial writes, or a beginning of it with an error |
| Stdio.ProxyResponses | internal/mcpserver/stdio.go:163-181 | only whole input frames in order reach the host; at end of input all of it has, and each kind of end says why |
| Stdio.ProxyRequests | internal/mcpserver/stdio.go:141-161 | as for responses, and every frame forwarded is valid; nothing from the first invalid frame on is forwarded |
| CallHierarchy.CallHierarchy | internal/mcpserver/server.go:347-433 | each refusal under exactly its condition; else the first candidate of the search's report that fits, well formed, within the budget, reporting only reachable items and real calls; not truncated, it is complete |
| CallHierarchy.CompleteMeansReachable | internal/mcpserver/server.go:393-433 | if keys identify calls, a complete report lists exactly the items within the depth of the roots |
| CallHierarchy.CompleteMeansAllCalls | internal/mcpserver/server.go:393-433 | a complete report's edges are, in order, all the calls of the nodes found within one call less, each leading to a listed node |
| CallCoverage.OnlyBudgetLimits | internal/mcpserver/server.go:397-432 | what a marked report still contains, before it is trimmed: of every item of every level that was expanded, each call that leads where the caller may look is listed together with its end, or nodes and edges together are at least the budget less one |
| CallCoverage.FirstLevelIsCovered | internal/mcpserver/server.go:397-432 | so it is for the calls of every root, if any depth was asked for |
| CallCoverage.DirectionsAreRight | internal/mcpserver/server.go:395-417 | a request for incoming calls follows the incoming calls of an item to those that call it, any other the outgoing calls to those it calls |
| CallCoverage.DepthsAreRight | internal/mcpserver/server.go:347-392 | preparing, no direction and no depth ask for the roots alone, both directions for levels to the depth |
| CallCoverage.CandidatesKeepTheMost | internal/mcpserver/server.go:719-739 | the candidates drop one edge after the other from the end, then one node after the other |
| CallCoverage.AllowedTogether | internal/mcpserver/server.go:891-901 | filtering keeps exactly the items that may be seen, in order, as often as they occur |
| CallMarks.MarkIsSpuriousExactlyWhen | internal/mcpserver/server.go:374-433 | a marked report misses nothing if and only if all there is may be seen and fits the budget, and either the roots fill the budget before the last of them, or there are none and only the mark makes the empty report short enough |
| CallMarks.LevelsMarkIsReal | internal/mcpserver/server.go:397-432 | a mark left below the roots is never spurious: a call leads where the caller may not see, or all there is exceeds the budget |
| CallMarks.RootsMarkExactly | internal/mcpserver/server.go:378-386 | listing the roots leaves a mark if and only if the budget is used up before the last of them |
| CallMarks.ARepeatedRootIsMarked | internal/mcpserver/server.go:378-386 | a request whose two roots are one, with a budget of one: its report is marked, and all there is |
| CallGraphProofs.ExploredIsReachability | internal/mcpserver/server.go:393-433 | breadth-first search by levels finds exactly the keys reachable in so many calls, cycles and shared callees included |
| CallGraphProofs.KeyIdentifiesRange | internal/mcpserver/server.go:902-904 | two items have the same key exactly when document and range are the same |
| CallSearchProofs.FollowLevelsReports | internal/mcpserver/server.go:397-432 | the budgeted search keeps reports well formed, sound and within nodes plus edges at most the budget |
| CallSearchProofs.LevelsMissNothing | internal/mcpserver/server.go:397-432 | a budgeted search that never marks its report agrees with the search without a budget |
| CallHierarchy.Search.AddCallNode | internal/mcpserver/server.go:905-913 | a node is appended exactly if its key has not been seen |
| CallHierarchy.Search.AddRoots | internal/mcpserver/server.go:378-386 | roots are listed once each, up to the budget |
| CallHierarchy.Search.AddCalls | internal/mcpserver/server.go:406-429 | the loop over one item's calls, which skips the hidden ones and ends only where the budget does, and the new items it found |
| CallHierarchy.Search.AddLevels | internal/mcpserver/server.go:390-432 | the loop over levels computes the specified search |
| CallHierarchy.Trim | internal/mcpserver/server.go:719-739 | the first of the ever smaller candidates that fits, or an error if none does |
| CallGraphProofs.CandidateIsWellFormed | internal/mcpserver/server.go:719-748 | every candidate keeps prefixes, drops no node while an edge remains, keeps exactly the roots still listed, and stays well formed |
| CallGraphProofs.LastCandidateIsEmpty | internal/mcpserver/server.go:719-739 | the last candidate is the empty report, so trimming fails only if that does not fit |
| CallHierarchy.FilterCalls | internal/mcpserver/server.go:891-901 | the allowed items in order, and whether any was hidden |
| FitText.FitText | internal/mcpserver/server.go:636-659 | for the repaired text, the binary search gives what plain search gives: the whole text unmarked if it fits, else the longest prefix of whole characters that fits when marked, else an error, exactly when not even the empty prefix fits |
| FitText.ValidTextIsKept | internal/mcpserver/server.go:637 | the repair leaves valid text as it is |
| FitText.StrayRunIsOneReplacement | internal/mcpserver/server.go:637 | a run of stray bytes, however long, becomes one replacement character |
| FitText.AStrayRun | internal/mcpserver/server.go:637 | two stray bytes between two letters, repaired |
| FitText.RepairKeepsCharacters | internal/mcpserver/server.go:637 | but for replacement characters, repaired text is the original's characters in order |
| FitText.FitSourceResult | internal/mcpserver/server.go:630-634 | an unmarked excerpt is the whole source, repaired, which was not truncated before |
| FitText.EncodedSizesGrow | internal/mcpserver/server.go:647-657 | sizes made of a fixed part, the mark and a cost per character grow with the prefix, as the search needs |
| FitText.WholeTextIsMarkedExactlyWhen | internal/mcpserver/server.go:636-659 | the result is the whole text, marked, if and only if the limit is one byte short of the unmarked form |
| FitText.AWholeTextIsMarked | internal/mcpserver/server.go:636-659 | one character and a limit of five bytes, for which the result is the whole text, marked |
| SymbolTree.CutIsPrefix | internal/lsp/client.go:504-523 | flattening the cut forest gives the first elements of the forest's pre-order, and the allowance left is what was not used |
| SymbolTree.CutIsPruned | internal/lsp/client.go:504-523 | what remains of the forest hangs where it hung: the trees are the first ones, each cut the same way |
| SymbolTree.LimitDocumentSymbols | internal/lsp/client.go:504-523 | the recursive cut with its shared counter computes that forest; a limit that is not positive changes nothing |
| SymbolTree.FlattenSymbols | internal/mcpserver/server.go:914-925 | the recursive walk appends the forest's pre-order |
| SymbolTree.EntriesAreSymbols | internal/mcpserver/server.go:914-925 | something is listed if and only if it is the name, kind, range and selection of a symbol at some depth of the forest |
| SymbolTree.ParentsComeFirst | internal/mcpserver/server.go:914-925 | a symbol comes right before its children, and they before what follows it |
| SymbolTree.TrimDocumentSymbols | internal/mcpserver/server.go:954-967 | the longest prefix within the size, and a mark exactly if something is missing or was before |
| SymbolTree.NeedAdds | internal/mcpserver/server.go:954-967 | the size of a listing is the sum over its items, each its name and 96 bytes |
| SymbolTree.DocumentSymbols | internal/mcpserver/server.go:305-319 | the items are a prefix of the pre-order within both limits, marked as truncated exactly if it is not all of it |
| RiderIndex.LookupWithProbes | internal/compdb/rider.go:535-547 | walking up through the index finds what plain search finds, with one probe per directory passed |
| RiderIndex.DeepestModuleIs | internal/compdb/rider.go:530-547 | plain search gives the first listed of the deepest modules over a directory, and none only if none is over it |
| RiderIndex.NewRiderModuleIndex | internal/compdb/rider.go:519-528 | each directory key leads to the first module listed with it |
| RiderPaths.KeysCompareTexts | internal/compdb/rider.go:549-555 | keys are equal exactly when the paths' texts are, on Windows without regard to case |
| RiderPaths.CoversIsAncestor | internal/compdb/rider.go:535-547 | a directory is over a path if and only if going up from the path leads to it, up to its key |
| RiderRoots.RiderModuleWalkRoots | internal/compdb/rider.go:557-587 | roots are module directories, none over another, with every module directory under one, shorter texts first |
| RiderRoots.NoFileIsReachedTwice | internal/compdb/rider.go:557-587 | no path is under two roots |
| RiderRoots.WalkRootsAreMinimal | internal/compdb/rider.go:557-587 | any choice of module directories that reaches every module contains each root up to its key |
| Registry.StableId | internal/app/app.go:173-192 | the first candidate no project has up to case, found within one more than there are projects |
| Registry.CandidatesDiffer | internal/app/app.go:173-192 | no two candidate IDs are alike, even up to case |
| Registry.CandidatesAreNumbered | internal/app/app.go:173-192 | the first candidate is the base itself, the next ones are numbered from two |
| Registry.BasesAreReadable | internal/app/app.go:173-192 | the base is the trimmed name in small letters with a dash for each blank, or "project" if nothing is left |
| Registry.Add | internal/app/app.go:153-164 | adding under a fresh ID keeps the registry valid; it fails only for the new project's paths, and then changes nothing |
| Registry.NormalizeAndValidate | internal/registry/model.go:76-118 | in place, every project is normalized, or the error is that of the first project that has one |
| Registry.NoErrorMeansValid | internal/registry/model.go:76-118 | there is no error exactly when IDs are present and differ, and paths resolve and differ, up to case |
| Registry.ErrorsSayWhatIsWrong | internal/registry/model.go:76-118 | an error is reported if and only if it is what is wrong with the first project with which anything is: a path that does not resolve, no ID, the ID of another, the path of another, looked for in this order |
| Registry.NormalizesEachPath | internal/registry/model.go:97-140 | a project is normalized to the one with each of its paths resolved, an empty path being kept, and all else as it was |
| Registry.AcceptedStaysAccepted | internal/registry/model.go:76-118 | what was accepted and normalized is accepted again unchanged |

## Left out

- Process spawning, pipes, system calls, file locks, real file-system walks and symlink resolution: they appear as steps with any outcome, or as parameters.
- Wall-clock time: an abstract clock that moves forward by any amount; timers may fire at any moment after they are armed, and a startup or send may time out at any moment.
- Decoding and encoding of JSON, validation of request IDs, hashing, URL parsing: sizes and validity are parameters. Bytes are modelled as characters.
- Creating the client and publishing the process are one step of `Manager`, and so are a goroutine's last critical section and its leaving the wait group.
- Liveness of startup waiters after their session was retired: the code does not promise it; what holds is stated by `ManagerTheorems.FinishedStartupsWake`.
- Unicode: case folding and white space are those of ASCII. For the header name this is exact, because none of its letters has a non-ASCII fold.
- Path containment checks: `allowed` is a parameter of the call graph, and module directories are taken as already canonical, clean and absolute, with a volume and names; the separator is written as a backslash on every platform.
- Permission and project lookup before a call-hierarchy or document-symbol request, and the request timeout: a query that times out is a failing query.
- CallHierarchy.CompleteMeansReachable: assumes that items with the same key have the same calls, as the server's keys do; without that, `CallHierarchy.CompleteMeansAllCalls` still holds.
- FitText.FitText: assumes that encoded size does not shrink as the text grows, which `FitText.EncodedSizesGrow` derives from the shape of the encoding.
- RiderRoots.RiderModuleWalkRoots: assumes clean directories, without empty names, as canonicalization leaves them. The library sort is replaced by an insertion sort with the same order.
- Framing.WriteFrame: assumes a transport that reports short writes as failures, as Go's io.Writer promises; the reports of `Stdio` do not assume it.
- The checks of a file before it is opened as a document: a refused document is an operation that never begins.
- Registry.Add: assumes that resolving a resolved path changes nothing, and starts from a registry as loading leaves it.
- Fields of a project that are only carried along, persistence of the registry, and everything about command-line parsing, engine discovery, toolchains, the daemon, diagnostics and the engine index: shallow branching or input and output.
