# Nessie: durable execution, local inference, drafts and framings, in Dafny

A model of the parts of Nessie in which correctness depends on more than one function: protocols that survive crashes,
races between processes or between `await`s, a tree that crosses a channel as a flat listing, and byte streams cut up
arbitrarily. Every property is stated for all inputs, all runs or all interleavings.

How the modules fit the system:

- **Durable command execution** — `CommandLane` is the executor's command lane as a machine of atomic steps over the
  durable journal, the sidecar folders, the server's receipts and the one fact a running pass has learned since its last
  durable write. A crash, a thrown error, a lost response or a save of unknown outcome may fall between any two steps.
  `LaneSafety` is its invariant, `LaneTheorems` its promises over every run, and `LaneReports` what it reports of an
  execution and why. `CommandRecovery` is the recovery pass as the executor writes it, a class whose methods are proved to
  take only steps of that machine, whatever the server and the disk do at each `await`. `Outcomes` is the result
  document; `PassGate` is the guard against overlapping passes.
- **Local inference** — `MutationLock` is the file lock with recovery from a dead owner, over any number of processes;
  `MutationLockClient` is one call of `mutate` in the middle of them. `InferencePool` and `InferencePoolSafety` are the
  control file and sixteen slots behind that lock; `LocalInferenceCoordinator` is the class that works on them.
- **Workspace drafts** — `DraftTree` defines the host's merge and the pre-order listing and proves that replaying the
  listing is the merge; `DraftOverlay` says what an overlay means and where the merge is one; `DraftPaths` is the host's
  reading of guest paths; `DraftTransfer` is the guest's walk, pages and chunks; `DraftDisk` and `DraftIngest` are the
  host's filesystem calls and its ingest loop against any guest.
- **Guest sessions** — `GuestSessions` is the open, cancel and stop protocol the three session managers share;
  `GuestSessionManager` is the manager that runs it between other calls.
- **Byte streams** — `Bytes`, `ControlFrames` and `ControlChannel` (the guest control channel, both ends),
  `NativeMessages` (Chrome native messaging), `BrowserFrames` (WebSocket frames by sections 5.2, 5.3 and 5.5 of
  RFC 6455) and `VoiceCapture` (the fractional decimator).
- **Reviewed sources** — `SourceSnapshot` (inventory, accounting, paging, reading) and `ExecutionSource` (laying a
  snapshot out as a tree, and recognising it).
- **Push notifications** — `PushOwner` and `PushWorker`: whose notifications a service worker shows while owners change.

Concurrency is modelled as steps between `await`s (or between filesystem calls, for the lock). In the
classes that run such a machine, a method lets everybody else take any number of enabled steps at each `await`, except
behind the mutation lock, where the coordinator's methods run alone; `Valid` says that everything so far is a run of the
machine, so what its theorems say holds of the class at every moment.

## Where the code does not do what one would expect

Each of these is a lemma with a concrete input. Next to it stands a theorem that says exactly when the code does meet the
property; for the reused inode, the late cancellation and the rejected handler the theorem is a condition under which it
does (`MutualExclusion`) or a bound on what can go wrong (`LiveGuestsBound`, `TrayIsTheOwners`).

- A poll the executor gave up on can reach the server after a later poll handed the command out. If the command cannot
  be delivered by then, the server settles it, and the executor's own result is fenced on every pass from then on: the
  lane is stuck (`LateSettlementFences`, `FencedForGood`). A result receipt is fenced in this case only
  (`ResultReceiptFencedExactly`), and the command never ran (`SettledCommandsNeverRan`).
- An `execute` that returned `{}` would leave, after a crash at the wrong moment, a journal no later pass can read: the
  lane is wedged for good (`EmptyResultWedges`, `WedgedForGood`); nothing else makes it unreadable
  (`UnreadableOnlyForEmptyResult`). Only the interface admits that answer: no branch of `executeExecutorCommand`
  (executor/src/daemon.ts:198-420) returns it.
- Mutual exclusion of the mutation lock needs the file system not to reissue an inode number while a recovery compares
  against it (`ReusedInodeAdmitsTwo`).
- A draft file whose name begins with a space lands under another name, and a top-level name that merely begins with two
  dots is refused as outside the workspace (`LeadingSpaceIsMisread`, `LeadingDotsAreRefused`). The host reads back
  exactly the plain paths (`ReadsBackExactlyPlain`). The same spelling rule makes a snapshot with such a file
  impossible to materialise (`Workspace.Materialize`).
- A draft entry that changed its kind since an earlier flush is refused instead of laid over: once a directory was
  brought, replacing it by a file makes every later flush fail (`KindChangeIsRefused`). The host's merge is the overlay
  exactly where no such clash occurs (`MergeAllExactly`, `MergeAllClashFree`).
- An opening cancelled after the last look before the `finally` no longer counts against the limit while its guest is
  still being stopped, so more guests than the limit can run (`LateCancellationOverlaps`, bounded by `LiveGuestsBound`).
- Bytes before the ready line of the control channel are not independent of chunking (`ReadyLineNeedsRoom`).
- A malformed native message takes along the good messages of its chunk (`MalformedTakesItsChunkAlong`).
- The guest misreads browser messages longer than 65535 bytes instead of refusing them (`ServerFrameReadsBack`), and
  reads frames with reserved bits set or with a length in more octets than it needs, both of which section 5.2 forbids
  (`ReservedBitsAreRead`, `LongerLengthsAreRead`). What it reads is what that section reads exactly outside these three
  cases (`ReadsAsTheStandard`). It also answers pings longer than section 5.5 allows (`LongPingsAreAnswered`).
- A failed badge update skips the push handler's second look at the owner, and another person's notification can stay
  up (`RejectionLeavesAnothersNote`).

`coverageFor` has a parameter for a dirty working tree, but its one caller passes `false` and notes the changes
afterwards (executor/src/deeptest-source-snapshot.ts:359-360): the coverage of a dirty tree's snapshot can be complete,
and `Consistent` says exactly that. The comment above `verifyDeepTestExecutionSource` speaks of precisely the admitted
files and bytes; the code also accepts directories that lead to admitted files and refuses all others, and `Exactly`
says that.

## Model

| member | source | states |
|---|---|---|
| `LaneTheorems.ExecutedAtMostOnce` | executor/src/command-recovery.ts:211-263 | Over every run with crashes, failed saves, lost responses and thrown executions at any step, a command is executed at most once. |
| `LaneTheorems.NoSecondExecution` | executor/src/command-recovery.ts:204-210 | The same of the history itself: no two calls of one command anywhere in it. |
| `LaneTheorems.SentResultsAreAccounted` | executor/src/command-recovery.ts:257-305 | Every result ever sent is the unknown outcome, the refused replacement, or the single answer of the single execution minus withdrawn images. |
| `LaneTheorems.RecordedResultsAreAccounted` | packages/executor-manage/src/executor-command-results.ts:57-121 | So is every result the server recorded, and the server holds each image it references. |
| `LaneReports.ResultsHaveOrigins` | executor/src/command-recovery.ts:257-305 | Every result journaled, sent or recorded has its own cause in the history: the answer with each missing image explained, a refusal that was heard, or a fence or an abandoned execution. |
| `LaneReports.AnswerIsReported` | executor/src/command-recovery.ts:257-305 | Once what an execution returned was journaled, every result journaled or recorded over any run from there is that answer minus images withdrawn for the reason given, or the replacement after the server was heard to refuse the result. |
| `LaneReports.UnknownHasCause` | executor/src/command-recovery.ts:237-263 | The unknown outcome is journaled only after a replay fence was heard, or when a pass found `executing` left by an earlier one, or if `execute` returned it. |
| `LaneTheorems.SettledCommandsNeverRan` | packages/executor-manage/src/executor-commands.ts:61-77 | A command the server settled by itself was never executed, even if a poll had handed it out; the only receipts ever sent for it are accepted and the unknown outcome. |
| `LaneTheorems.ReceiptsFollowTheProtocol` | executor/src/command-recovery.ts:228-289 | Receipts of one command go out as accepted+, started+, result+; only a replay fence cuts this short to result+. |
| `LaneTheorems.ResultReceiptFencedExactly` | packages/executor-manage/src/executor-command-results.ts:46-105 | In every reachable state the journaled result's receipt is fenced if and only if the server had settled the command by itself with another result; it is refused exactly for its shape, and never for missing images. |
| `LaneTheorems.FencedResultIsFenced` | executor/src/command-recovery.ts:284-305 | A fenced result receipt always means that: the journal holds the unknown outcome and the server another result. |
| `LaneTheorems.FencedForGood` | executor/src/command-recovery.ts:284-305 | No step of the executor or the server leads out of it. |
| `LaneTheorems.LateSettlementFences` | packages/executor-manage/src/executor-commands.ts:61-77 | Such a state is reachable: a poll the executor gave up on settles a command a later poll has handed out. |
| `LaneTheorems.StandingNeverFalls` | executor/src/command-recovery.ts:228-306 | No step, crash or failed save takes a command's durable standing back. |
| `LaneTheorems.PhaseNeverMovesBack` | executor/src/command-recovery.ts:228-306 | Between any two moments of a run the journaled phase only advances, and a cleared entry never comes back. |
| `LaneTheorems.UnreadableOnlyForEmptyResult` | executor/src/command-recovery.ts:82-104 | The journal is unreadable exactly when it holds `{}` as a result, which only an execution returning `{}` puts there. |
| `LaneTheorems.WedgedForGood` | executor/src/command-recovery.ts:153-162 | From such a state no step of the executor or the server leads anywhere else. |
| `LaneTheorems.EmptyResultWedges` | executor/src/command-recovery.ts:257-263 | It is reachable for an `execute` that returns `{}`, which the interface admits, and a crash right after it was journaled. |
| `LaneTheorems.ImageSettledOncePerLoss` | executor/src/command-attachments.ts:243-291 | An image is answered, refused or given up once, plus once for every such answer a crash or failed save forgot. |
| `LaneTheorems.OwedImagesHaveSidecars` | executor/src/command-attachments.ts:110-123 | Every image the journal still owes has its sidecar on disk, unless the disk lost it. |
| `LaneReports.ExpiredOnlyAfterExpiry` | executor/src/command-attachments.ts:264-281 | Over every run an image is marked as expired only on an attempt begun at or after the command's expiry. |
| `LaneReports.StoredStaysReferenced` | executor/src/command-attachments.ts:282-288 | An image counted as delivered was stored, and the journaled result still references it unless the server refused the whole result. |
| `LaneTheorems.SweepKeepsOnlyTheJournaled` | executor/src/command-attachments.ts:97-138 | The start's sweep leaves the journaled command's folder whole and of every other only what could not be removed. |
| `LaneTheorems.ReleaseRemovesFolder` | executor/src/command-recovery.ts:306-310 | After the journal let go, the release removes the command's folder; if the process dies before it, the next sweep does. |
| `LaneTheorems.FolderStaysGone` | executor/src/command-recovery.ts:306-310 | A finished command's folder never reappears. |
| `LaneSafety.InvKept` | executor/src/command-recovery.ts:211-313 | Every step keeps journal, server, history, results, images, sidecars and uploads consistent with each other. |
| `LaneSafety.ReachableKeeps` | executor/src/command-recovery.ts:211-313 | So every reachable state is consistent. |
| `Outcomes.ReferencesExact` | executor/src/mcp-images.ts:217-228 | The references of a result are exactly the images it carries, each once. |
| `Outcomes.WithdrawReferences` | executor/src/mcp-images.ts:230-252 | Withdrawing an image removes its reference and no other. |
| `Outcomes.WithdrawTrims` | executor/src/mcp-images.ts:235-252 | A result with an image withdrawn is still the execution's result minus images, and names that image nowhere. |
| `CommandRecovery.Executor.Load` | executor/src/command-recovery.ts:153-162 | Answers the journaled entry, or nothing, or throws; without a fault it throws only for an entry that does not parse; meanwhile the server moves only forward and sidecars are only lost. |
| `CommandRecovery.Executor.Save` | executor/src/command-recovery.ts:163-180 | Replaces the journal atomically; a failed save leaves the old entry or the new one, whatever the server and the disk do meanwhile. |
| `CommandRecovery.Executor.ClearJournal` | executor/src/command-recovery.ts:144-152 | Removes the entry; meanwhile no result the server holds changes. |
| `CommandRecovery.Executor.Poll` | packages/executor-manage/src/executor-commands.ts:84-155 | Polls only with an empty journal; without a fault a polled command is one the server holds leased. |
| `CommandRecovery.Executor.SendReceipt` | packages/executor-manage/src/executor-command-results.ts:46-121 | What was sent is the journaled phase's receipt; a heard reply is the server's verdict on it; an unheard one ends the pass. |
| `CommandRecovery.Executor.Execute` | executor/src/command-recovery.ts:257-260 | Runs only right after this pass journaled `executing`; its result references only images whose sidecars were written, whether or not they were lost since. |
| `CommandRecovery.Executor.UploadImage` | executor/src/command-attachments.ts:264-281 | Stored, refused, or unanswered: an unanswered upload ends the pass before the expiry and withdraws the image after it; the server may time the command out and the sidecar may vanish while it runs. |
| `CommandRecovery.Executor.DeliverImage` | executor/src/command-attachments.ts:258-289 | Settles exactly this image as its reply says: stored and still referenced, or withdrawn as refused, lost or expired; nobody answering an upload begun before the expiry ends the pass, deferred or thrown, with the journal as it was. |
| `CommandRecovery.Executor.JudgeImage` | executor/src/command-attachments.ts:258-281 | What is to be journaled of the image, by the clock read before the attempt. |
| `CommandRecovery.Executor.JournalProgress` | executor/src/command-attachments.ts:282-288 | The journaled progress settles exactly this image. |
| `CommandRecovery.Executor.Deliver` | executor/src/command-attachments.ts:243-291 | On return every undelivered image was settled by one attempt in the way its reply says, none of them an unanswered one begun before the expiry; a deferred pass leaves journaled exactly what was settled before. |
| `CommandRecovery.Executor.ReleaseImages` | executor/src/command-recovery.ts:310 | Without a fault the command's folder is gone; a failure is swallowed. |
| `CommandRecovery.Executor.SweepAttachments` | executor/src/command-attachments.ts:127-138 | A journal that cannot be read removes nothing; otherwise the journaled command's folder loses only what the disk itself loses, and every other is gone unless a removal failed. |
| `CommandRecovery.Executor.Accept` | executor/src/command-recovery.ts:228-240 | Leaves `started_pending`, or the unknown outcome when fenced, or ends the pass; without faults a leased command is accepted. |
| `CommandRecovery.Executor.StartCommand` | executor/src/command-recovery.ts:242-255 | Journals `executing` and arms this pass, or the unknown outcome when fenced, or ends the pass. |
| `CommandRecovery.Executor.ExecuteOrGiveUp` | executor/src/command-recovery.ts:257-263 | An armed pass executes and journals exactly what was returned; an unarmed one journals the unknown outcome. |
| `CommandRecovery.Executor.ReportResult` | executor/src/command-recovery.ts:284-305 | Ends with the journaled result recorded by the server, or the replacement exactly where it is not acceptable, so the journal may be cleared; or ends the pass: by a fault, or because the server had settled the command. |
| `CommandRecovery.Executor.ReportReplacement` | executor/src/command-recovery.ts:291-304 | The replacement is journaled before it is sent. |
| `CommandRecovery.Executor.Report` | executor/src/command-recovery.ts:265-312 | Without faults the command ends recorded, cleared and released; what is recorded is the delivered result, or the replacement exactly where that is not acceptable. |
| `CommandRecovery.Executor.Resume` | executor/src/command-recovery.ts:228-263 | From any journaled phase to a journaled result of the same command, or the pass ends; without faults a leased command's journaled result is what its execution returned. |
| `CommandRecovery.Executor.RecoverOrPoll` | executor/src/command-recovery.ts:211-313 | A pass without faults over a readable journal, whose command the server has not settled by itself, empties the lane; it finishes the command a poll handed it, and of that the server recorded what its execution returned, minus images, or the replacement exactly where that was not acceptable. A finished command's recorded result is accounted for. |
| `CommandRecovery.Executor.Live` | executor/src/daemon.ts:518-533 | Any number of daemon lives, each sweeping and making passes one after another, keep at-most-once execution and delivery. |
| `PassGate.PassesNeverOverlap` | executor/src/daemon.ts:518-533 | At any moment at most one pass is running. |
| `PassGate.Gate.Run` | executor/src/daemon.ts:518-533 | Joins the pass in flight, or starts one when none is running. |
| `PassGate.Gate.Finally` | executor/src/daemon.ts:526-528 | A finished pass frees the gate only if no later pass holds it. |
| `MutationLock.MutualExclusion` | executor/src/local-inference-coordinator.ts:270-295 | At most one live call is inside the body, for any interleaving of processes, deaths and recoveries. |
| `MutationLock.RecoveryRemovesOnlyTheDead` | executor/src/local-inference-coordinator.ts:297-314 | When a recovery unlinks the lock, its recorded owner is dead and no live call holds it. |
| `MutationLock.OwnerUnlinksItsOwn` | executor/src/local-inference-coordinator.ts:284-289 | A live call's own file is still at the path when it leaves. |
| `MutationLock.ReusedInodeAdmitsTwo` | executor/src/local-inference-coordinator.ts:303-308 | If an inode number is reissued during a recovery, two live calls can be inside. |
| `MutationLockClient.Directory.Mutate` | executor/src/local-inference-coordinator.ts:270-295 | However others move in between, a call that returns ran its body at a moment when no other live call was inside; any end leaves the caller outside, or its process dead. Alone, it gives up exactly for a lock no recovery can remove, and otherwise leaves the lock free once the body ran. |
| `MutationLockClient.Directory.RunHolding` | executor/src/local-inference-coordinator.ts:281-290 | Having created the file, the call writes it, runs its body alone and gives the lock up, or fails or dies before. |
| `MutationLockClient.Directory.Leave` | executor/src/local-inference-coordinator.ts:285-289 | From inside, alone, the call unlinks its own file. |
| `MutationLockClient.Directory.Recover` | executor/src/local-inference-coordinator.ts:297-314 | A recovery gives its own guard up again; alone, it removes the lock exactly if the recorded owner is dead and no other recovery is under way. |
| `InferencePoolSafety.AdmissionIsGuarded` | executor/src/local-inference-coordinator.ts:171-203 | The number of occupied slots grows only by an admission, from an unpaused, healthy resource below capacity. |
| `InferencePoolSafety.OccupancyWithinGrants` | executor/src/local-inference-coordinator.ts:185-197 | If no sync ever grants more than a bound, no more slots are ever occupied. |
| `InferencePoolSafety.NothingBoundIsForgotten` | executor/src/local-inference-coordinator.ts:55-60 | A bound request still occupies its slot, or its confirmed termination was submitted; process death frees nothing. |
| `InferencePoolSafety.UnconfirmedStaysOccupied` | executor/src/local-inference-coordinator.ts:234-248 | Requests bound and not yet confirmed to the server fill as many slots as there are of them. |
| `InferencePoolSafety.UnaccountedWithinGrants` | executor/src/local-inference-coordinator.ts:185-197 | Over any run there are never more of them than the largest capacity granted. |
| `InferencePoolSafety.TokensBindOnce` | executor/src/local-inference-coordinator.ts:216-219 | Each owner token binds at most once, however many leases carry it. |
| `InferencePoolSafety.OnlyBoundIsSubmitted` | executor/src/local-inference-coordinator.ts:234-240 | Every submitted termination was bound by that owner. |
| `InferencePoolSafety.ControlOnlyAdvances` | executor/src/local-inference-coordinator.ts:113-127 | The control revision never falls and an enrolled resource never changes. |
| `InferencePoolSafety.PauseHolds` | executor/src/local-inference-coordinator.ts:129-138 | After an offline pause nothing is admitted until a resume or an acknowledged pause, and the slots only drain. |
| `InferencePoolSafety.PendingPauseIsPaused` | executor/src/local-inference-coordinator.ts:119-134 | A pending pause is always in force. |
| `LocalInferenceCoordinator.Coordinator.SyncControl` | executor/src/local-inference-coordinator.ts:113-127 | Another resource is refused, a stale revision changes nothing, and an unacknowledged pause outlives the sync. |
| `LocalInferenceCoordinator.Coordinator.PauseOffline` | executor/src/local-inference-coordinator.ts:129-134 | Pauses at once and leaves the pause pending; nothing else changes. |
| `LocalInferenceCoordinator.Coordinator.ResumeOffline` | executor/src/local-inference-coordinator.ts:136-138 | Only leaves the resume pending. |
| `LocalInferenceCoordinator.Coordinator.IsHealthy` | executor/src/local-inference-coordinator.ts:161-169 | Healthy exactly when no slot is unreadable, uncertain, or running for a dead process. |
| `LocalInferenceCoordinator.Coordinator.Survey` | executor/src/local-inference-coordinator.ts:189-197 | Counts the occupied slots and finds the first empty one. |
| `LocalInferenceCoordinator.Coordinator.FindReclaimable` | executor/src/local-inference-coordinator.ts:176-184 | Finds a poll token of the same host whose process is gone, exactly if there is one. |
| `LocalInferenceCoordinator.Coordinator.Acquire` | executor/src/local-inference-coordinator.ts:171-203 | Takes over such a token with the new process in it whenever there is one, or admits one slot under capacity, or answers nothing; it answers nothing only when it may not admit, and no other slot changes. |
| `LocalInferenceCoordinator.Coordinator.Abandon` | executor/src/local-inference-coordinator.ts:213-215 | A fenced lease changes nothing; a reserved slot is left to the next poll. |
| `LocalInferenceCoordinator.Coordinator.BindRequest` | executor/src/local-inference-coordinator.ts:216-219 | Succeeds exactly for an unfenced, still reserved slot, and is durable before anything is invoked. |
| `LocalInferenceCoordinator.Coordinator.FinishRequest` | executor/src/local-inference-coordinator.ts:220-225 | Succeeds exactly for an unfenced, bound slot and records the confirmation. |
| `LocalInferenceCoordinator.Coordinator.Release` | executor/src/local-inference-coordinator.ts:226-229 | Frees exactly an unfenced slot that was never bound. |
| `LocalInferenceCoordinator.Coordinator.ConfirmAllStopped` | executor/src/local-inference-coordinator.ts:140-159 | Succeeds exactly if no live host owns a slot; bound slots become confirmed, others are freed, and a refusal stops midway. |
| `LocalInferenceCoordinator.Coordinator.FlushTerminations` | executor/src/local-inference-coordinator.ts:233-248 | With other hosts moving at each await, every settled termination it read was submitted, no bound request was forgotten, and a token read as confirmed is gone unless the second look found it unconfirmed; alone, it frees exactly the confirmed slots and the occupancy falls by their number. |
| `LocalInferenceCoordinator.Coordinator.FlushSlot` | executor/src/local-inference-coordinator.ts:234-247 | One slot of it; alone, a confirmed slot is free afterwards and any other as before. |
| `DraftTree.ReplayIsMerge` | executor/src/guest-draft-ingest.ts:113-131 | Replaying the pre-order listing is the recursive merge with the host's refusals: the same tree, refused for exactly the same pairs of trees. |
| `DraftTree.ReplayUnder` | executor/guest/drafts_linux.go:45-89 | Replaying what lies below one directory changes that directory alone. |
| `DraftTree.MergeAllPointwise` | executor/guest/drafts_linux.go:60-111 | Each name is merged on its own, so the order of siblings does not matter. |
| `DraftTree.MergeAllTwice` | executor/src/guest-draft-ingest.ts:38-55 | Merging an unchanged draft a second time changes nothing. |
| `DraftOverlay.MergeIsOverlay` | executor/src/guest-draft-ingest.ts:38-102 | Where one name merges, what stands there is the upper node laid over the lower one. |
| `DraftOverlay.MergeAllClashFree` | executor/src/guest-draft-ingest.ts:38-102 | It is refused if and only if an upper file meets a host directory or link, or a plain upper directory meets a host node that is none. |
| `DraftOverlay.MergeAllExactly` | executor/src/guest-draft-ingest.ts:38-102 | The host's merge is the overlay of the draft, which refuses nothing, exactly where nothing clashes. |
| `DraftOverlay.KindChangeIsRefused` | executor/src/guest-draft-ingest.ts:57-102 | A directory brought by one flush and replaced by a file makes every later flush fail. |
| `DraftPaths.ReadsBackExactlyPlain` | executor/src/workspace-paths.ts:13-46 | The host reads a joined path back to the names the guest meant exactly when the path is plain. |
| `DraftPaths.LeadingSpaceIsMisread` | executor/src/workspace-paths.ts:26-29 | The guest's name " a" is read as "a". |
| `DraftPaths.LeadingDotsAreRefused` | executor/src/workspace-paths.ts:13-16 | The guest's top-level name "..a" is refused as outside. |
| `DraftDisk.ApplyBySetting` | executor/src/guest-draft-ingest.ts:38-64 | Where the path resolves, each kind of entry does what the filesystem calls of its branch do. |
| `DraftDisk.ApplyNeedsDirectories` | executor/src/workspace-paths.ts:104-119 | Where an existing parent is not a directory, every entry is refused. |
| `DraftDisk.Disk.ResolveParents` | executor/src/workspace-paths.ts:93-121 | Accepts a path exactly if every existing parent is a real directory. |
| `DraftDisk.Disk.ApplyDirectory` | executor/src/guest-draft-ingest.ts:38-55 | Opaque drops what was there, plain keeps a directory and refuses anything else; a refusal changes nothing. |
| `DraftTransfer.DraftReader.Walk` | executor/guest/drafts_linux.go:48-116 | Succeeds exactly if every visited name meets the walk's limits, and then lists the whole layer in pre-order. |
| `DraftTransfer.DraftReader.Visit` | executor/guest/drafts_linux.go:51-111 | Appends one directory's listing to what is already listed. |
| `DraftTransfer.DraftReader.Scan` | executor/guest/drafts_linux.go:118-145 | Answers the page of the listing at the cursor. |
| `DraftTransfer.DraftReader.Open` | executor/guest/drafts_linux.go:147-173 | Opens exactly the file the path names, if it names one. |
| `DraftTransfer.DraftReader.Read` | executor/guest/drafts_linux.go:175-205 | Answers the chunk at the offset and whether it is the last. |
| `DraftTransfer.PagesCoverTheListing` | executor/guest/drafts_linux.go:118-145 | Concatenated, the pages are the listing: every entry once, in order. |
| `DraftTransfer.ChunksCoverTheFile` | executor/guest/drafts_linux.go:195-204 | Concatenated, the chunks are the file. |
| `DraftTransfer.AdmittedListingIsShort` | executor/guest/drafts_linux.go:70-72 | A draft the walk admits never exceeds the host's file limit. |
| `DraftIngest.ListingMeansMerge` | executor/src/guest-draft-ingest.ts:113-131 | For a plain draft, what the wire listing does on the host is the merge. |
| `DraftIngest.OddNameIsNotMerged` | executor/src/guest-draft-ingest.ts:120-121 | A draft with a file named " a" is not merged but written elsewhere. |
| `DraftIngest.ValidatedIsInside` | executor/src/workspace-paths.ts:26-46 | A path that passes the host's check names something strictly inside the folder, no part of it empty, `.` or `..`, and not in the promotion journal. |
| `DraftIngest.Ingester.ReadWhole` | executor/src/guest-draft-ingest.ts:70-93 | Ends against every guest; against a faithful one it reads the whole file, exactly if it fits the limit. |
| `DraftIngest.Ingester.ApplyFile` | executor/src/guest-draft-ingest.ts:57-102 | Writes the file's bytes into place or leaves the tree as it was. |
| `DraftIngest.Ingester.IngestEntry` | executor/src/guest-draft-ingest.ts:115-130 | Makes at most one update, at the path the entry's spelling was validated to, and counts the bytes it wrote; for a faithful guest it is the update the entry means. |
| `DraftIngest.Ingester.IngestPage` | executor/src/guest-draft-ingest.ts:115-131 | One page within the two limits, or a refusal only for a listing that exceeds them or does not replay; every update is at a validated path and its bytes are counted. |
| `DraftIngest.Ingester.Ingest` | executor/src/guest-draft-ingest.ts:107-138 | Ends against every guest after at most 10 000 updates at validated paths that wrote at most twice the byte limit, and at most the limit if it completes; over an unchanged draft it completes exactly when the draft is admitted, replays and fits. |
| `DraftIngest.Ingester.IngestPlain` | executor/src/guest-draft-ingest.ts:107-138 | Over an unchanged plain draft a completed ingest leaves the overlay, and it completes exactly when the walk admits the draft, nothing clashes and the bytes fit. |
| `DraftIngest.Ingester.IngestAgain` | executor/src/guest-draft-ingest.ts:107-138 | Flushing the same draft again completes and changes nothing. |
| `GuestSessions.CapacityHolds` | executor/src/browser-session-manager.ts:94-98 | In every state active plus opening sessions stay within the limit, and no run is both. |
| `GuestSessions.OneStartPerRun` | executor/src/browser-session-manager.ts:93-149 | A run id starts at most one guest, ever. |
| `GuestSessions.CancelledNeverActive` | executor/src/browser-session-manager.ts:174-182 | An opening cancelled before its activation is never active afterwards. |
| `GuestSessions.StopCancelsOpening` | executor/src/browser-session-manager.ts:79-87 | A stop, or stopping everything, cancels whatever is opening. |
| `GuestSessions.EndedRunsAreClean` | executor/src/browser-session-manager.ts:119-177 | An open that ended without a session stopped its guest and released its lease, unless a stop or release failed. |
| `GuestSessions.ClosedSessionsAreClean` | executor/src/command-session-manager.ts:159-164 | A session that was stopped or whose guest exited is cleared and its lease released by the `closed` handler, unless the release fails. |
| `GuestSessions.LiveGuestsBound` | executor/src/browser-session-manager.ts:169-177 | Running guests exceed the limit only by openings cancelled too late or whose stop failed. |
| `GuestSessions.LateCancellationOverlaps` | executor/src/browser-session-manager.ts:158-177 | With a limit of one, a late cancellation lets two guests run at once. |
| `GuestSessionManager.SessionManager.Start` | executor/src/command-session-manager.ts:82-170 | Whatever others do at each await: a used run id or a full manager changes nothing; otherwise it opens exactly if no call threw, the lease verified where that is asked, the guest was suitable and nobody cancelled, and else leaves a clean slate. |
| `GuestSessionManager.SessionManager.Guest` | executor/src/coding-session-manager.ts:60-155 | From the start of the guest on it opens exactly if no call threw, the guest was suitable and nobody cancelled. |
| `GuestSessionManager.SessionManager.OpenBrowser` | executor/src/browser-session-manager.ts:90-200 | Opens exactly if, besides, the page could be shown; a session that cannot show its page is stopped again. |
| `GuestSessionManager.SessionManager.Stop` | executor/src/browser-session-manager.ts:79-87 | Cancels an opening; an active session is cleared and its guest dead, or marked faulted; says whether there was either, whatever others do while it waits. |
| `GuestSessionManager.SessionManager.StopAll` | executor/src/browser-session-manager.ts:243-250 | With others moving at each await: what was opening at the call is cancelled at once and over at the return, and a run active at the return began after the call or its stop failed. |
| `Bytes.LengthsReadBack` | executor/src/guest-vm-control.ts:96-98 | Both 32-bit length prefixes read back. |
| `Bytes.OctetsInOrder` | executor/src/guest-vm-control.ts:96-98 | The network prefix has its most significant octet first, Chrome's its least significant one. |
| `Bytes.Base64RoundTrip` | executor/src/guest-vm-control.ts:71-76 | Base64 text reads back to the bytes it encodes. |
| `Bytes.LettersInOrder` | executor/src/guest-vm-control.ts:71-76 | The alphabet of RFC 4648, section 4. |
| `Bytes.KnownTexts` | executor/src/guest-vm-control.ts:71-76 | Texts of RFC 4648, section 10. |
| `ControlFrames.RequestFits` | executor/src/guest-vm-control.ts:88-100 | A request fits its frame exactly up to 49 077 payload bytes, so every payload the channel admits fits and the encoder never throws. |
| `ControlFrames.ResponseFits` | executor/guest/protocol.go:121-128 | Every payload the guest agrees to send fits its frame. |
| `ControlFrames.TextIsInjective` | executor/src/guest-vm-control.ts:89-94 | No two messages, of either kind, have the same text. |
| `ControlFrames.KnownRequest` | executor/src/guest-vm-control.ts:89-94 | The text of a known request, its fields, their order and the version. |
| `ControlFrames.FrameReadsBack` | executor/guest/protocol.go:93-106 | A frame followed by anything reads back to its body. |
| `ControlFrames.ReadingSplitsTheStream` | executor/guest/protocol.go:93-106 | Whatever is read is what stands there: frame and rest make the stream. |
| `ControlFrames.ReadingIsStable` | executor/src/guest-vm-control.ts:258-268 | Bytes that come later never change a frame already complete. |
| `ControlFrames.Writer.WriteAll` | executor/guest/protocol.go:137-150 | Short writes are continued to the end; it fails exactly where a write failed or took nothing, leaving a prefix. |
| `ControlFrames.Writer.WriteControlFrame` | executor/guest/protocol.go:121-135 | Writes the whole frame, or a prefix exactly where a write failed, and nothing at all for an envelope it refuses. |
| `ControlChannel.ChunksDoNotMatter` | executor/src/guest-vm-control.ts:224-285 | After readiness only the byte stream matters, not how it was cut into chunks. |
| `ControlChannel.StreamedFramesAreHandled` | executor/src/guest-vm-control.ts:258-285 | However the guest's frames arrive, the host handles exactly their bodies, in order. |
| `ControlChannel.ResponseSettles` | executor/src/guest-vm-control.ts:270-284 | However its frame is cut up, a response that bears the pending id resolves that request with its payload and leaves the channel open; a body that does not parse or bears another id closes it and rejects the request. |
| `ControlChannel.ResponseResolves` | executor/src/guest-vm-control.ts:280-284 | The same in front of further bytes, which are read on as before. |
| `ControlChannel.OtherFrameCloses` | executor/src/guest-vm-control.ts:270-279 | So does any frame while nobody waits, whatever follows it. |
| `ControlChannel.ReadyLineNeedsRoom` | executor/src/guest-vm-control.ts:231-256 | A ready line is accepted in one chunk exactly if no more than 4096 bytes arrived with it, and always when it comes alone. |
| `ControlChannel.EveryRequestSettlesOnce` | executor/src/guest-vm-control.ts:194-222 | Over every run each request settled exactly once or is the one pending; none is stranded. |
| `ControlChannel.RequestingAccounts` | executor/src/guest-vm-control.ts:208-222 | Asking accounts for exactly the new request: settled once or pending, never both. |
| `ControlChannel.ClosedLeavesNobodyWaiting` | executor/src/guest-vm-control.ts:194-206 | Once closed, every request has settled. |
| `ControlChannel.AnswersBearTheirId` | executor/src/guest-vm-control.ts:270-284 | A chunk resolves at most the pending request, and only by a frame in the stream that bears its id. |
| `ControlChannel.NothingResolvesAfterClose` | executor/src/guest-vm-control.ts:194-225 | After the first error nothing is resolved or sent. |
| `ControlChannel.GuestReadsTheRequests` | executor/guest/protocol.go:93-119 | The guest reads off the pipe exactly the texts of the host's requests, each an envelope it admits. |
| `ControlChannel.GuestVmControlClient.ConsumeResponses` | executor/src/guest-vm-control.ts:258-285 | The loop is the frame-by-frame function the theorems are about, and one whole response with the pending id resolves its request. |
| `ControlChannel.GuestVmControlClient.ConsumeReady` | executor/src/guest-vm-control.ts:231-256 | The channel becomes ready exactly for a ready line within 4096 bytes, keeps what follows the line, and accounts for the same requests as before. |
| `ControlChannel.GuestVmControlClient.Ask` | executor/src/guest-vm-control.ts:208-222 | The new request is settled or the one pending, once; it is sent exactly if the channel is open, ready and free and the payload is admitted, and otherwise rejected with nothing else changed. |
| `NativeMessages.MessagesArrive` | executor/src/chrome-native-messaging.ts:9-35 | Encoded messages delivered in any chunks are handled, exactly those and in order. |
| `NativeMessages.ChunksDoNotMatter` | executor/src/browser-cookie-import-native-host.ts:83-100 | In any chunking the host gets through a stream exactly when the whole stream decodes, with the same messages and remainder. |
| `NativeMessages.StreamDecodes` | executor/src/chrome-native-messaging.ts:18-35 | Encoded messages and part of another decode to those messages and that part. |
| `NativeMessages.Decode` | executor/src/chrome-native-messaging.ts:18-35 | The loop decodes as the recursive definition without a closing length check: that check never fires. |
| `NativeMessages.Encode` | executor/src/chrome-native-messaging.ts:9-16 | Frames exactly the texts of 1 to 262144 bytes. |
| `NativeMessages.MalformedTakesItsChunkAlong` | executor/src/chrome-native-messaging.ts:22-30 | A malformed message costs the good messages of its own chunk. |
| `BrowserFrames.WriteMessage` | executor/guest/browser_cdp.go:450-479 | Up to 49152 bytes, and no more, what is written is by RFC 6455 one final masked frame with this opcode and payload. |
| `BrowserFrames.MaskedTwice` | executor/guest/browser_cdp.go:468-474 | Masking twice with the same key gives the data back. |
| `BrowserFrames.MaskedBit` | executor/guest/browser_cdp.go:468-474 | Masking flips exactly the bits the key has, octet by octet. |
| `BrowserFrames.Connection.ReadMessage` | executor/guest/browser_cdp.go:481-519 | Every ping before the message is answered with its own payload, in order. |
| `BrowserFrames.PingsThenText` | executor/guest/browser_cdp.go:481-519 | Pings and then a text: the text is returned and the pings are answered. |
| `BrowserFrames.ServerFrameReadsBack` | executor/guest/browser_cdp.go:491-505 | A server's frame reads back exactly if its payload has at most 49152 bytes; up to 65535 it is refused, and beyond that misread as a payload of 127 bytes. |
| `BrowserFrames.ReadsAsTheStandard` | executor/guest/browser_cdp.go:482-505 | Whatever the opcode, section 5.2 of RFC 6455 reads what the loop reads if and only if the length code is not 127, no reserved bit is set and the length does not take more octets than it needs. |
| `BrowserFrames.StandardFrameIsRead` | executor/guest/browser_cdp.go:482-505 | Conversely the loop reads what RFC 6455 reads if and only if the frame is final, unmasked and within the limit. |
| `BrowserFrames.ReservedBitsAreRead` | executor/guest/browser_cdp.go:482-485 | A frame with a reserved bit set is taken for a text. |
| `BrowserFrames.LongerLengthsAreRead` | executor/guest/browser_cdp.go:491-505 | So is a frame that takes two octets for the length 1. |
| `BrowserFrames.LongPingsAreAnswered` | executor/guest/browser_cdp.go:506-511 | A ping beyond the 125 bytes of section 5.5 is answered by a pong as long; both are allowed exactly up to 125. |
| `BrowserFrames.ServerFrameIsStandard` | executor/guest/browser_cdp.go:491-505 | The frames taken for a server's are standard frames at every length the standard allows. |
| `VoiceCapture.VoiceCaptureProcessor.Process` | admin/public/voice-capture-worklet.js:39-61 | After any block, all outputs so far are the decimation of everything heard, silence standing in for muted input. |
| `VoiceCapture.CountIsExact` | admin/public/voice-capture-worklet.js:43-47 | Output k is made exactly if its read position lies within the inputs: after N inputs there are ⌈N/ratio⌉. |
| `VoiceCapture.BlocksLeaveNoTrace` | admin/public/voice-capture-worklet.js:22-25 | Two processors that heard the same stream in different blocks posted the same frames and hold the same rest. |
| `VoiceCapture.FramesAreGroups` | admin/public/voice-capture-worklet.js:51-56 | Posted frames are the consecutive groups of 640 outputs. |
| `VoiceCapture.ConvertStaysInRange` | admin/public/voice-capture-worklet.js:44-46 | Every sample is in Int16 range and keeps its sign. |
| `VoiceCapture.ConvertScales` | admin/public/voice-capture-worklet.js:44-46 | Full deflection is the end of the range, and less than one step is cut off, toward zero. |
| `VoiceCapture.MoreInputs` | admin/public/voice-capture-worklet.js:43-59 | More input only adds outputs. |
| `SourceSnapshot.ParseTree` | executor/src/deeptest-source-snapshot.ts:184-224 | Succeeds exactly for at most 10 000 well-formed records; readable entries have a supported path and size and total at most 128 MiB. |
| `SourceSnapshot.InventoryAt` | executor/src/deeptest-source-snapshot.ts:200-222 | An entry is cut off by its own record or where the bytes let in before it leave no room, and by nothing else. |
| `SourceSnapshot.ReadableExactly` | executor/src/deeptest-source-snapshot.ts:147-182 | Readable are exactly regular files, executable or not, under a supported path and within both limits. |
| `SourceSnapshot.LoadBlobs` | executor/src/deeptest-source-snapshot.ts:226-269 | Succeeds exactly if every readable blob is unchanged; readable entries then hold text of exactly the stated size. |
| `SourceSnapshot.LookedExactly` | executor/src/deeptest-source-snapshot.ts:233-266 | An entry needs the very blob its digest names, of the stated size, stays readable exactly if that is text, and then carries it. |
| `SourceSnapshot.CoverageFor` | executor/src/deeptest-source-snapshot.ts:271-296 | Readable and excluded partition the inventory in entries and bytes; complete means all readable and not called dirty. |
| `SourceSnapshot.CreateSnapshot` | executor/src/deeptest-source-snapshot.ts:298-374 | A snapshot comes out exactly if the listing parses, every readable blob is unchanged and the repository did not move meanwhile; it holds the listing's entries, and it is consistent. |
| `SourceSnapshot.PagesCoverTheInventory` | executor/src/deeptest-source-snapshot.ts:376-394 | Following the cursor ends and shows every entry exactly once. |
| `SourceSnapshot.ReadFiles` | executor/src/deeptest-source-snapshot.ts:396-449 | A read returns at most 16 MiB even for repeated paths, and refuses exactly beyond that. |
| `SourceSnapshot.AnswersTheFile` | executor/src/deeptest-source-snapshot.ts:396-449 | The file asked for is answered with its whole content exactly if it is readable. |
| `ExecutionSource.AdmittedFiles` | executor/src/deeptest-execution-source.ts:11-32 | Succeeds exactly for a complete, clean snapshot of distinct, admissible files, and is the map they say. |
| `ExecutionSource.Walker.Walk` | executor/src/deeptest-execution-source.ts:95-136 | Accepts a directory exactly if everything below it fits, and records exactly its files. |
| `ExecutionSource.StartsMeansLeads` | executor/src/deeptest-execution-source.ts:103-105 | Comparing path spellings is comparing paths name by name. |
| `ExecutionSource.VerifySource` | executor/src/deeptest-execution-source.ts:138-150 | True exactly if the snapshot is admissible and the tree holds precisely its files, unshared, with no link, no special file and no directory off the way to one. |
| `ExecutionSource.PlacedAt` | executor/src/deeptest-execution-source.ts:42-59 | Writing a file changes its own path and the directories on the way, nothing else. |
| `ExecutionSource.PlacedWhere` | executor/src/deeptest-execution-source.ts:42-48 | It fails exactly where something stands at the path or a file stands on the way. |
| `ExecutionSource.Workspace.Materialize` | executor/src/deeptest-execution-source.ts:61-82 | The finished tree is exactly the snapshot or nothing is left; unless interrupted it succeeds exactly for admissible snapshots none of whose paths leads through another or seems outside. |
| `ExecutionSource.Workspace.MaterializeThenVerify` | executor/src/deeptest-execution-source.ts:61-150 | A tree just materialised verifies. |
| `PushOwner.OwnerIsTheLatest` | admin/public/sw.js:21-33 | After any message the owner in memory is the latest message's, whatever slow reads and writes are under way. |
| `PushOwner.DrainedCacheAgrees` | admin/public/sw.js:46-55 | When the writes have drained the cache agrees with memory, unless the latest message's own write failed. |
| `PushOwner.CacheNeverGoesBack` | admin/public/sw.js:46-55 | The cache never returns to an earlier owner's write. |
| `PushOwner.TrayIsTheOwners` | admin/public/sw.js:35-44 | When nothing is under way, a notification that is not the owner's was put up by a handler that was rejected, or was up when a cleanup was rejected. |
| `PushOwner.RejectionLeavesAnothersNote` | admin/public/sw.js:221-235 | A rejected badge update can leave another person's notification up. |
| `PushWorker.ServiceWorker.CurrentPushOwner` | admin/public/sw.js:57-70 | Answers the owner in memory, and after any message the latest one; alone, it learns the owner from the cache if that could be read. |
| `PushWorker.ServiceWorker.StorePushOwner` | admin/public/sw.js:46-55 | Stored, superseded by a later message, or failed. |
| `PushWorker.ServiceWorker.CloseNotificationsForOtherOwners` | admin/public/sw.js:35-44 | Unless it is rejected, what was up before it and is not the owner's at its end is gone; alone, exactly the owner's notifications stay. |
| `PushWorker.ServiceWorker.OnPush` | admin/public/sw.js:199-252 | A handler that is through leaves its notification up only if its recipient is the owner then, whatever became of other handlers; alone, it shows exactly the owner's push in place of those with its tag, and a cancellation closes them. |

## Left out

- CommandRecovery.Executor.Load: real files, owner-only checks, `fsync` and securing the directory are one atomic file that may fail to read.
- CommandRecovery.Executor.UploadImage: upload deadlines and the wording of refusal reasons; what is modelled is which of the answers ends, withdraws or settles.
- CommandRecovery.Executor.Deliver: a lane without the optional image delivery.
- CommandRecovery.Executor.Poll: why the server settles a command (a fence, an expired delivery); that it may do so to any leased command at any moment is modelled.
- Outcomes.WithdrawTrims: a result document is the sequence of its leaves; JSON, digests and the encoded length are parameters.
- PassGate.Gate.Run: a pass that re-enters `run` before its first `await`; no caller does.
- MutationLock.MutualExclusion: reuse of a dead owner's process id, and `processIsAlive` answering for another user's process; a recorded process id stands for one process.
- MutationLockClient.Directory.Mutate: the delay between attempts and files that cannot be inspected.
- LocalInferenceCoordinator.Coordinator.ConfirmAllStopped: a process that dies or a slot file that is damaged while a method runs behind the lock; either counts as before or after it.
- LocalInferenceCoordinator.Coordinator.Acquire: the resource key, and slot files other programs write; a slot file may be damaged at any time.
- DraftTransfer.DraftReader.Walk: file mode bits, names the file system returns unsorted, and a draft that changes between pages.
- DraftDisk.Disk.ResolveParents: a tree changed by somebody else between the check and the use; links are a node of their own.
- DraftIngest.Ingester.IngestPlain: other than case-sensitive POSIX file systems. Here and in ReadsBackExactlyPlain and Workspace.Materialize two names are the same only if they are spelled the same; folding of case, drive letters and trailing dots on Windows or macOS are not modelled.
- DraftIngest.Ingester.ApplyFile: the temporary sibling's own name and its removal after a failure.
- GuestSessionManager.SessionManager.Start: the prepared lease source, expiry timers and argument checks; lease markers are tokens released at most once, and their read-then-unlink is not claimed to be atomic.
- ControlChannel.AnswersBearTheirId: the schema of a response and of the ready line, which are parameters.
- ControlFrames.FrameReadsBack: the guest's JSON decoder; that a text determines its message is proved instead.
- ControlChannel.EveryRequestSettlesOnce: the timers themselves; a timeout is one of the events that close the channel.
- NativeMessages.MessagesArrive: the responses the host writes back; a message is its JSON text.
- BrowserFrames.ReadsAsTheStandard: opcodes, which the loop judges after it has read a frame, and whether a text is UTF-8.
- BrowserFrames.WriteMessage: a failing connection, and where the random key comes from.
- VoiceCapture.VoiceCaptureProcessor.Process: rounding of floating point; arithmetic is exact.
- SourceSnapshot.ParseTree: the regular expression over one record and the splitting at zero bytes; git itself is a parameter.
- ExecutionSource.Workspace.Materialize: paths the snapshot's own check would not let through, partial writes, and modes.
- ExecutionSource.VerifySource: a tree changed while it is walked, so the second look at an opened file is one with the first.
- PushOwner.TrayIsTheOwners: clicks on notifications, badge counts, and notifications without a recipient.
- The connected-browser manager, the guest's boot and mounts, egress, CDP calls, the admin router and pages, the CLI, schema validators and other code that is settled by reading one branch.
- The bounded browser text and observation, the upload timeout formula and the registry of draft flushes, which would add easy members only.
