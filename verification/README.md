# Verified models of the server's protocols and persistence

This project models the parts of the application server and its web client where several steps,
records or readers have to agree, and proves what they promise. Each module follows one component:

| module | component |
|---|---|
| `ShellCoalescing`, `ShellProtocol`, `ShellConvergence`, `ShellProgress`, `ShellStranding`, `ShellDelivery` | the resumable shell (sidebar) subscription: batches of events become one refetch an aggregate, a live buffer is attached before the head is read, a cursor is replayed or replaced by a snapshot, and a completion marker follows what was buffered |
| `ProviderRecovery` | reconciliation of provider sessions at startup: two durable records, written one after the other, with a crash or a failed write possible between any two writes, also while a turn was sent and not yet admitted |
| `CommandGate` | the queue that holds commands until startup signals ready or failure |
| `SettingsSecrets`, `SecretNames` | secrets split out of the settings into a store, blanked for clients, put back on read, and the names they are stored under |
| `SparseSettings` | settings written without what the defaults already say |
| `WhenExpressions`, `WhenGrammar` | printer, tokenizer and parser of the boolean `when` expressions of keybindings, and the grammar they follow |
| `KeybindingsConfig` | the keybindings file, its cache, upsert, removal and the startup backfill |
| `ThemeStream` | the bounded read of a machine's published themes and the stream of the published set |
| `LifecycleStream` | lifecycle events: a snapshot followed by live events |
| `AttachmentIds` | attachment ids, the claim of a pending upload and the sweep of stale ones |
| `BrowserHistory` | the capped, ordered history list, its pending visits, and the eviction of projects |
| `IconEncoding` | the Windows icon encoder |

Concurrent protocols are state machines: a `State`, the `Step`s it can take, `Enabled` and `Apply`, and
theorems over every `Run` from `Init`. Objects whose methods update fields are classes whose methods
state their whole effect, mostly as a function of the old state; loops are methods with invariants.
What the system leaves to others is a parameter: the row a projection read returns, the fate of a write
(`disk`, `failures`), the content of a theme file, how a shortcut's text is parsed, which key stands
for an address, what a settings patch does.

## What the proofs found

Where the code does not keep a promise on every input, a theorem says exactly when it does, and a lemma
shows an input on which it does not.

- Lifecycle events are given live in the order they were sent, which is their sequence order exactly if
  they were sent in that order (`LifecycleStream.LiveAscendsExactly`); it is if no publisher updates while
  another has yet to send (`NoOverlapMeansOrder`), and two events in flight can be inverted exactly for
  the subscribers whose snapshot covers neither (`OverlapInvertsExactly`, `LiveOrderCanInvert`).
- The theme stream's comment promises "the current set followed by every change". A subscriber sees every
  change exactly if no publication replaced one it had yet to receive or followed one that was never
  handed out (`ThemeStream.SeesEveryChangeExactly`). It ends on the published set exactly if no refresh was
  abandoned between its update and its publication since the last one, or its snapshot is that set
  (`EndsOnPublishedExactly`); otherwise it stays behind until the directory changes (`LostStaysLost`). Runs
  of both kinds: `ChangesCanBeMissed`.
- A continuation survives a crash between the provider taking the turn and the directory admitting it
  exactly if the session events of that moment do not show the turn
  (`ProviderRecovery.CrashKeepsContinuation`), and is then sent a second time. What becomes of it otherwise is
  `SentButNotAdmitted`: a turn the provider gave a new id can be settled as an error under every preference
  (`SentTurnCanBeLost`).
- After a stop of the process a thread continues exactly the turn of the marker the stop left, if the
  adapter's cursor allows it and the projected session awaits it and shows no other turn
  (`ProviderRecovery.StoppedThreadContinuesExactly`). Under the preference the stop marks each session with its
  adapter's turn, so a restart continues all of them (`RestartContinuesEveryTurn`); but that overwrites the marker
  set before an update, and if the adapter's turn is not projected yet the thread is settled as an error
  (`MarkedThreadContinues`, `MarkedTurnCanBeLost`).
- An aggregate whose refetch fails twice at its latest event stays at the client what it was at that moment,
  for as long as the connection lasts and the aggregate does not change
  (`ShellStranding.FailedReadKeepsRow`, `FailedLiveReadKeepsRow`; an input: `FailedReadStrandsRow`). A reconnect repairs it
  while the cursor is below that event (`ResumeRepairs`); once an item of another aggregate has moved the cursor past it
  (`DeliveryPassesRow`, `FailedReadIsPassed`), nothing but a new event, a snapshot or a load over HTTP does
  (`StrandedStaysStranded`).
  A failed read costs no row but its own (`ShellDelivery.ConvergesFor`).
- A usage-limit source whose key was typed into the settings file loses it when a client sends its view
  back: unlike an environment variable, the readable key is not moved to the store
  (`SettingsSecrets.EchoKeepsKeyExactly`, `TypedKeyIsLost`).
- Secrets are stored before the settings are written. An update that fails between the two changes exactly
  the withheld values it would have changed (`SettingsSecrets.UnfinishedUpdateKeepsExactly`) and can leave secrets
  without an owner (`UnfinishedUpdateOrphansExactly`); doing it again repairs both, however far it got
  (`RetryCompletes`).
- A provider variable given twice in one instance, once without a secret, can lose the other's secret
  (`SettingsSecrets.EchoKeepsValueExactly`, `DuplicateNameLosesSecret`). The comment in the code promises
  that the last value wins.
- Sparse settings lose an undefined field inside a part that is written whole, because JSON text has no
  undefined (`SparseSettings.SettingsSurviveExactly`, `NestedUndefinedIsLost`).
- Nothing is written that the defaults already say, but an undefined atomic field can leave an empty object
  (`SparseSettings.DocumentSaysExactly`).
- A stored `when` condition may be a flat chain of up to 85 operators, but its printed form fits a rule only
  up to 36, and nested negations pass the depth limit within the length limit
  (`WhenExpressions.StoredReadsBackExactly`, `StoredChainsAreLost`, `DeepNegationsAreLost`).
- An upserted rule that does not compile leaves the cache without the issue a fresh load reports
  (`KeybindingsConfig.UpsertAgreesExactly`, `BrokenRuleDisagrees`); a removal that leaves more than 256 usable
  rules is refused (`KeybindingsConfig.Keybindings.RemoveKeybindingRule`, `CrowdedRemovalIsRefused`). A change that is
  interrupted between the file and the cache leaves the cache behind the file until an operation renews it
  (`RunAgreesUnlessDisturbed`, `StaleUntilRenewed`, `InterruptedUpsertDisagrees`).
- Two buffered visits of different pages at the same time keep the order in which they were flushed, and
  `BrowserHistory.TieMattersExactly` says when that shows. Visits buffered for a project that is not among 20
  others are dropped up to the first one newer than the history that goes last (`CrowdedFlush`).
- A pending upload whose id carried the extension `part` would be swept after it was claimed; ids the
  server makes for uploads never do (`AttachmentIds.ClaimedSurvivesExactly`, `PartUploadIsSwept`).

## Model

| member | source | states |
|---|---|---|
| ShellCoalescing.ToShellStreamEvent | apps/server/src/ws.ts:682-714 | an item carries the event's own sequence and aggregate, and there is one exactly when the event is a removal, or is handled and its read succeeded |
| ShellCoalescing.SurvivorIsLatest | apps/server/src/ws.ts:827-833 | every event that survives coalescing is the last of its aggregate in the batch |
| ShellCoalescing.LatestSurvives | apps/server/src/ws.ts:827-833 | the last event of every aggregate survives |
| ShellCoalescing.SurvivorsDiffer | apps/server/src/ws.ts:827-833 | no aggregate survives twice |
| ShellCoalescing.SurvivorsAscend | apps/server/src/ws.ts:831-833 | survivors are in sequence order |
| ShellCoalescing.CoalesceShellEvents | apps/server/src/ws.ts:820-838 | the map of latest events, re-sorted and read one by one, gives the items of the survivors in order |
| ShellCoalescing.CoalesceShellLiveInputs | apps/server/src/ws.ts:863-883 | the loop over a queue of events and markers gives what the plan of the whole queue gives, each segment read by its own reads |
| ShellCoalescing.PlanSplitsAtMark | apps/server/src/ws.ts:860-883 | coalescing a queue with a marker is coalescing each side on its own with the marker between |
| ShellCoalescing.PlanWithoutMarks | apps/server/src/ws.ts:863-883 | a queue without markers is one batch |
| ShellCoalescing.PlanHoldsLatest | apps/server/src/ws.ts:863-883 | the last event of every aggregate of a queue has a place in the plan |
| ShellCoalescing.PlanAscends | apps/server/src/ws.ts:814-818 | the places of a plan are in sequence order across markers |
| ShellCoalescing.MarkerNeverOvertakes | apps/server/src/ws.ts:856-883 | every event queued before a marker has an item of its aggregate, at its sequence or later, output before the marker |
| ShellConvergence.GapCoversRange | apps/server/src/ws.ts:1453-1479 | a row limit of head minus cursor covers every event of the range, also when sequences have holes |
| ShellConvergence.PageIsComplete | apps/server/src/persistence/Layers/OrchestrationEventStore.ts:282-324 | a page misses no event up to its last one, and an empty page ends the log |
| ShellConvergence.CommitStep | apps/server/src/orchestration/Layers/OrchestrationEngine.ts:270-319 | a commit of events and rows together keeps every client recoverable: what it made stale has an event above the cursor |
| ShellConvergence.PublishStep | apps/server/src/orchestration/Layers/OrchestrationEngine.ts:319-324 | publishing appends to the live buffer exactly the next event of the log |
| ShellConvergence.ReadHeadStep | apps/server/src/ws.ts:1451-1473 | reading the head after attaching loses nothing: an event above it is not yet published and so will be buffered |
| ShellConvergence.FetchPageStep | apps/server/src/ws.ts:1474-1480 | each page of a replay extends the fetched part of the range without a gap |
| ShellConvergence.CoalesceReplayStep | apps/server/src/ws.ts:846-854 | coalescing a chunk of the replay keeps every event the client needs on its way |
| ShellConvergence.StartLiveStep | apps/server/src/ws.ts:1426-1443 | queueing the marker after the replay keeps the buffer and everything on its way |
| ShellConvergence.TakeAllStep | apps/server/src/ws.ts:1433-1439 | draining the buffer once with its marker keeps everything published before the marker ahead of it |
| ShellConvergence.OthersAreAbove | apps/server/src/ws.ts:814-818 | when an item is delivered, every other aggregate with an undelivered event has one above the item's sequence |
| ShellConvergence.ReadRowStep | apps/server/src/ws.ts:721-805 | a read made at emission time shows the row as it is, or a later event is still to come |
| ShellConvergence.DeliverStep | packages/client-runtime/src/state/shellReducer.ts:12-46 | applying an item that is above the cursor, or dropping one that is not, keeps the client recoverable |
| ShellConvergence.StepKeepsInv | apps/server/src/ws.ts:1347-1499 | every step of every interleaving keeps the invariant |
| ShellConvergence.CursorNeverSkips | apps/server/src/ws.ts:814-818 | in every run, an aggregate the client does not show as the server has it has an event above the client's cursor |
| ShellConvergence.Converges | apps/server/src/ws.ts:1347-1499 | once the log is quiet, a connected client shows as the server has it every aggregate whose latest event gave an item in this connection, or was taken up again by its resume; what the others show is `ShellStranding.FailedReadKeepsRow` |
| ShellConvergence.ConvergesExactly | apps/server/src/ws.ts:1347-1499 | with reads that succeed and handled events, a quiet client's rows equal the server's projection, after any number of disconnects |
| ShellConvergence.SynchronizedMeansCaughtUp | apps/server/src/ws.ts:1426-1428 | when the marker is delivered, the client shows everything published before the marker was queued |
| ShellProgress.InternalStepDecreases | apps/server/src/ws.ts:1413-1499 | every step the subscription takes by itself brings it nearer to quiet |
| ShellProgress.InternalRunsEnd | apps/server/src/ws.ts:1413-1499 | a subscription left alone takes a bounded number of steps |
| ShellProgress.NeverStuck | apps/server/src/ws.ts:1413-1499 | a connected subscription that is not quiet always has a step to take |
| ShellProgress.DrainsToQuiet | apps/server/src/ws.ts:1413-1499 | and so reaches quiet |
| ShellProgress.CatchesUp | apps/server/src/ws.ts:1413-1499 | from every reachable connected state with published events the client can be brought to the projection |
| ShellStranding.FailedReadKeepsRow | apps/server/src/ws.ts:716-735 | from every reachable failed read of an aggregate's latest event, replayed or live, over every continuation of the connection in which the aggregate does not change: the client's row stays what it is there, so at quiet it is right exactly if it is right already then |
| ShellStranding.FailedLiveReadKeepsRow | apps/server/src/ws.ts:860-883 | in the live phase this covers every such read, because every place there was taken from the buffer |
| ShellStranding.QuietRowStays | apps/server/src/ws.ts:716-735 | a quiet client that is wrong about an aggregate stays wrong while the connection lasts and the aggregate does not change, and one that is right stays right |
| ShellStranding.StrandedStaysStranded | packages/client-runtime/src/state/shellReducer.ts:12-46 | a row that is behind, with every event of its aggregate at or below the cursor, stays behind over any disconnects and resumes until the aggregate changes, a snapshot is delivered or rows are loaded over HTTP |
| ShellStranding.DeliveryPassesRow | apps/server/src/ws.ts:814-818 | delivering an item of another aggregate above an aggregate's events strands its row exactly if it is wrong |
| ShellStranding.ResumeRepairs | apps/server/src/ws.ts:1447-1499 | a disconnected client without such a row resumes from its cursor to the whole projection, whatever reads failed before |
| ShellStranding.FailedReadStrandsRow | apps/server/src/ws.ts:716-720 | a refetch that fails twice leaves a quiet client without the row |
| ShellStranding.FailedReadIsPassed | apps/server/src/ws.ts:814-818 | and the next item of another aggregate moves the cursor past it |
| ShellDelivery.MarkerDeliveredExactly | apps/server/src/ws.ts:1426-1443 | over every run of one connection, a client that asks for the completion marker gets it at most once, and exactly once when the connection is quiet; one that does not ask never gets it |
| ShellDelivery.MarkerCoversPublished | apps/server/src/ws.ts:1426-1439 | when the marker comes, an aggregate not shown as the server has it has an event that was not yet published when the catch-up was done, and was in neither the snapshot nor the replay |
| ShellDelivery.SnapshotDeliveredExactly | apps/server/src/ws.ts:1452-1499 | a connection replays exactly if it comes with a cursor that the head it reads is at or ahead of by at most 1000 and the replay fits its budget; then it delivers no snapshot, and otherwise exactly one |
| ShellDelivery.ConvergesFor | apps/server/src/ws.ts:716-735 | at quiet an aggregate none of whose own reads failed is shown as the server has it, whatever reads of others failed |
| ProviderRecovery.CrashKeepsContinuation | apps/server/src/serverRuntimeStartup.ts:611-656 | wherever the process dies after the guard passed, also between sending the turn and its admission, the next startup's guard passes with the same turn exactly if the records do not show the turn as taken |
| ProviderRecovery.SentButNotAdmitted | apps/server/src/provider/Layers/ProviderService.ts:1162-1178 | exactly what becomes of a turn that was sent but not admitted: sent again, continued under its own id, settled as an error, or left alone |
| ProviderRecovery.SentTurnCanBeLost | apps/server/src/provider/Layers/ProviderService.ts:1162-1178 | a sent turn with a new id that no later preference brings back |
| ProviderRecovery.ContinuationSurvivesCrashes | apps/server/src/serverRuntimeStartup.ts:473-552 | the same after any number of crashes whose records do not show the turn as taken, and the thread is picked up each time |
| ProviderRecovery.PreparedNeedsNoPreference | apps/server/src/serverRuntimeStartup.ts:619-628 | once the first prepare write is stored the restart preference no longer matters |
| ProviderRecovery.SettledStaysSettled | apps/server/src/serverRuntimeStartup.ts:500-508 | a settled session is never picked up again, whatever its binding holds |
| ProviderRecovery.ReconcileIsIdempotent | apps/server/src/serverRuntimeStartup.ts:500-704 | a second startup, under any preference, changes nothing more |
| ProviderRecovery.SettledNeverContinues | apps/server/src/serverRuntimeStartup.ts:553-609 | what settling stores can never continue, whatever session is projected later and whatever the preference is |
| ProviderRecovery.ReadyIsPickedUpExactly | apps/server/src/serverRuntimeStartup.ts:500-552 | a ready session on a thread that could resume is picked up exactly if its prepared continuation is continued |
| ProviderRecovery.ReconcileKeepsTheRest | apps/server/src/serverRuntimeStartup.ts:557-645 | whatever fails, startup keeps the resume cursor, every other payload field, and the thread but for its session |
| ProviderRecovery.MarkingKeepsTheRest | apps/server/src/serverRuntimeStartup.ts:398-443 | marking and clearing keep status, cursor and every other field |
| ProviderRecovery.StopKeepsTheRest | apps/server/src/provider/Layers/ProviderService.ts:1678-1711 | so do the two writes of a stop, but for the fields they name |
| ProviderRecovery.OnlyMarkedTurnContinues | apps/server/src/serverRuntimeStartup.ts:525-536 | without the restart preference, over any startups that die anywhere, nothing but the turn the marker named at first is ever continued |
| ProviderRecovery.StaleMarkerIsIgnored | apps/server/src/serverRuntimeStartup.ts:530-552 | once the directory records another admitted turn, the old marker alone brings no continuation back |
| ProviderRecovery.AdmittedIsNotResent | apps/server/src/provider/Layers/ProviderService.ts:1162-1178 | admitting a turn consumes the marker, so once a turn is admitted no startup sends the old continuation again |
| ProviderRecovery.MarkedThreadContinues | apps/server/src/provider/Layers/ProviderService.ts:1662-1712 | a marked thread continues its running turn at the next startup if the process dies before it stops, and after a stop exactly unless the stop marked it with another turn or the adapter reported nothing to resume from |
| ProviderRecovery.StoppedThreadContinuesExactly | apps/server/src/provider/Layers/ProviderService.ts:1662-1712 | after a stop, under either preference then and later and whatever is still projected: a thread continues exactly when the stop left a marker and a cursor and the session awaits it and shows no other turn, and continues the marker's turn |
| ProviderRecovery.ReportedThreadContinuesExactly | apps/server/src/provider/Layers/ProviderService.ts:1678-1688 | the same for a process that dies between the two writes of a stop |
| ProviderRecovery.GracefulRestartContinues | apps/server/src/provider/Layers/ProviderService.ts:1663-1688 | under the preference alone, a running session that can resume is continued with its adapter's turn at the next startup, under either later preference, wherever the stop was cut short after its report |
| ProviderRecovery.RestartContinuesEveryTurn | apps/server/src/provider/Layers/ProviderService.ts:1662-1712 | the same for the whole stop, for every session listed |
| ProviderRecovery.MarkedTurnCanBeLost | apps/server/src/provider/Layers/ProviderService.ts:1678-1688 | a marked turn that a stop under the preference makes an error |
| ProviderRecovery.ClearedThreadNeedsPreference | apps/server/src/serverRuntimeStartup.ts:419-443 | a cleared marker leaves the decision to the preference and a running binding alone |
| ProviderRecovery.OrphanEndsRecoverable | apps/server/src/serverRuntimeStartup.ts:510-704 | every orphan ends with no active turn, starting under a prepared marker or as an error that is not picked up again |
| ProviderRecovery.LeftRecovers | apps/server/src/serverRuntimeStartup.ts:500-704 | a dead session of any thread, archived or not: one that is over or ready without a prepared continuation is left alone, and any other starts without a turn over a prepared continuation or ends as an error that says why, its binding stopped |
| ProviderRecovery.FaultsNeverChangeTheTurn | apps/server/src/serverRuntimeStartup.ts:553-656 | whatever writes fail, a session reported as resumed has its marker stored, and a later startup continues the same turn or none |
| ProviderRecovery.SessionStore.constructor | apps/server/src/serverRuntimeStartup.ts:451-470 | the two durable records a startup finds |
| ProviderRecovery.SessionStore.UpsertBinding | apps/server/src/provider/Layers/ProviderSessionDirectory.ts:108-159 | one write of a binding, its payload merged over the stored one, or nothing |
| ProviderRecovery.SessionStore.SetSession | apps/server/src/serverRuntimeStartup.ts:584-598 | one write of the session projection, or nothing |
| ProviderRecovery.SessionStore.ReadBinding | apps/server/src/serverRuntimeStartup.ts:515-524 | a failed read counts as no binding |
| ProviderRecovery.SessionStore.SettleAsError | apps/server/src/serverRuntimeStartup.ts:553-609 | settles both records if no write fails; otherwise each of them is settled or untouched, and a single failure never leaves the session unsettled |
| ProviderRecovery.SessionStore.Prepare | apps/server/src/serverRuntimeStartup.ts:619-645 | the two prepare writes in order with one retry; on failure both attempts failed and the session is untouched |
| ProviderRecovery.SessionStore.ReconcileThread | apps/server/src/serverRuntimeStartup.ts:510-703 | one orphan ends in one of the possible outcomes whatever fails, and reconciled if nothing does; a continuation that cannot be prepared is settled |
| ProviderRecovery.SessionStore.PreparedThreads | apps/server/src/serverRuntimeStartup.ts:471-499 | finds only prepared continuations, and those of all ready dead sessions if no read fails but the listing |
| ProviderRecovery.SessionStore.ReconcileIfOrphaned | apps/server/src/serverRuntimeStartup.ts:500-514 | a thread is dealt with exactly when it is orphaned |
| ProviderRecovery.SessionStore.Reconcile | apps/server/src/serverRuntimeStartup.ts:451-710 | live threads are untouched whatever fails; if nothing fails but the listing of bindings, every other thread is recovered as `LeftRecovers` says; otherwise every orphan ends in a possible outcome |
| ProviderRecovery.SessionStore.MarkRunning | apps/server/src/serverRuntimeStartup.ts:375-417 | marks exactly the running resumable threads, or takes its markers back |
| ProviderRecovery.SessionStore.ClearMarkers | apps/server/src/serverRuntimeStartup.ts:419-443 | clears the markers of the named threads and nothing else |
| ProviderRecovery.SessionStore.SubmitContinuation | apps/server/src/serverRuntimeStartup.ts:658-700 | whatever the provider wrote meanwhile: after an admitted turn no marker stays even if clearing fails; a refused one settles the thread, and if writes fail each record is settled or untouched |
| ProviderRecovery.SessionStore.ReportSessions | apps/server/src/provider/Layers/ProviderService.ts:1678-1688 | the first loop of a stop, up to the first write that fails |
| ProviderRecovery.SessionStore.StopBindings | apps/server/src/provider/Layers/ProviderService.ts:1692-1711 | the second loop: every binding is stopped or, after a failure, untouched |
| ProviderRecovery.SessionStore.StopAll | apps/server/src/provider/Layers/ProviderService.ts:1662-1712 | both loops: what a stop leaves of every binding, and what is possible when writes fail |
| CommandGate.StepKeepsInv | apps/server/src/serverRuntimeStartup.ts:105-149 | every step of every interleaving keeps the invariant |
| CommandGate.NothingStartsBeforeReady | apps/server/src/serverRuntimeStartup.ts:116-131 | no command starts before ready is signalled |
| CommandGate.NothingStartsAfterFault | apps/server/src/serverRuntimeStartup.ts:120-133 | if failure is signalled first, no command ever starts and every finished call has that fault |
| CommandGate.QueuedRunInOrder | apps/server/src/serverRuntimeStartup.ts:110-113 | queued commands begin in arrival order, each after the one before was settled |
| CommandGate.SettledOnce | apps/server/src/serverRuntimeStartup.ts:100-103 | no call is settled twice |
| CommandGate.ResultStaysInRun | apps/server/src/serverRuntimeStartup.ts:100-103 | a settled result never changes |
| CommandGate.FinishedWithOwnExitOrFault | apps/server/src/serverRuntimeStartup.ts:126-147 | a finished call has its own command's exit or the fault startup signalled |
| CommandGate.WorkerNeverStuck | apps/server/src/serverRuntimeStartup.ts:110-113 | once the gate is decided, an unsettled queued call always leaves the worker a step that brings the end nearer |
| CommandGate.EveryCallCanFinish | apps/server/src/serverRuntimeStartup.ts:110-149 | once startup has decided, every call comes to its end by steps of its own and of the worker alone |
| CommandGate.OpenGateRunsAtOnce | apps/server/src/serverRuntimeStartup.ts:126-131 | while the gate is open a new call starts without queueing and returns its own exit, and queue and worker stay as they are |
| CommandGate.CallerGetsItsExit | apps/server/src/serverRuntimeStartup.ts:100-147 | in every run that goes on after a command ended, its caller gets exactly the exit it ended with |
| CommandGate.LateFaultSparesQueued | apps/server/src/serverRuntimeStartup.ts:938-975 | a failure after ready refuses new calls but still runs those queued |
| CommandGate.ReadyAfterFaultWouldStart | apps/server/src/serverRuntimeStartup.ts:116-131 | in every run in which failure came first, a later ready signal, which the gate accepts and startup never sends, would start new calls, and still refuse queued ones |
| SettingsSecrets.SettingsService.constructor | apps/server/src/serverSettings.ts:484-489 | the cached settings and the store |
| SettingsSecrets.SettingsService.MaterializeEnvironment | apps/server/src/serverSettings.ts:499-528 | one instance's withheld values read from the store |
| SettingsSecrets.SettingsService.Materialize | apps/server/src/serverSettings.ts:491-553 | every withheld value and key is replaced by the stored one, nothing else changes |
| SettingsSecrets.SettingsService.PersistEnvironment | apps/server/src/serverSettings.ts:583-655 | one instance's variables: what is left of each, and the last write under each name in the store |
| SettingsSecrets.SettingsService.PersistInstances | apps/server/src/serverSettings.ts:577-656 | all instances, and the names of their sensitive variables |
| SettingsSecrets.SettingsService.RemoveStale | apps/server/src/serverSettings.ts:658-676 | drops exactly the secrets of variables that are gone or no longer sensitive |
| SettingsSecrets.SettingsService.PersistSources | apps/server/src/serverSettings.ts:678-718 | moves new keys to the store, keeps those sent back as the marker, drops the rest |
| SettingsSecrets.SettingsService.Persist | apps/server/src/serverSettings.ts:572-725 | the settings left to write, and the whole new content of the store |
| SettingsSecrets.SettingsService.UpdateSettings | apps/server/src/serverSettings.ts:826-841 | an update gives the patched settings but for secrets, keeps secrets owned, leaves nothing readable, and returns the values put back |
| SettingsSecrets.NothingStaysReadable | apps/server/src/serverSettings.ts:138-142 | no sensitive value and no source key stays in the written settings |
| SettingsSecrets.SettingsKeepTheirShape | apps/server/src/serverSettings.ts:577-585 | what is written, read back or shown to a client has the same instances, variables and sources in the same order, the same plain values and the same other content |
| SettingsSecrets.WithheldIsMarked | apps/server/src/serverSettings.ts:149-186 | a value is marked as withheld, on disk and in the view, exactly if it is sensitive and there is one, and a key exactly if there is one |
| SettingsSecrets.EverySecretKeepsAnOwner | apps/server/src/serverSettings.ts:658-676 | no stored secret lacks an owner after an update if none lacked one before |
| SettingsSecrets.UpdatedValue | apps/server/src/serverSettings.ts:605-650 | what every variable reads as after an update, also with duplicate names |
| SettingsSecrets.JoinUndoesSplit | apps/server/src/serverSettings.ts:491-725 | after persisting and materializing each variable has its new value, or its previous one when sent back redacted |
| SettingsSecrets.JoinUndoesSplitForSources | apps/server/src/serverSettings.ts:530-547 | the same for a source's key |
| SettingsSecrets.DuplicateNameLosesSecret | apps/server/src/serverSettings.ts:587-602 | a plain namesake earlier in the list makes a kept secret disappear |
| SettingsSecrets.ViewRevealsNoSecret | apps/server/src/serverSettings.ts:163-187 | two secret stores give a client the same view exactly when they hold keys for the same sources |
| SettingsSecrets.EchoKeepsValueExactly | apps/server/src/serverSettings.ts:605-650 | sending a view back keeps a variable's value exactly when no namesake without a secret stands beside it |
| SettingsSecrets.EchoKeepsValues | apps/server/src/serverSettings.ts:605-650 | with distinct names it keeps every value |
| SettingsSecrets.EchoKeepsKeyExactly | apps/server/src/serverSettings.ts:678-706 | sending a view back keeps a source's key exactly when it was not readable in the file |
| SettingsSecrets.TypedKeyIsLost | apps/server/src/serverSettings.ts:678-706 | a key typed into the file is gone after a client echoed its view |
| SettingsSecrets.RetryCompletes | apps/server/src/serverSettings.ts:826-835 | an update that failed anywhere before the settings were written ends as if it had not failed when it is done again |
| SettingsSecrets.UnfinishedUpdateKeepsExactly | apps/server/src/serverSettings.ts:826-835 | with the new store and the old settings a withheld value survives exactly if the update keeps it or writes the same text |
| SettingsSecrets.UnfinishedUpdateKeepsKeyExactly | apps/server/src/serverSettings.ts:678-706 | the same for a source's key |
| SettingsSecrets.UnfinishedUpdateOrphansExactly | apps/server/src/serverSettings.ts:658-676 | and a secret is without an owner exactly if it was stored for a variable or source the old settings do not have |
| SecretNames.EncodingsDiffer | apps/server/src/serverSettings.ts:135 | different bytes have different base64url texts |
| SecretNames.LetterIs | apps/server/src/serverSettings.ts:135 | the letters are those of the standard, in order |
| SecretNames.StandardExamples | apps/server/src/serverSettings.ts:135 | the examples of the standard |
| SecretNames.EncodedSlugHasNoDash | packages/contracts/src/providerInstance.ts:49-51 | an allowed instance id never encodes to a dash |
| SecretNames.StoredNamesDiffer | apps/server/src/serverSettings.ts:131-147 | secrets of different owners are stored under different names |
| SparseSettings.StripDefaults | apps/server/src/serverSettings.ts:355-387 | the key loop gives the stripped tree |
| SparseSettings.DocumentSaysExactly | apps/server/src/serverSettings.ts:355-387 | under any path of keys through no atomic value, the document has nothing where the defaults have the same, the value itself where they have another, and never an empty object but for an undefined atomic field |
| SparseSettings.DefaultsWriteNothing | apps/server/src/serverSettings.ts:727-735 | settings that are the defaults write an empty document |
| SparseSettings.OverlayUndoesStripExactly | apps/server/src/serverSettings.ts:355-387 | laying the text of the stripped tree over the defaults gives the original back exactly when every default's key was there and nothing undefined, at any depth, had to be written |
| SparseSettings.SettingsSurviveExactly | apps/server/src/serverSettings.ts:727-735 | the same for the written document |
| SparseSettings.RewritingChangesNothing | apps/server/src/serverSettings.ts:727-735 | writing what was read gives the same document |
| SparseSettings.UndefinedDefaultIsAlwaysWritten | apps/server/src/serverSettings.ts:346-353 | a field with an undefined default is always written, so both states of an opt-in survive |
| SparseSettings.MissingKeyComesBack | apps/server/src/serverSettings.ts:370-386 | without the condition a missing or undefined field turns into its default |
| SparseSettings.NestedUndefinedIsLost | apps/server/src/serverSettings.ts:376-386 | nor does an undefined field survive inside a part that is written whole |
| WhenExpressions.TextsArePrefixFree | apps/server/src/keybindings.ts:154-165 | a printed expression ends where the expression ends, however deep the parentheses |
| WhenExpressions.UniquelyReadable | apps/server/src/keybindings.ts:154-165 | equal texts come from equal expressions |
| WhenExpressions.OddNamesAreAmbiguous | apps/server/src/keybindings.ts:154-165 | a name that looks like an expression is mistaken for it |
| WhenExpressions.Tokenize | packages/shared/src/keybindings.ts:134-181 | the scanning loop gives the tokens of the text |
| WhenExpressions.WhenParser.constructor | packages/shared/src/keybindings.ts:183-186 | a cursor at the first token |
| WhenExpressions.WhenParser.ParsePrimary | packages/shared/src/keybindings.ts:188-212 | a name or a parenthesized expression, within the depth limit |
| WhenExpressions.WhenParser.ParseUnary | packages/shared/src/keybindings.ts:214-233 | at most 64 negations of a primary |
| WhenExpressions.WhenParser.ParseAnd | packages/shared/src/keybindings.ts:235-247 | conjunctions lean to the left |
| WhenExpressions.WhenParser.ParseOr | packages/shared/src/keybindings.ts:249-261 | disjunctions lean to the left and bind weaker |
| WhenExpressions.ParseExpression | packages/shared/src/keybindings.ts:183-266 | the whole text is one expression, or there is none |
| WhenExpressions.PrintedTokens | packages/shared/src/keybindings.ts:134-181 | the tokenizer finds exactly the printer's tokens |
| WhenExpressions.UnaryReads | packages/shared/src/keybindings.ts:188-233 | reading an expression's tokens gives it back when its parentheses fit the limit and fails when not |
| WhenExpressions.DisjunctionIsValid | packages/shared/src/keybindings.ts:172-177 | the parser never makes up a name |
| WhenExpressions.ReadsBackExactly | apps/server/src/keybindings.ts:61-97 | a printed expression parses back to itself exactly when its names are valid and it nests at most 64 deep |
| WhenExpressions.StoredReadsBackExactly | packages/contracts/src/keybindings.ts:101-109 | a printed expression is accepted in a rule and reads back from it exactly when its names are valid, it nests at most 64 deep and its text has at most 256 characters |
| WhenExpressions.LongChainsAreLost | packages/shared/src/keybindings.ts:235-247 | a flat chain of any length parses, but past 64 operators its printed form does not |
| WhenExpressions.StoredChainsAreLost | packages/contracts/src/keybindings.ts:101-109 | a rule holds a chain of up to 85 operators, its printed form only up to 36 |
| WhenExpressions.DeepNegationsAreLost | packages/shared/src/keybindings.ts:188-212 | nested negations within the length limit are refused exactly past 64 |
| WhenGrammar.ParsesDerivationsExactly | packages/shared/src/keybindings.ts:183-266 | a list of tokens is read as an expression exactly if it has a derivation, in a grammar with left-leaning operators of which conjunction binds tighter, within 64 parentheses and 64 negations, that means this expression |
| WhenGrammar.MeaningIsUnique | packages/shared/src/keybindings.ts:183-266 | a list of tokens has at most one meaning |
| WhenGrammar.TokenizesLayoutsExactly | packages/shared/src/keybindings.ts:134-181 | a text is read as a list of tokens exactly if it lays them out, with any white space between and some between two names |
| WhenGrammar.ParsesExactly | packages/shared/src/keybindings.ts:183-266 | a text parses to an expression exactly if it lays out the tokens of a derivation that means it |
| WhenGrammar.StoredWithinLimit | packages/contracts/src/keybindings.ts:101-109 | white space around a condition does not count against its 256 characters |
| WhenGrammar.BlankIsRefused | packages/contracts/src/keybindings.ts:101-109 | a condition of white space alone is refused |
| KeybindingsConfig.Keybindings.constructor | apps/server/src/keybindings.ts:285-291 | a service over a file, with an empty cache |
| KeybindingsConfig.CompilesExactly | packages/shared/src/keybindings.ts:268-286 | a rule compiles to a binding exactly if its key reads as the shortcut, its command is the same, and its condition, if any, lays out a derivation of the binding's |
| KeybindingsConfig.RuleReadsBackExactly | apps/server/src/keybindings.ts:61-97 | a binding written as a rule compiles back to itself exactly if its key's text reads as its shortcut and its condition has valid names and fits the depth limit |
| KeybindingsConfig.EncodedShortcutsDiffer | apps/server/src/keybindings.ts:141-152 | the text of a shortcut says which shortcut it is, but for the two spellings of the space bar |
| KeybindingsConfig.SameContextExactly | apps/server/src/keybindings.ts:107-121 | two rules have the same shortcut context exactly if their keys read as the same shortcut, with a key that can be written, and their conditions have the same text |
| KeybindingsConfig.GoodRulesAre | apps/server/src/keybindings.ts:384-418 | loading gives the rules of exactly the entries that decode and compile, in their order |
| KeybindingsConfig.IssuesAre | apps/server/src/keybindings.ts:384-418 | and one issue, with its index, for each other entry |
| KeybindingsConfig.CompiledAre | packages/shared/src/keybindings.ts:288-299 | a list compiles to what each rule that compiles resolves to, in their order |
| KeybindingsConfig.LoadIs | apps/server/src/keybindings.ts:444-449 | a fresh load of at most 256 usable rules ends with what each usable entry resolves to, in the order of the file |
| KeybindingsConfig.Keybindings.LoadRuntime | apps/server/src/keybindings.ts:366-419 | the usable rules in order, and one issue for each other entry |
| KeybindingsConfig.Keybindings.LoadWritable | apps/server/src/keybindings.ts:321-364 | the usable rules, or an error if the file is no array |
| KeybindingsConfig.Keybindings.WriteConfig | apps/server/src/keybindings.ts:421-442 | all or nothing, and at most 256 rules |
| KeybindingsConfig.Keybindings.LoadConfigState | apps/server/src/keybindings.ts:444-460 | fills an empty cache with a fresh load |
| KeybindingsConfig.Keybindings.RevalidateAndEmit | apps/server/src/keybindings.ts:462-468 | restores and emits a fresh load |
| KeybindingsConfig.Keybindings.StoreRules | apps/server/src/keybindings.ts:665-677 | writes rules and caches what they resolve to |
| KeybindingsConfig.Keybindings.UpsertKeybindingRule | apps/server/src/keybindings.ts:638-679 | the new file and cache, or an error and no change |
| KeybindingsConfig.Keybindings.RemoveKeybindingRule | apps/server/src/keybindings.ts:680-700 | the new file and cache, or an error and no change |
| KeybindingsConfig.Keybindings.FindMissingDefaults | apps/server/src/keybindings.ts:491-517 | the defaults whose command and shortcut context no user rule has |
| KeybindingsConfig.Keybindings.SyncDefaults | apps/server/src/keybindings.ts:470-565 | the new file and an empty cache, or no change if the write fails |
| KeybindingsConfig.UpsertedShape | apps/server/src/keybindings.ts:644-658 | an upserted list is at most 256 long, ends with the rule, and holds neither it nor the replaced one before |
| KeybindingsConfig.UpsertKeepsOthers | apps/server/src/keybindings.ts:644-658 | before the upserted rule stand all usable rules other than it and the one it replaces, in their order, but for the oldest when more than 255 are left, and no more of those than needed |
| KeybindingsConfig.WithoutKeeps | apps/server/src/keybindings.ts:680-700 | removing a rule keeps all others in their order |
| KeybindingsConfig.UpsertAgreesExactly | apps/server/src/keybindings.ts:665-672 | after an upsert cache and file agree exactly when the rule compiles |
| KeybindingsConfig.BrokenRuleDisagrees | apps/server/src/keybindings.ts:665-672 | a rule that does not parse breaks the agreement |
| KeybindingsConfig.CrowdedRemovalIsRefused | apps/server/src/keybindings.ts:680-700 | a removal from 258 usable rules changes nothing |
| KeybindingsConfig.RemoveAgrees | apps/server/src/keybindings.ts:680-700 | a removal keeps the agreement |
| KeybindingsConfig.RunAgrees | apps/server/src/keybindings.ts:444-468 | over any run without outside edits a filled cache equals a fresh load of the file |
| KeybindingsConfig.RunAgreesAfterRevalidate | apps/server/src/keybindings.ts:462-468 | revalidating restores the agreement after any edit |
| KeybindingsConfig.RunAgreesUnlessDisturbed | apps/server/src/keybindings.ts:665-695 | over any run, also with edits, interruptions and rules that do not compile, the cache agrees with the file unless something disturbed it and nothing renewed it since |
| KeybindingsConfig.StaleUntilRenewed | apps/server/src/keybindings.ts:462-468 | a cache behind the file stays so until an operation renews it, and then agrees |
| KeybindingsConfig.InterruptedUpsertDisagrees | apps/server/src/keybindings.ts:665-672 | an upsert interrupted after its file write breaks the agreement |
| KeybindingsConfig.MergeKeepsCustom | apps/server/src/keybindings.ts:204-224 | the merged list ends with all user bindings; before them stand, in their order, all defaults for commands the user has not bound, but for the first of them when the whole would exceed 256 |
| KeybindingsConfig.BackfillIs | apps/server/src/keybindings.ts:491-562 | the backfill appends, in their order, the defaults whose command and shortcut context no user rule has: all of them, or the first up to 256 rules |
| KeybindingsConfig.BackfillIsSafe | apps/server/src/keybindings.ts:491-562 | appending never passes the cap and shares no command or shortcut context with a user rule |
| KeybindingsConfig.BackfillShadowsNothing | apps/server/src/keybindings.ts:500-517 | wherever a user rule won a shortcut it still does |
| KeybindingsConfig.SyncKeepsEntries | apps/server/src/keybindings.ts:545-562 | the file's entries stay its unchanged beginning, and the cap is kept |
| KeybindingsConfig.SyncLeavesNothingOut | apps/server/src/keybindings.ts:470-562 | after the startup sync of a file without issues every default is there, unless a user rule has its command or shortcut context or the file is full; a file with issues is left alone |
| KeybindingsConfig.SyncIsIdempotent | apps/server/src/keybindings.ts:470-565 | a second startup writes nothing |
| ThemeStream.ReadPublishedThemes | apps/server/src/environmentTheme.ts:143-211 | opens at most 32 files and gives the themes of the published entries |
| ThemeStream.PublishedAre | apps/server/src/environmentTheme.ts:143-211 | these are, in their order, exactly the usable theme files of publishable ids among the first 32 theme files, up to which the usable ones have at most 192 KiB together |
| ThemeStream.StepKeepsInv | apps/server/src/environmentTheme.ts:220-304 | every step of every interleaving keeps the invariant |
| ThemeStream.NeverGoesBackwards | apps/server/src/environmentTheme.ts:287-303 | a subscriber sees values that were published, its snapshot first, then strictly newer ones |
| ThemeStream.SeesEveryChangeExactly | apps/server/src/environmentTheme.ts:83-87 | from its snapshot on, a subscriber sees every number handed out, or has the last in its slot, exactly when no publication replaced a value it had yet to receive or followed one that was never handed out |
| ThemeStream.SlowSubscriberSkips | apps/server/src/environmentTheme.ts:220-232 | from any state, two changes while a subscriber does not receive make it skip the first |
| ThemeStream.EndsOnPublishedExactly | apps/server/src/environmentTheme.ts:245-263 | with no publication pending, a subscriber that receives what is left ends on the published set exactly when no refresh was abandoned before its publication since the last one, or its snapshot is that set |
| ThemeStream.NeverMissesTheEnd | apps/server/src/environmentTheme.ts:223-232 | with nothing pending and no refresh abandoned there, what a subscriber saw last is the published set, or its slot holds it |
| ThemeStream.AbandonedEndIsMissed | apps/server/src/environmentTheme.ts:245-263 | from any state, a refresh abandoned there leaves a subscriber behind |
| ThemeStream.LostStaysLost | apps/server/src/environmentTheme.ts:245-263 | and it stays behind while refreshes read the same set |
| ThemeStream.ChangesCanBeMissed | apps/server/src/environmentTheme.ts:245-304 | runs from the start in which a change is skipped, and in which the end is lost |
| ThemeStream.ReceivingCatchesUp | apps/server/src/environmentTheme.ts:294-300 | receiving what is left is a step with exactly that effect |
| ThemeStream.RefreshPublishesWhatItRead | apps/server/src/environmentTheme.ts:245-263 | a refresh leaves the set it read published, and only a change uses up a number |
| LifecycleStream.SortedIs | apps/server/src/ws.ts:2758-2760 | the snapshot is the same events in sequence order |
| LifecycleStream.UpdateSummarizes | apps/server/src/serverLifecycleEvents.ts:35-46 | the state holds the latest event of each kind |
| LifecycleStream.EventsAreWhatWasPublished | apps/server/src/serverLifecycleEvents.ts:34-48 | the events of a run are its publications, each with its kind and payload, numbered in the order of the updates |
| LifecycleStream.StepKeepsInv | apps/server/src/serverLifecycleEvents.ts:34-52 | every step of every interleaving keeps the invariant |
| LifecycleStream.DeliveredExactlyOnce | apps/server/src/ws.ts:2747-2766 | no event is given twice; each is in the snapshot, superseded there, delivered live, or on its way |
| LifecycleStream.QuietMeansDelivered | apps/server/src/ws.ts:2747-2766 | when publishers and buffer are quiet, every event above the snapshot was given once |
| LifecycleStream.GivenAsSent | apps/server/src/ws.ts:2747-2766 | what a subscriber was given live and still has buffered is what was sent above its snapshot, in the order it was sent |
| LifecycleStream.LiveAscendsExactly | apps/server/src/serverLifecycleEvents.ts:34-48 | live delivery follows sequence order exactly when the events above the snapshot were sent in that order |
| LifecycleStream.NoOverlapMeansOrder | apps/server/src/serverLifecycleEvents.ts:34-48 | it does for every subscriber if no publisher updates while another has yet to send |
| LifecycleStream.OverlapInvertsExactly | apps/server/src/serverRuntimeStartup.ts:882-952 | from any reachable state, two events in flight can reach a subscriber in the wrong order exactly if its snapshot covers neither |
| LifecycleStream.LiveOrderCanInvert | apps/server/src/serverLifecycleEvents.ts:34-47 | such a run exists from the start |
| AttachmentIds.SegmentIsSafe | apps/server/src/attachmentStore.ts:28-41 | every segment fits the pattern, has at most 80 characters and is never the pending one |
| AttachmentIds.SegmentExistsExactly | apps/server/src/attachmentStore.ts:28-41 | a thread id has a segment exactly when it has a letter or a digit |
| AttachmentIds.SegmentIs | apps/server/src/attachmentStore.ts:28-41 | every run of characters that are no word characters becomes one dash, and the segment is cut from that: from the first character that is no edge, at most 80, up to the last that is no edge |
| AttachmentIds.SegmentIsItself | apps/server/src/attachmentStore.ts:28-41 | a thread id that is a segment already is its own, only the pending one is changed |
| AttachmentIds.SegmentIsIdempotent | apps/server/src/attachmentStore.ts:28-41 | the segment of a segment is that segment |
| AttachmentIds.SplitIsExact | apps/server/src/attachmentStore.ts:15-22 | an id has exactly one reading by the pattern: the parts whose text it is |
| AttachmentIds.CreatedIdReadsBack | apps/server/src/attachmentStore.ts:67-102 | parsing a created id gives back its segment, UUID and extension, for every thread id |
| AttachmentIds.IdExtensionIs | apps/server/src/attachmentStore.ts:53-61 | an id carries an extension that fits the pattern, with or without its dot, any other as bin, and none as none |
| AttachmentIds.FileExtensionStores | apps/server/src/attachmentStore.ts:43-51 | a stored file keeps an extension that fits the pattern and is not the one of partial uploads, and is stored as bin otherwise |
| AttachmentIds.NameIsClassified | apps/server/src/attachmentStore.ts:229-240 | the sweep sees in a stored file's name exactly its id, and only the segment decides |
| AttachmentIds.StoredIsNeverSwept | apps/server/src/attachmentStore.ts:217-260 | a thread's stored file is never swept, however old |
| AttachmentIds.PendingIsSwept | apps/server/src/attachmentStore.ts:25-26 | a pending upload is swept after a day, a partial one after an hour |
| AttachmentIds.AttachmentsDirectory.constructor | apps/server/src/attachmentStore.ts:221-226 | a directory of files and their times |
| AttachmentIds.AttachmentsDirectory.SweepStale | apps/server/src/attachmentStore.ts:217-260 | deletes exactly the expired sweepable entries that can be deleted, and counts them |
| AttachmentIds.ResolvedExtension | apps/server/src/attachmentStore.ts:134-160 | an id resolves to an existing file of its own name, with its own extension or a stored one |
| AttachmentIds.ResolvesExactly | apps/server/src/attachmentStore.ts:134-160 | an id resolves exactly if there is a file of its extension, or of a stored one if it carries none, and then to the first of these |
| AttachmentIds.ClaimSucceedsExactly | apps/server/src/attachmentStore.ts:171-215 | when a claim is accepted, and which error one that is not gives |
| AttachmentIds.ClaimedIsFound | apps/server/src/attachmentStore.ts:192-214 | a claimed file is found again under its new id, which keeps the extension |
| AttachmentIds.ClaimedSurvivesExactly | apps/server/src/attachmentStore.ts:192-214 | and is out of the sweep's reach exactly when its extension is not the partial one |
| AttachmentIds.PartUploadIsSwept | apps/server/src/attachmentStore.ts:192-214 | an upload under such an id is claimed and then swept |
| BrowserHistory.RepresentationIsUnique | apps/web/src/browserHistoryStore.ts:59-84 | one map of latest times has one capped list of pages |
| BrowserHistory.OrderedInsertionRefines | apps/web/src/browserHistoryStore.ts:59-84 | one ordered insertion refines one update of the map |
| BrowserHistory.VisitChangesOnePage | apps/web/src/browserHistoryStore.ts:65-78 | a visit leaves every other listed entry as it was; its own page keeps its title, and its address unless a stable local one replaces it |
| BrowserHistory.UnorderedGoesFirst | apps/web/src/browserHistoryStore.ts:79-80 | a visit that is not ordered goes first with its own time, and behind it stand the other pages in their order, up to 50 |
| BrowserHistory.LatestOfIs | apps/web/src/browserHistoryStore.ts:73-74 | the map holds the visited pages with their greatest times |
| BrowserHistory.HistoryRefinesMap | apps/web/src/browserHistoryStore.ts:59-84 | any visits at distinct times leave the newest 50 pages, newest first |
| BrowserHistory.HistoryRefinesMapFrom | apps/web/src/browserHistoryStore.ts:59-84 | the same from any list that represents a map, for visits at times no other page has |
| BrowserHistory.FlushOrderIsIrrelevant | apps/web/src/browserHistoryStore.ts:265-269 | the order of flushing into any such list does not matter |
| BrowserHistory.TieMattersExactly | apps/web/src/browserHistoryStore.ts:81-84 | at equal times the order of two pages matters exactly if neither is listed with a later visit and fewer than 50 listed pages are newer |
| BrowserHistory.NewestGoesFirst | apps/web/src/browserHistoryStore.ts:79-83 | ordered and unordered insertion agree on a newest visit |
| BrowserHistory.BufferingChangesNothing | apps/web/src/browserHistoryStore.ts:326-344 | visits recorded as they happen leave the same history as buffered and flushed ones |
| BrowserHistory.AddKeepsBounds | apps/web/src/browserHistoryStore.ts:170-184 | pending visits stay within 10 a thread and 20 threads, and the threads in the order they were added |
| BrowserHistory.AddKeepsNewest | apps/web/src/browserHistoryStore.ts:170-184 | a thread keeps its newest 10 visits in the order they came |
| BrowserHistory.AddKeepsOthers | apps/web/src/browserHistoryStore.ts:170-184 | every other thread keeps all of its own, except that a thread new beside 20 others drops the one that waited longest |
| BrowserHistory.RemoveForgetsOne | apps/web/src/browserHistoryStore.ts:256-264 | registering a thread forgets its own pending visits and no other's, and keeps their order |
| BrowserHistory.HistoryStore.constructor | apps/web/src/browserHistoryStore.ts:186-192 | an empty store |
| BrowserHistory.EvictionKeepsExactly | apps/web/src/browserHistoryStore.ts:86-99 | eviction keeps a project exactly when fewer than 20 go before it by newest visit, ties in the order they were added, and a kept one as it was |
| BrowserHistory.RecordedIsBounded | apps/web/src/browserHistoryStore.ts:196-208 | after every visit at most 20 projects are left |
| BrowserHistory.FlushWithRoom | apps/web/src/browserHistoryStore.ts:265-269 | with room, a flush adds the visits to the project's history and changes no other |
| BrowserHistory.CrowdedVisit | apps/web/src/browserHistoryStore.ts:86-99 | the first visit of a project beside 20 others is dropped if it is no newer than the history that goes last, and takes its place if it is |
| BrowserHistory.CrowdedFlush | apps/web/src/browserHistoryStore.ts:265-269 | what a flush leaves beside 20 other projects |
| BrowserHistory.HistoryStore.RecordVisit | apps/web/src/browserHistoryStore.ts:193-209 | one project's list gets the visit, then excess projects are evicted |
| BrowserHistory.HistoryStore.RecordVisitForThread | apps/web/src/browserHistoryStore.ts:326-344 | recorded at once, or kept until the project is known |
| BrowserHistory.HistoryStore.RegisterThreadProject | apps/web/src/browserHistoryStore.ts:244-277 | the kept visits are recorded by time one after another; with room, they enter one history and no other changes |
| BrowserHistory.HistoryStore.FlushVisits | apps/web/src/browserHistoryStore.ts:265-269 | the loop gives the fold of recorded visits, each with its eviction |
| IconEncoding.NoErrorExactly | scripts/lib/icon-export.ts:14-26 | the checks pass exactly for whole distinct sizes from 1 to 256 and non-empty images |
| IconEncoding.FirstErrorIs | scripts/lib/icon-export.ts:14-26 | otherwise the error is of the first image that something is wrong with, and names the first thing |
| IconEncoding.Check | scripts/lib/icon-export.ts:10-26 | the first error in order |
| IconEncoding.CountFits | scripts/lib/icon-export.ts:33 | distinct sizes bound the count, so it fits its two bytes |
| IconEncoding.WriteUInt8 | scripts/lib/icon-export.ts:39-42 | one byte at its place |
| IconEncoding.WriteUInt16LE | scripts/lib/icon-export.ts:31-33 | two bytes, the lower first |
| IconEncoding.WriteUInt32LE | scripts/lib/icon-export.ts:45-46 | four bytes, the lowest first |
| IconEncoding.WriteEntry | scripts/lib/icon-export.ts:37-46 | one directory entry after what was written before |
| IconEncoding.WriteDirectory | scripts/lib/icon-export.ts:35-48 | the whole directory with running offsets, or a failure exactly when a length or offset does not fit |
| IconEncoding.EncodePngIco | scripts/lib/icon-export.ts:9-51 | the file exactly for acceptable images that fit, and otherwise the error the source raises |
| IconEncoding.RegionsTile | scripts/lib/icon-export.ts:35-50 | the images' regions tile the rest of the file without gap or overlap |
| IconEncoding.DecodeUndoesEncode | scripts/lib/icon-export.ts:9-51 | a reader of the format, which also checks height, planes and color depth, recovers every size and payload |

## Left out

- The RPC handlers of `ws.ts` other than the shell and lifecycle subscriptions: forwarding and error mapping.
- `subscribeThread`: it shares the shell handler's attach, read head, replay or snapshot, then live shape, without coalescing by aggregate.
- `LiveStreamBudget`: its limits on retained items and bytes end the subscription, which is the disconnect step of the model.
- Shell rows are opaque: fields that change without an event of their own aggregate, such as background liveness, and the order of the client's lists are not modelled.
- The engine's recovery after a failed dispatch, which publishes events that another attempt stored, is not a step of the model; the log there grows by commits only.
- A failed store read while a page of a replay is fetched ends the subscription like a disconnect.
- The next batch is coalesced when the previous one was delivered; items in flight between server and client are places of the batch that were read and not delivered.
- ProviderRecovery.SessionStore.SetSession: does not model the timestamps and command ids of `thread.session.set`, because nothing reads them back.
- ProviderRecovery.SessionStore.SubmitContinuation: takes the outcome of `sendTurn` as a parameter, because the provider adapters are not part of this model. Interruption of a startup is a crash.
- CommandGate: callers that are interrupted while they wait are not modelled; the worker goes on the same without them.
- SettingsSecrets.SettingsService.Persist: has no failing store, which ends the update with the store partly changed and the settings as they were; `SettingsSecrets.RetryCompletes` and the lemmas beside it say what that means.
- BrowserHistory.TieMattersExactly: starts from lists in which no two pages share a time; a list that a tie has made is not a start.
- SettingsSecrets: the rest of the settings is opaque; `foldProviderInstanceEnabledFlags`, `restoreUsedProviders` and the text generation fallback choose values without touching secrets.
- SparseSettings: JSON text is taken as an exact round trip but for undefined values, and numbers are integers, so the difference between the two zeros and NaN is not modelled.
- SecretNames.StoredNamesDiffer: UTF-8 is any injective encoding, because only its values on the characters of instance ids matter.
- WhenExpressions: characters are UTF-16 code units, as in the source.
- KeybindingsConfig: `parseKeybindingShortcut` is a parameter, and so are the built-in rules; JSON and schema decoding of an entry either gives a rule or not. Change notifications are the returned values.
- ThemeStream.ReadPublishedThemes: takes the sorted entries and what each file reads as; opening files, symbolic links and decoding are not part of this model.
- AttachmentIds: trimming and lower-casing of a thread id, and path normalization, happen before the model; ids and names there are bare names.
- BrowserHistory: titles set afterwards, removal of an address, and migration of persisted states; each works on one entry at a time. Project keys are assumed not to look like array indices, which JavaScript orders differently.
- IconEncoding: PNG content is opaque bytes.
- Effect fibers, scopes, timeouts, debouncing and file watching: steps, queues, deferreds and semaphores remain.
