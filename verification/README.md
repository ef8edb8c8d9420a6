# Coreside: verified models of its protocols and transformations

Dafny models of the parts of Coreside whose correctness depends on interleavings, on unbounded trees and
streams, or on several functions at once. `dafny verify dfyconfig.toml` checks everything.

Operations that change fields in place are classes and methods, as in the source. Each such method is proved
equal to a function on values, and the theorems about whole runs, whole documents or whole streams are about
those functions. An `await` cuts a TypeScript operation into segments, a lock or an atomic access cuts a Rust
one; the segments are the steps of a transition system, and every interleaving of steps is a run.

| file | part of the system |
|---|---|
| `PersistenceScheduler.dfy`, `SchedulerRuns.dfy`, `SchedulerProgress.dfy`, `SchedulerEffects.dfy` | debounced saving of tool state: generations, hydration epochs, rollback, re-flush |
| `SyncReload.dfy` | Sync reload of the open tool as a three-way merge |
| `AppearanceCommits.dfy` | optimistic commit and rollback of wallpaper and transparency |
| `SyncSubscription.dfy` | ticketed subscription to the conversation Sync channel |
| `TurnRegistry.dfy` | live text of interleaving turns under loss, repetition and reordering |
| `Maintenance.dfy`, `MaintenanceCrash.dfy` | maintenance mode, journal, pause tokens; overlapping calls, failing writes and crashes at any step |
| `DeferredWorker.dfy`, `WorkerEffects.dfy` | startup worker against profile replacement and cancellation |
| `AnthropicStream.dfy`, `AnthropicAnswer.dfy` | incremental parsing of the chat stream; its answer read off the JSON received |
| `DocumentRepair.dfy`, `RepairKeeps.dfy`, `RepairEffects.dfy`, `StableGrouping.dfy`, `SoftwareDocument.dfy`, `Regions.dfy`, `ComponentMoves.dfy` | documents: self-repair, conversion, region paths, moves |
| `SurfaceDuplicate.dfy`, `DuplicateLaws.dfy` | flattening and duplication of component trees |
| `CaretOffsets.dfy` | carets as text offsets and back |
| `Workspace.dfy`, `WorkspaceLaws.dfy`, `WorkspaceEffects.dfy` | panes and tabs |
| `DottedPaths.dfy`, `Actions.dfy`, `ActionObjects.dfy`, `ActionPaths.dfy`, `ActionLaws.dfy`, `ActionEffects.dfy` | the action interpreter over shared objects, and its two drivers |

## What turned out not to hold

Each of these is a lemma, and beside it stands the condition under which the code does meet the property. Where the
text says "exactly", the condition is proved necessary as well as sufficient.

- A failed save can leave screen and disk apart with nothing pending. When the save that began a generation comes back,
  the flush that began it and one that waited for it both go on, so two saves of the next generation are in flight
  (`SchedulerRuns.TwoSavesInFlight`). A failure followed by a success then diverges exactly when both saves are of the
  present generation and epoch and the second saves another state than the one rolled back to
  (`SchedulerRuns.TwinDivergesExactly`). Without such a pair nothing pending means saved, whatever else fails
  (`SchedulerRuns.NothingPendingMeansSaved`).
- A second Sync reload before the first one's save drops the local edit: the first reload hydrated it, so it is no
  longer seen as dirty (`SyncReload.SecondReloadForgetsTheEdit`). If that save is already in flight it still lands, and
  then the follow-up flush writes the older server state over the edit (`SyncReload.SecondReloadOverwritesTheSave`).
- An edit made while the reload is reading is discarded (`SyncReload.EditWhileReadingIsDiscarded`). The last local value
  of a key is shown afterwards exactly when the merge kept an older edit that has not changed since, or, where it kept
  none, when the server holds the value (`SyncReload.LastLocalValueSurvivesExactly`).
- The Sync reload is the three-way merge exactly when the persisted keys are trimmed and not empty; any other key
  admits a local edit that overwrites a server change (`SyncReload.CleanKeysExactlyCharacteriseTheMerge`). Deleting a
  key does not count as an edit, so it comes back exactly when the server neither changed nor reset it
  (`SyncReload.DeletedKeyComesBackExactly`). Changes are found by identity, so with a freshly parsed server state the
  edit of a persisted key survives exactly when the persisted value is a primitive the server still holds
  (`SyncReload.EditSurvivesReparseExactly`).
- After two overlapping appearance commits, the newer failing before the older succeeds, the screen keeps the value from
  before both although the older call's value is stored and committed (`AppearanceCommits.OlderSuccessAfterNewestFailure`).
  While only replies follow the newest call's own, the screen shows the committed value exactly as long as no success
  comes in that is not older than the committed one and saved another value (`AppearanceCommits.RepliesKeepScreenExactly`).
- Choosing the committed transparency again while another value is on its way makes no request, and the late success
  stores and paints the other value. The last choice is stored exactly when it is not dropped in this way
  (`AppearanceCommits.LastChoiceIsStoredExactly`, `AppearanceCommits.ChangedMindIsLost`).
- The first event of a turn is shown right exactly when the record listed for the conversation is absent or blank
  (`TurnRegistry.FirstEventExactly`). Over runs: every turn shows its own text at every moment, whatever the turns say,
  exactly when no turn is first heard of while a record with another turn's text is listed, except by a full text beyond
  it (`TurnRegistry.TurnsReassembleExactly`). Every message provisions a blank record, but a late event of the turn before lists
  that turn again, and the new turn then takes over its text and sequence (`TurnRegistry.LateEventMisleads`). If the turn
  before had failed or was cancelled, or fails only now, all text of the new turn is dropped
  (`TurnRegistry.LateEventMutes`, `TurnRegistry.LateFailureMutes`).
- Overlapping maintenance calls can leave an operation active while work is not paused, or remove the journal it has
  just written, so that a crash after its swap is forgotten: `clear_maintenance` resumes work and removes the journal
  after it has released the mode lock (`MaintenanceCrash.OverlappingClearUnpauses`,
  `MaintenanceCrash.OverlappingClearLosesTheJournal`). Pause and mirror hold throughout exactly when no such step is
  taken after another operation has paused work or written its journal, and no stage write that matters fails
  (`MaintenanceCrash.MirroredExactly`). The two callers, `create_profile_backup` and `restore_profile_backup`, are not
  async commands and run one after the other today, which rules the overlap out
  (`MaintenanceCrash.ActiveMeansPausedAndMirrored`); nothing in `AppState` does.
- One caller at a time is enough to forget a half-replaced profile. After a crash in the middle of a swap every start
  enters Recovery (`MaintenanceCrash.RecoveryPersists`), until the restore that Recovery is for overwrites the journal:
  if it crashes or fails before its own swap, the next start is an ordinary one
  (`MaintenanceCrash.RestoreOverRecoveryForgets`, `MaintenanceCrash.FailedRestoreForgets`). Which steps forget is exact
  (`MaintenanceCrash.RememberedExactly`).
- The deferred worker can compact a database that a replacement has just installed, between its swap and its bump of the
  generation, exactly when the worker's token was neither cancelled nor in the cancel slot when the replacement began:
  when another token had been registered over it (`DeferredWorker.CompactsExactlyTheUncovered`).
- Chunk boundaries matter exactly when, before the stream ends, the bytes of an unfinished line together with a whole new
  chunk, newlines included, pass the limit (`AnthropicStream.ChunkIndependence`).
- Document repair reaches its fixpoint in one pass exactly when every generated id was new; the source does not
  check the ids it generates (`DocumentRepair.OnePassSuffices`).
- A duplicated component shares a state key with its source exactly when that key is blank or padded
  (`DuplicateLaws.DuplicateSeparatesKeys`). A key in the props is given a copy exactly when it is trimmed and not empty
  and, for the value key, the node has no other key of its own or some node of the tree registers it
  (`DuplicateLaws.PropKeyMovesExactly`).
- An action of a duplicate can go on reading the source: the fields that fill an item, a patch or parameters from state,
  and those that find an item by state, are copied as they are. In the duplicate of a form with an input and a button that
  appends its value, the input is bound to a copy of the key and the button appends the value of the original
  (`DuplicateLaws.CopiedButtonReadsTheSource`). The wiring to a node is kept exactly when its key is not given a copy or
  the action names it in none of these fields (`DuplicateLaws.DuplicateKeepsItsWiring`).
- Opening a tab that is already active in another pane does not move the focus
  (`WorkspaceLaws.OpenShowsTheTab`), and a full pane grows exactly when every tab in it is pinned or active
  (`WorkspaceLaws.FullPaneOnlyGrowsWhenPinned`).
- An action that fills an object from state can write into the state behind its declared keys: a path that extends an
  earlier one walks into the object stored there, also when the action then fails
  (`ActionObjects.EntryWritesIntoState`). The objects of the state are kept exactly when no entry that is reached does so
  (`ActionObjects.ObjectsAreKeptExactly`), which the paths, the static part and the kinds of the values tell beforehand
  (`ActionPaths.ObjectsAreKeptByPathsExactly`), and then an action is atomic and framed (`ActionLaws.ActionIsAtomic`).
- The two action drivers give the same result exactly when no action errs or everything after the first one that does
  reports, sends and changes nothing (`ActionLaws.DriversAgreeExactly`).

Where the code and its comments disagree, the model follows the code. The scheduler's fourth guarantee says that an older
save cannot overwrite a newly hydrated state: it can on disk, and the follow-up flush writes the hydrated state again. The
comment on duplication promises that every `valueKey` is disambiguated, so that edits to the clone stay with it, which holds
for the keys and fields named above only.

## Model

| member | source | states |
|---|---|---|
| `StatePersistence.ToolStateTracker.StartFlush` | `src/lib/persistence-scheduler.ts:136-151` | a flush cancels the timer, then waits for the save in flight if there is one and goes on at once otherwise |
| `StatePersistence.ToolStateTracker.ContinueFlush` | `src/lib/persistence-scheduler.ts:153-170` | past the wait, a save of the present generation, epoch and state is begun only if something is unsaved and there is a save function; the in-flight field is not looked at again |
| `StatePersistence.ToolStateTracker.OnSaveSucceeded` | `src/lib/persistence-scheduler.ts:171-185` | a save of this epoch raises the persisted generation and state; one of an older epoch only marks the tool for reconciliation |
| `StatePersistence.ToolStateTracker.OnSaveFailed` | `src/lib/persistence-scheduler.ts:186-200` | a failure rolls back only if its generation is still the present one in the same epoch |
| `StatePersistence.ToolStateTracker.ReleaseInFlight` | `src/lib/persistence-scheduler.ts:201-207` | the in-flight fields are cleared only by the save they describe |
| `StatePersistence.PersistenceScheduler.GetOrCreateTracker` | `src/lib/persistence-scheduler.ts:50-68` | finds or creates the tool's tracker and leaves all others alone |
| `StatePersistence.PersistenceScheduler.InitToolState` | `src/lib/persistence-scheduler.ts:75-88` | hydration resets both generations and states and opens a new epoch, for this tool only |
| `StatePersistence.PersistenceScheduler.Schedule` | `src/lib/persistence-scheduler.ts:93-119` | a new generation with the new state, and a timer or an immediate flush, for this tool only |
| `StatePersistence.PersistenceScheduler.FlushTool` | `src/lib/persistence-scheduler.ts:136-170` | flushing an unknown tool does nothing; otherwise only that tool's tracker moves |
| `StatePersistence.PersistenceScheduler.FlushAll` | `src/lib/persistence-scheduler.ts:124-134` | without a tool id every tool is flushed, each exactly as if it were flushed alone |
| `StatePersistence.PersistenceScheduler.IsPending` | `src/lib/persistence-scheduler.ts:240-245` | for one tool the count is one exactly when it has an unsaved generation |
| `StatePersistence.PersistenceScheduler.GetPendingCount` | `src/lib/persistence-scheduler.ts:240-251` | counts exactly the tools with an unsaved generation |
| `StatePersistence.PersistenceScheduler.PeekDirtyState` | `src/lib/persistence-scheduler.ts:256-268` | returns exactly the keys that differ from the persisted state, or nothing when none does or nothing is pending |
| `SchedulerRuns.RollbackSafety` | `src/lib/persistence-scheduler.ts:162-216` | in every run, with failures and any landing order: a rollback only undoes a save since whose start nothing was scheduled or hydrated; old-epoch saves change no state; the persisted state is the hydrated one or one saved in this epoch; persisted generation at most the present one |
| `SchedulerRuns.NothingPendingMeansSaved` | `src/lib/persistence-scheduler.ts:75-218` | in every run with writes landing in issue order, failures, cancelled timers and flushes without a save included, no save in flight and nothing pending means the screen's state is on disk and persisted; excluded is a failure of the present generation while another save of it, with another state than the rolled-back one, is in flight |
| `SchedulerRuns.TwinDivergesExactly` | `src/lib/persistence-scheduler.ts:171-200` | after any such run, when one save fails and another succeeds next, nothing is pending and screen and persisted state differ exactly when both are of the present generation and epoch and the second saved another state than the one rolled back to |
| `SchedulerRuns.Convergence` | `src/lib/persistence-scheduler.ts:75-218` | a failure-free such run that strands nothing and rests has the screen's state on disk and equal generations |
| `SchedulerRuns.TwoSavesInFlight` | `src/lib/persistence-scheduler.ts:144-216` | the flush whose save comes back and one that waited for it both go on, in the order of the job queue: two saves of the same generation are in flight |
| `SchedulerRuns.FailedTwinDiverges` | `src/lib/persistence-scheduler.ts:186-200` | if one of them fails and the other succeeds, screen and disk differ with nothing pending |
| `SchedulerRuns.FailedSaveIsNotRetried` | `src/lib/persistence-scheduler.ts:186-218` | whatever happens between a failure of the present epoch and its follow-up, the follow-up begins no save, waits for none and leaves the tracker alone |
| `SchedulerRuns.FollowUpExactly` | `src/lib/persistence-scheduler.ts:213-218` | with something pending, the follow-up of a success or of a save of an older epoch begins a save of the present state or waits for the one in flight; that of a failure does neither |
| `SchedulerRuns.StaleSaveLeavesPending` | `src/lib/persistence-scheduler.ts:174-193` | a save of an older epoch leaves something pending, whether it succeeded or failed |
| `SchedulerEffects.EditBeginsAGeneration` | `src/lib/persistence-scheduler.ts:93-119` | an edit is the next generation; it arms the timer, or at once waits for the save in flight or begins a save of the new state |
| `SchedulerEffects.WaitingGoesOn` | `src/lib/persistence-scheduler.ts:153-170` | a flush whose wait is over saves what is unsaved by then, without looking for another save in flight |
| `SchedulerEffects.ReplyReleasesItsOwn` | `src/lib/persistence-scheduler.ts:171-207` | a save that comes back gives up its own place in flight and no other save's, and asks for a reconciliation exactly when the tool was hydrated since |
| `SchedulerProgress.InternalStepDescends` | `src/lib/persistence-scheduler.ts:110-218` | timers, saves and follow-up flushes cannot go on for ever: every internal step lowers a measure |
| `SchedulerProgress.NeverStuck` | `src/lib/persistence-scheduler.ts:110-218` | unless it rests, the scheduler can take an internal step |
| `SchedulerProgress.DrainSaves` | `src/lib/persistence-scheduler.ts:110-218` | from any consistent state internal steps alone lead to rest with the screen's state saved |
| `SchedulerProgress.EventuallySaved` | `src/lib/persistence-scheduler.ts:31-40` | left alone after any failure-free run that strands nothing, the scheduler comes to rest with the state on screen on disk |
| `SyncReload.ReconcileDirtyOverCanonical` | `src/lib/preservation.ts:378-392` | a dirty key wins unless it is blocked; every other key is canonical |
| `SyncReload.Reload` | `src/stores/app-store.ts:2456-2485` | the reload merges, hydrates the scheduler and schedules the merged state if there was an overlay |
| `SyncReload.ReloadIsThreeWayMerge` | `src/stores/app-store.ts:2456-2472` | for clean persisted keys a key takes the server value if the server changed it, it was reset explicitly or it has no local change, and the local edit otherwise |
| `SyncReload.PaddedKeyBreaksTheMerge` | `src/lib/preservation.ts:383-385` | any blank or padded persisted key admits an edit and a server state for which it is not that merge |
| `SyncReload.CleanKeysExactlyCharacteriseTheMerge` | `src/lib/preservation.ts:378-415` | the reload is the three-way merge for all edits, server states and resets exactly when every persisted key is trimmed and not empty |
| `SyncReload.DeletedKeyComesBackExactly` | `src/lib/persistence-scheduler.ts:256-268` | with deletions counted as edits the reload differs from the merge exactly at a key deleted locally that the server neither changed nor reset: the old value comes back |
| `SyncReload.EditSurvivesReparseExactly` | `src/lib/preservation.ts:395-402` | against a freshly parsed server state the edit of a persisted key survives exactly when the persisted value is a primitive that the server still holds |
| `SyncReload.ReloadOfConsistent` | `src/stores/app-store.ts:2473-2485` | init followed by schedule keeps the scheduler's invariants and leaves an armed timer |
| `SyncReload.MergedEditIsSaved` | `src/stores/app-store.ts:2469-2485` | a merged edit is pending after the reload and reaches the disk |
| `SyncReload.SecondReloadForgetsTheEdit` | `src/stores/app-store.ts:2398-2401` | a second reload before that save takes the server state unchanged and leaves nothing pending |
| `SyncReload.SecondReloadOverwritesTheSave` | `src/stores/app-store.ts:2398-2473` | with the save of the merged state in flight, a second reload hydrates the older server state, the save lands, and internal steps come to rest with that older state on disk |
| `SyncReload.InternalRunAfterInit` | `src/lib/persistence-scheduler.ts:174-216` | whatever is in flight when the tool is hydrated and whenever it lands, every run of internal steps that rests has the hydrated state on disk |
| `SyncReload.LastLocalValueSurvivesExactly` | `src/stores/app-store.ts:2394-2473` | key by key, for the tracker at the snapshot and any tracker at the hydration: when the last local value is still shown |
| `SyncReload.EditWhileReadingIsDiscarded` | `src/stores/app-store.ts:2394-2473` | an edit between snapshot and hydration is discarded unless the server holds its value, and nothing is pending for it |
| `AppearanceCommits.AppearanceCommit.BeginTransparency` | `src/stores/app-store.ts:1733-1750` | an equal committed or in-flight value makes no request; any other value takes a new generation |
| `AppearanceCommits.AppearanceCommit.BeginWallpaper` | `src/stores/app-store.ts:1673-1680` | every call takes a new generation and paints its preview |
| `AppearanceCommits.AppearanceCommit.RequestSucceeded` | `src/stores/app-store.ts:1751-1778` | a success not older than the committed generation is committed; only the newest call paints |
| `AppearanceCommits.AppearanceCommit.RequestFailed` | `src/stores/app-store.ts:1768-1778` | only the newest call rolls the screen back, to the value committed by then |
| `AppearanceCommits.CommittedTracksNewestSuccess` | `src/stores/app-store.ts:1685-1690` | for any order of replies `committed` is what the newest successful call saved |
| `AppearanceCommits.CommitPaintsAtOnce` | `src/stores/app-store.ts:1673-1745` | preview first: a chosen value is on screen before any reply, whether or not a request goes out |
| `AppearanceCommits.ScreenShowsTheChoice` | `src/stores/app-store.ts:1673-1704` | in every run: while the newest call is out and only replies came in since, the screen shows the value chosen last |
| `AppearanceCommits.RequestsAreCoalesced` | `src/stores/app-store.ts:1733-1745` | when a request goes out: always for a wallpaper; for transparency unless the value is committed or on its way; choosing twice in a row makes one request |
| `AppearanceCommits.OnItsWayIsNotAskedAgain` | `src/stores/app-store.ts:1736-1784` | a transparency value on its way is not asked for again, whatever calls for other values report in between |
| `AppearanceCommits.QuietMeansStored` | `src/stores/app-store.ts:1758-1763` | with writes landing in issue order, nothing outstanding means committed equals stored |
| `AppearanceCommits.ScreenShowsCommitted` | `src/stores/app-store.ts:1764-1773` | the screen shows the committed value if the newest call succeeded, or reported last, and no preview followed |
| `AppearanceCommits.RepliesKeepScreenExactly` | `src/stores/app-store.ts:1764-1773` | once the newest call has reported and only replies follow, the screen shows the committed value throughout exactly when each success is older than the committed one or saved its value, and at the end exactly when the newest success of all saved it |
| `AppearanceCommits.OlderSuccessAfterNewestFailure` | `src/stores/app-store.ts:1764-1773` | with writes landing in order it happens that the screen shows a value that is neither stored nor committed |
| `AppearanceCommits.LastChoiceIsStoredExactly` | `src/stores/app-store.ts:1733-1763` | if all outstanding calls land in order and succeed, the last chosen transparency is the stored one exactly unless it was the committed value, chosen while a newer call for another value was out |
| `AppearanceCommits.ChangedMindIsLost` | `src/stores/app-store.ts:1736-1739` | choosing the committed value again before the reply makes no request, and the other value is stored, committed and painted |
| `SyncSubscription.ConversationSync.EnsureSubscription` | `src/stores/app-store.ts:500-524` | an unforced repetition is ignored; otherwise a new ticket, and the held channel is stopped |
| `SyncSubscription.ConversationSync.OnSubscribed` | `src/stores/app-store.ts:537-547` | a late channel is stopped at once unless its ticket and conversation are current |
| `SyncSubscription.ConversationSync.OnSubscribeFailed` | `src/stores/app-store.ts:548-557` | only the current ticket's failure forgets the conversation |
| `SyncSubscription.EnsureExactly` | `src/stores/app-store.ts:500-528` | after every run: a call moves to the conversation asked for; it does nothing exactly when it is not forced and asks for the one being served, and otherwise takes a new ticket, stops the held channel once and requests the new one |
| `SyncSubscription.AsksExactly` | `src/stores/app-store.ts:500-528` | after every run a channel is asked for exactly when the conversation is not blank and the call is forced or names another one than is being served |
| `SyncSubscription.LateChannelIsStopped` | `src/stores/app-store.ts:537-557` | after every run: a channel that comes back is held exactly if its ticket is the newest and is stopped at once otherwise; only a refusal of the newest ticket forgets the conversation |
| `SyncSubscription.NoChannelLeaks` | `src/stores/app-store.ts:500-560` | in every run each opened channel is the held one, running, or was stopped exactly once; the held one carries the newest ticket and the current conversation |
| `SyncSubscription.CurrentConversationIsServed` | `src/stores/app-store.ts:500-560` | a set conversation has a held channel or the newest request is out for it |
| `SyncSubscription.OnlyNewestTicketIsHeard` | `src/stores/app-store.ts:530-535` | an event is applied exactly when it comes from the newest ticket, also after leaving and returning to a conversation |
| `SyncSubscription.RepeatedEnsureCoalesces` | `src/stores/app-store.ts:506-514` | asking again for the conversation just asked for changes nothing |
| `TurnRegistry.Reassembly` | `src/lib/turn-registry.ts:60-104` | for any loss, repetition or reordering of truthful events the text is the true body at the last sequence, which never goes back and has reached every delivered checkpoint |
| `TurnRegistry.CatchesUp` | `src/lib/turn-registry.ts:60-104` | a checkpoint followed by all later events in order brings the turn up to date |
| `TurnRegistry.OneTextEvent` | `src/stores/app-store.ts:634-676` | moving a pending turn to its real id keeps text and sequence and touches no other turn |
| `TurnRegistry.RegistryReassembly` | `src/stores/app-store.ts:634-676` | for a provisioned new turn the registry shows the true body after any of its events |
| `TurnRegistry.TurnsReassemble` | `src/stores/app-store.ts:593-854` | in every run in which messages, ends of calls, actions, errors and text events of several turns of a conversation interleave, and no turn takes over another turn's text, each turn shows its own true body at its last sequence |
| `TurnRegistry.TurnsReassembleExactly` | `src/stores/app-store.ts:593-854` | for every order of such events: all turns show their own text at every moment, whatever they say, exactly when no turn is first heard of while a record with another turn's text is listed, except by a full text beyond it |
| `TurnRegistry.FirstEventExactly` | `src/stores/app-store.ts:634-676` | the first event of a turn is right for every body and truthful event exactly when the record listed for the conversation is absent or blank |
| `TurnRegistry.FirstEventInherits` | `src/stores/app-store.ts:655-661` | otherwise the turn takes over the listed record, text and sequence included, and drops its own event if that is not beyond |
| `TurnRegistry.LateEventMisleads` | `src/stores/app-store.ts:634-676` | after a message provisioned a blank record, a late event of the turn before lists that turn again and the new turn takes over its text |
| `TurnRegistry.LateEventMutes` | `src/stores/app-store.ts:700-710` | if the turn before had failed or was cancelled, its late event makes all text of the new turn be dropped |
| `TurnRegistry.LateFailureMutes` | `src/stores/app-store.ts:593-854` | so does the end of the earlier call when it fails, or its error event, only after the next message |
| `TurnRegistry.DroppedExactlyWhenMuted` | `src/stores/app-store.ts:700-710` | a new text event is dropped exactly while the listed turn has failed or was cancelled |
| `TurnRegistry.RecordsStayFiled` | `src/stores/app-store.ts:634-850` | over every run each record is filed under its own id and belongs to the conversation, and the listed one is there |
| `TurnRegistry.ReportsListTheRecord` | `src/stores/app-store.ts:634-850` | an action, an operation or an error lists the current record; an error marks it as failed |
| `TurnRegistry.UnnumberedDeltasAppend` | `src/lib/turn-registry.ts:93-99` | deltas without a sequence number are appended as they come and leave the sequence |
| `Maintenance.MaintenanceMode.Begin` | `src-tauri/src/maintenance.rs:88-105` | at most one operation is active |
| `Maintenance.MaintenanceMode.SetStage` | `src-tauri/src/maintenance.rs:107-132` | only the active operation's stage moves; swap, reopen and rehydrate make it irreversible for good |
| `Maintenance.MaintenanceMode.Clear` | `src-tauri/src/maintenance.rs:154-166` | only the active operation can be cleared; clearing nothing is allowed |
| `Maintenance.QuiescenceCoordinator.Pause` | `src-tauri/src/quiescence.rs:54-59` | a token carries the generation of the pause |
| `Maintenance.QuiescenceCoordinator.Resume` | `src-tauri/src/quiescence.rs:63-75` | resumes exactly for the token of the present pause and generation |
| `Maintenance.TokenResumesExactlyWithinItsGeneration` | `src-tauri/src/quiescence.rs:42-79` | after any calls a token resumes exactly while work is paused and the generation has not been bumped |
| `Maintenance.MaintenanceState.BeginMaintenance` | `src-tauri/src/state.rs:255-273` | cancels the deferred worker in any case; then starts the operation, pauses work and journals it, or changes nothing if one is active, or gives the operation up and resumes if the journal cannot be written |
| `Maintenance.MaintenanceState.SetMaintenanceStage` | `src-tauri/src/state.rs:275-291` | mode and journal move to the stage together |
| `Maintenance.MaintenanceState.ClearMaintenance` | `src-tauri/src/state.rs:293-309` | ends the operation, resumes work and removes its journal |
| `Maintenance.StartupAfterAnyHistory` | `src-tauri/src/maintenance_journal.rs:267-324` | after any stage history startup clears the journal exactly when the last stage is completed or inactive, or no irreversible stage was ever journaled and the last one is before the swap or rolling back; otherwise it enters Recovery and keeps it |
| `Maintenance.StartupByName` | `src-tauri/src/maintenance_journal.rs:267-325` | the decision for every journal by the name of its stage, also one that knows other stages |
| `Maintenance.NamesTellStages` | `src-tauri/src/maintenance_journal.rs:64-97` | the journal names every stage differently, by these names |
| `MaintenanceCrash.MirroredExactly` | `src-tauri/src/state.rs:255-309` | in every run of overlapping calls, failing writes, crashes and restarts an active operation is paused and mirrored by its journal at every moment exactly when no clear or failed begin resumes work after another operation paused it, no clear removes the journal after another operation wrote its own, and no stage write that matters fails |
| `MaintenanceCrash.ClearSparesOtherJournals` | `src-tauri/src/state.rs:300-308` | a clear goes on to remove the journal it finds exactly when that is its own operation's |
| `MaintenanceCrash.ActiveMeansPausedAndMirrored` | `src-tauri/src/commands/data_cmds.rs:32-52` | with one call at a time, as the two commands run, and no failing write it is so over any number of crashes and restarts |
| `MaintenanceCrash.RememberedExactly` | `src-tauri/src/state.rs:255-309` | in every state of a run each operation that began to replace the profile and did not complete has its irreversible journal on disk, exactly when no begin writes its journal and no clear removes one while such an operation exists, none of them journals inactive, and every swap finds its own irreversible journal |
| `MaintenanceCrash.RecoveryPersists` | `src-tauri/src/maintenance_journal.rs:303-324` | then every restart, any number of times, enters Recovery with work paused and keeps the journal |
| `MaintenanceCrash.DisciplinedRunsRemember` | `src-tauri/src/commands/data_cmds.rs:319-345` | with one call at a time, no failing write, no clear of a broken-off operation and no begin over one of an earlier life, half-replaced profiles are always remembered, over any number of crashes |
| `MaintenanceCrash.OverlappingClearUnpauses` | `src-tauri/src/state.rs:293-300` | whenever a clear has not yet resumed work, a whole begin can run before it does and is left active and journaled with work not paused |
| `MaintenanceCrash.OverlappingClearLosesTheJournal` | `src-tauri/src/state.rs:301-308` | whenever a clear is about to remove its journal, a whole begin can run before it does and loses its own; if it swaps, a crash restarts as if nothing had happened |
| `MaintenanceCrash.RestoreOverRecoveryForgets` | `src-tauri/src/state.rs:262-266` | from every state with a broken-off replacement, beginning a restore and crashing before its swap clears the journal at the next start, which is an ordinary one |
| `MaintenanceCrash.FailedRestoreForgets` | `src-tauri/src/commands/data_cmds.rs:326-337` | without a crash, the clear of a restore that failed before its swap removes the journal and resumes work |
| `MaintenanceCrash.ClearingIsReached` | `src-tauri/src/state.rs:293-309` | the two states in which a clear can be overtaken occur in runs from the start, with any one operation, and the failures above apply to them |
| `MaintenanceCrash.RecoveringIsReached` | `src-tauri/src/commands/data_cmds.rs:578-592` | so does a life in Recovery after a crash in the middle of a swap, and the failures above apply to it |
| `DeferredWorker.NeverCompactsAReplacedDatabase` | `src-tauri/src/maintenance.rs:252-268` | in every interleaving no worker compacts a database installed by a replacement that began with its token in the cancel slot or already cancelled |
| `DeferredWorker.CompactsExactlyTheUncovered` | `src-tauri/src/state.rs:312-383` | after any run in which a replacement begins, a waiting worker can still come to compact the database it will install exactly when the worker's token was neither cancelled nor in the slot |
| `DeferredWorker.SoleTokenIsCovered` | `src-tauri/src/state.rs:375-383` | with one registered token every replacement that begins after the registration covers it |
| `DeferredWorker.OneWorkerAtATime` | `src-tauri/src/state.rs:385-402` | at most one worker is between begin and end, and the flag says whether one is |
| `DeferredWorker.FlagIsReleased` | `src-tauri/src/maintenance.rs:209-218` | once all workers are done, on whatever path, flag and database lock are released |
| `WorkerEffects.AloneEndsWith` | `src-tauri/src/maintenance.rs:201-340` | after every run, how a new worker ends that is left alone, condition by condition; it compacts once exactly when it completes, and changes nothing else |
| `WorkerEffects.PhaseIsChecked` | `src-tauri/src/maintenance.rs:206-313` | whatever has changed by then, a worker that begins a phase is turned away with the first of that phase's conditions that fails |
| `WorkerEffects.WorldRemembers` | `src-tauri/src/state.rs:312-383` | what registrations, cancellations and replacements leave over every run: slot, cancelled tokens, database, generation |
| `AnthropicStream.ChatStream.DrainLines` | `src-tauri/src/ai/anthropic.rs:405-430` | takes the complete lines off the buffer and leaves the unfinished one |
| `AnthropicStream.ChatStream.HandleSseData` | `src-tauri/src/ai/anthropic.rs:197-366` | the fold of one data payload: limits, text, tool calls, usage, stop |
| `AnthropicStream.ChatStream.ConsumeSseChatStream` | `src-tauri/src/ai/anthropic.rs:368-455` | the loop over whatever the transport delivers |
| `AnthropicStream.ChunksAreOneShot` | `src-tauri/src/ai/anthropic.rs:368-455` | reading in chunks equals the fold over the newline-split whole input up to the first stop unless a chunk overruns the buffer, and then it is the length error |
| `AnthropicStream.ChunkIndependence` | `src-tauri/src/ai/anthropic.rs:368-455` | equality with the one-shot reading, events included, exactly when no chunk overruns |
| `AnthropicStream.ShortInputIsChunkIndependent` | `src-tauri/src/ai/anthropic.rs:368-455` | within the byte limit any two ways of cutting the input give the same answer and events |
| `AnthropicStream.EventsAreFaithful` | `src-tauri/src/ai/anthropic.rs:197-366` | a returned text is the concatenation of the sent text deltas and the returned usage the one reported last; every completed tool call carries exactly its block's argument deltas, and every event that closes an open block yields exactly one, in closing order |
| `AnthropicAnswer.AnswerTellsEvents` | `src-tauri/src/ai/anthropic.rs:161-366` | an answer read off the JSON received: its text is the concatenation of the text deltas, its usage the counts that `message_start` and `message_delta` give, field by field, its model the one `message_start` names |
| `AnthropicAnswer.TextDeltaIsAppended` | `src-tauri/src/ai/anthropic.rs:181-296` | a text delta that fits is appended and sent on |
| `AnthropicAnswer.BlocksAreTold` | `src-tauri/src/ai/anthropic.rs:247-340` | which events open, fill and close a tool call, in terms of their JSON |
| `AnthropicAnswer.ToolCallIsSent` | `src-tauri/src/ai/anthropic.rs:247-340` | what each of them changes and sends on |
| `AnthropicAnswer.StreamEnds` | `src-tauri/src/ai/anthropic.rs:222-232` | an error event fails the stream with its own message, the one of the event or the fixed one; `message_stop` ends it |
| `AnthropicAnswer.NothingElseEnds` | `src-tauri/src/ai/anthropic.rs:207-366` | no other event ends it and none fails it but a text delta beyond the limit |
| `AnthropicAnswer.DataLineCarries` | `src-tauri/src/ai/anthropic.rs:405-424` | a line with `data:` carries what follows, trimmed, counts as an event, and is skipped if it is no JSON |
| `AnthropicAnswer.OtherLinesAreSkipped` | `src-tauri/src/ai/anthropic.rs:409-415` | blank lines, comments and lines of other fields are passed over |
| `AnthropicAnswer.UnfinishedLineCounts` | `src-tauri/src/ai/anthropic.rs:435-452` | a last line without a newline counts like any other |
| `AnthropicAnswer.TextIsLimited` | `src-tauri/src/ai/anthropic.rs:287-295` | the text limit counts bytes of the UTF-8 encoding |
| `AnthropicAnswer.EventsAreLimited` | `src-tauri/src/ai/anthropic.rs:207-214` | the event after the limit fails the stream, whatever it holds |
| `AnthropicAnswer.StreamBreaksOff` | `src-tauri/src/ai/anthropic.rs:382-403` | cancellation, transport errors and an unfinished line that grows too long |
| `DocumentRepair.ValidateAndRepairDocument` | `src/lib/software-document.ts:217-322` | the recursive in-place repair is the fold that the laws below are about |
| `DocumentRepair.RepairIsClean` | `src/lib/software-document.ts:217-322` | after one pass no handler or script prop and no blank id is left and every non-blank key is declared; ids are distinct exactly when no generated id was already seen |
| `DocumentRepair.OnePassSuffices` | `src/lib/software-document.ts:217-322` | a second run changes and notes nothing exactly when every generated id was new |
| `RepairKeeps.RepairKeepsTheRest` | `src/lib/software-document.ts:217-322` | the sections and the forest keep their shape, types, keys and safe props; an id changes exactly when it is blank or an earlier component has it; contracts are only added, one for each key in use that had none |
| `RepairKeeps.OnlyUnsafePropsGo` | `src/lib/software-document.ts:260-284` | exactly the handlers and script payloads are removed |
| `RepairKeeps.PropsKeepTheirOrder` | `src/lib/software-document.ts:260-284` | the remaining props keep their order |
| `RepairEffects.RepairIsOneVisit` | `src/lib/software-document.ts:217-322` | ids, contracts and notes are those of one visit of all components in order, each before its children |
| `RepairEffects.UnsafeIs` | `src/lib/software-document.ts:262-275` | a text under a key that begins with "on", or one that contains "javascript:" or "<script", in any case |
| `StableGrouping.GroupBy` | `src/lib/software-document.ts:135-148` | the map holds each group in order and the order lists groups by first appearance |
| `StableGrouping.GroupingIsStable` | `src/lib/software-document.ts:135-161` | grouping keeps every group's elements and order, the order of groups, and the multiset |
| `StableGrouping.GroupingTwice` | `src/lib/software-document.ts:135-161` | grouping again changes nothing |
| `SoftwareDocument.FromToolDefinition` | `src/lib/software-document.ts:121-163` | sections are the groups of the flat list |
| `SoftwareDocument.ToToolDefinition` | `src/lib/software-document.ts:168-210` | the flat list presents every section's components in order; the layout is the document's if that is an object, else the design tokens', else the default |
| `SoftwareDocument.TaggingIsConservative` | `src/lib/software-document.ts:172-191` | presenting a component only fills in missing or falsy section props, and is then a no-op |
| `SoftwareDocument.PresentationFillsIn` | `src/lib/software-document.ts:172-190` | property by property: a truthy one stays, a missing or falsy one takes what the section offers, nothing else changes |
| `SoftwareDocument.RoundTripGroups` | `src/lib/software-document.ts:121-211` | the round trip's components are the stable grouping of the input, each one tagged |
| `SoftwareDocument.RoundTripTwice` | `src/lib/software-document.ts:121-211` | the round trip is idempotent |
| `SoftwareDocument.SectionIsNamed` | `src/lib/software-document.ts:139-142` | a component belongs to the section it names, whatever white space surrounds the name |
| `SoftwareDocument.DocumentCarries` | `src/lib/software-document.ts:121-160` | what a document takes over from a tool, with the defaults for description and version and the fields of every new section |
| `SoftwareDocument.ToolCarries` | `src/lib/software-document.ts:195-210` | what a tool takes over from a document, and where its layout comes from |
| `Regions.FindRegion` | `src/lib/software-document.ts:547-552` | finds a section with the id exactly when there is one |
| `Regions.GetRegionPath` | `src/lib/software-document.ts:567-593` | ends on every document, cyclic ones included; no path exactly when the region is missing or its parent links never end; otherwise the document and the duplicate-free lineage |
| `Regions.RevisitIsEndless` | `src/lib/software-document.ts:575-580` | parent links that come back to a listed region never end |
| `Regions.JoinedBySlashes` | `src/lib/software-document.ts:590-592` | segments are joined by one slash between any two |
| `ComponentMoves.MoveComponent` | `src/lib/software-document.ts:615-656` | the error cases and the moved document |
| `ComponentMoves.MoveKeepsTheRest` | `src/lib/software-document.ts:615-656` | taking the moved component out again gives the original without it: all others keep section and order; it sits at the requested or last place; components are conserved |
| `ComponentMoves.ThereAndBack` | `src/lib/software-document.ts:615-656` | moving a component with a unique id there and back restores the document up to its section tag |
| `SurfaceDuplicate.FlattenComponents` | `src/lib/surface-ops.ts:145-157` | rows in preorder with parent id and index, appended to what was there |
| `DuplicateLaws.RowsAreInPlace` | `src/lib/surface-ops.ts:145-157` | every row comes after the row of the node it names as parent and is that node's child at its index |
| `SurfaceDuplicate.Duplicator.PreScan` | `src/lib/surface-ops.ts:241-272` | one drawn id per node, later nodes replacing earlier entries, and one entry per trimmed key |
| `SurfaceDuplicate.Duplicator.RemapAction` | `src/lib/surface-ops.ts:275-310` | renames the component id, the target, the included fields, the values of the input and the result key; the other five fields that name state keys are copied as they are |
| `SurfaceDuplicate.Duplicator.CloneNode` | `src/lib/surface-ops.ts:313-347` | the clone of a tree under the two maps |
| `SurfaceDuplicate.SafeDuplicateComponent` | `src/lib/surface-ops.ts:233-350` | scanning and cloning together |
| `DuplicateLaws.FlattenOfClone` | `src/lib/surface-ops.ts:145-350` | the clone flattens row by row to the renamed flattening of the source |
| `DuplicateLaws.DuplicateRenamesIds` | `src/lib/surface-ops.ts:233-350` | for fresh drawn ids the clone's ids and parent ids are an injective renaming of the source's, disjoint from them, also when the source repeats ids |
| `DuplicateLaws.DuplicateSeparatesKeys` | `src/lib/surface-ops.ts:241-272` | nodes share a key in the clone exactly when they do in the source; no key is shared across exactly when all keys are trimmed and not empty |
| `DuplicateLaws.DuplicateSeparatesPropKeys` | `src/lib/surface-ops.ts:241-272` | the keys in the props are shared in the clone exactly when in the source, and not across exactly when they differ or the key is given a copy; everything else is copied |
| `DuplicateLaws.PropKeyMovesExactly` | `src/lib/surface-ops.ts:241-272` | for every tree: a key in the props is given a copy exactly when it is trimmed and not empty and, for the value key, the node's own key is absent, blank or the same, or some node registers that key; a second key stays shared otherwise |
| `DuplicateLaws.DuplicateKeepsItsWiring` | `src/lib/surface-ops.ts:275-310` | an action of the clone points at a clone node's id exactly when its source does, and names that node's own or props key in exactly the same places as its source exactly unless the key is given a copy and the action fills an item, a patch or parameters from it or finds an item by it; there it goes on naming the key of the source |
| `DuplicateLaws.CopiedButtonReadsTheSource` | `src/lib/surface-ops.ts:283-310` | the duplicate of every form with an input and a button that appends its value: the input is bound to a copy of the key, the button appends the original's |
| `CaretOffsets.SubtreeTextLength` | `src/lib/preservation.ts:84-91` | the length of the text below a node |
| `CaretOffsets.TextOffsetInRoot` | `src/lib/preservation.ts:94-129` | the offset of a text or element caret is the text before that boundary point; none outside the root or for a root that is a text node |
| `CaretOffsets.PointFromTextOffset` | `src/lib/preservation.ts:168-189` | a caret whose preceding text is the offset cut to the text length |
| `CaretOffsets.OffsetOfPointFromOffset` | `src/lib/preservation.ts:94-189` | reading back a restored caret gives the offset cut to the text length, for every tree |
| `Workspace.Store.SetLayout` | `src/stores/workspace-store.ts:106-142` | adds the missing panes of the layout and removes none |
| `Workspace.Store.OpenTab` | `src/stores/workspace-store.ts:153-252` | activates a match, else replaces an empty chat, prunes a full pane or appends |
| `Workspace.Store.CloseTab` | `src/stores/workspace-store.ts:254-299` | removes the tab and its entry; the neighbour or a fresh chat takes over |
| `Workspace.Store.ActivateTab` | `src/stores/workspace-store.ts:301-324` | activates and focuses unless already active |
| `Workspace.Store.ReorderTabs` | `src/stores/workspace-store.ts:326-359` | moves one tab within its pane when both indices are in range |
| `Workspace.Store.EnsurePane` | `src/stores/workspace-store.ts:369-395` | returns the pane, created with one empty chat if missing |
| `Workspace.Store.ReconcileWithAvailableResources` | `src/stores/workspace-store.ts:402-445` | empties exactly the tabs whose resource is gone |
| `WorkspaceLaws.SessionsStayWellFormed` | `src/stores/workspace-store.ts:106-445` | every session of proper operations keeps the workspace well-formed: panes non-empty, duplicate-free and disjoint, the tab map their union, active tab in its pane, focused pane present |
| `WorkspaceLaws.ActivateKeeps` | `src/stores/workspace-store.ts:301-324` | activation keeps it exactly when the pane is missing or holds the tab |
| `WorkspaceLaws.FocusKeeps` | `src/stores/workspace-store.ts:144-151` | focusing keeps it exactly when the pane exists |
| `WorkspaceLaws.OpenShowsTheTab` | `src/stores/workspace-store.ts:153-252` | the returned tab shows the resource and is active in the target pane, other panes are untouched, and exactly when focus moves |
| `WorkspaceLaws.FullPaneOnlyGrowsWhenPinned` | `src/stores/workspace-store.ts:211-224` | a full pane does not grow while something in it is prunable; its exact new size |
| `WorkspaceLaws.CloseTakesTheTab` | `src/stores/workspace-store.ts:254-299` | closing takes away exactly the tab, and its right neighbour, or else its left one, becomes active if it was; a new chat takes the place of the only tab; an absent tab changes nothing |
| `WorkspaceLaws.ReorderThereAndBack` | `src/stores/workspace-store.ts:342-344` | a move puts the tab at its index, keeps the order of the others, and the reverse move undoes it |
| `WorkspaceLaws.LayoutAddsPanes` | `src/stores/workspace-store.ts:106-142` | all panes of a layout exist afterwards, those that existed are untouched, and each new one shows one new tab |
| `WorkspaceLaws.ReconcileEmptiesTheGone` | `src/stores/workspace-store.ts:402-445` | afterwards no tab names a missing resource of its kind; exactly such tabs change; doing it again changes nothing |
| `WorkspaceLaws.LoadInitialState` | `src/stores/workspace-store.ts:53-98` | repairs pane by pane what was stored |
| `WorkspaceLaws.LoadOfStored` | `src/stores/workspace-store.ts:53-98` | a stored well-formed workspace loads as itself without the views |
| `WorkspaceLaws.LoadIsUsable` | `src/stores/workspace-store.ts:62-91` | whatever was stored, every pane is non-empty with known tabs and an active one among them, and the focused pane exists |
| `WorkspaceEffects.ReopeningActivates` | `src/stores/workspace-store.ts:159-182` | a resource that some tab of the target pane shows is never opened twice: the first such tab is activated and nothing else changes |
| `WorkspaceEffects.EmptyChatMakesWay` | `src/stores/workspace-store.ts:203-230` | a new tab with a resource takes the place of an empty chat that is alone in its pane |
| `WorkspaceEffects.NewTabComesLast` | `src/stores/workspace-store.ts:185-240` | below twenty tabs a new one comes last, active and focused, with the data of the caller |
| `WorkspaceEffects.FirstThatMayGoGoes` | `src/stores/workspace-store.ts:211-224` | from twenty tabs on the first tab makes room that is neither active nor to be kept |
| `WorkspaceEffects.PinnedPaneGrows` | `src/stores/workspace-store.ts:211-224` | without such a tab the pane grows |
| `WorkspaceEffects.MissingPaneIsAdded` | `src/stores/workspace-store.ts:233-246` | a target pane that does not exist is added last with the new tab alone |
| `WorkspaceEffects.LayoutIsBuilt` | `src/stores/workspace-store.ts:106-142` | the panes "pane-1" up to the number the layout needs are added in order, each with a fresh chat, unless they are there |
| `WorkspaceEffects.ReorderingIs` | `src/stores/workspace-store.ts:326-359` | a move within bounds puts the tab at its new place, any other changes nothing |
| `WorkspaceEffects.GoneResourceEmptiesTheTab` | `src/stores/workspace-store.ts:402-445` | the title and the emptied field of a tab whose resource is gone; everything else in it stays |
| `WorkspaceEffects.LoadingRestores` | `src/stores/workspace-store.ts:62-91` | pane by pane the known tabs in order and the active one if it is known; the focus if its pane is there; fresh chats only where a pane had nothing left |
| `DottedPaths.SegmentsSpell` | `src/lib/actions.ts:268` | splitting at dots and joining again gives the path |
| `DottedPaths.WriteDottedPath` | `src/lib/actions.ts:260-297` | the write as it runs: checks, then a walk that creates missing objects and steps into shared ones, then the leaf |
| `DottedPaths.FailureIsClean` | `src/lib/actions.ts:278-293` | a write within one object fails exactly when a value on the way blocks it, and then nothing has changed |
| `DottedPaths.SetThenGet` | `src/lib/actions.ts:278-297` | a value written within one object is read back |
| `DottedPaths.SetTwice` | `src/lib/actions.ts:278-297` | the second of two writes to a path decides |
| `DottedPaths.OthersKept` | `src/lib/actions.ts:278-297` | within one object every path neither above nor below the written one reads as before |
| `DottedPaths.WriteIsLocal` | `src/lib/actions.ts:278-297` | through shared objects a write changes one object at most, the one the walk stepped into last, at the rest of the path; a failed one changes none |
| `DottedPaths.OtherObjectsKept` | `src/lib/actions.ts:278-297` | whatever one shared object comes to hold, a path that does not look into it reads as before |
| `Actions.ApplyAction` | `src/lib/actions.ts:394-639` | the local actions as they run on a state with shared objects, errors included |
| `Actions.ApplyActions` | `src/lib/actions.ts:718-757` | the sync driver, its changed keys without repetition |
| `Actions.ApplyActionsAsync` | `src/lib/actions.ts:763-935` | the async driver on local actions, its changed keys without repetition |
| `ActionObjects.SeparateExactly` | `src/lib/actions.ts:472-495` | filling an object from state writes into no object of the state, whatever those hold, exactly when no entry that is reached has a path that extends the path of an earlier one which stored an object |
| `ActionObjects.ObjectsAreKeptExactly` | `src/lib/actions.ts:394-639` | an action leaves every object of the state as it was, whatever they hold, exactly when that is so for its entries |
| `ActionObjects.EntryWritesIntoState` | `src/lib/actions.ts:472-495` | entries "a" and "a.b" write into the object read for "a", which need be neither writable nor reported, also when a third entry makes the action fail |
| `ActionPaths.SeparateByPathsExactly` | `src/lib/actions.ts:278-297` | which entries are reached and whether one writes into the state can be told from the paths, the static part and the kinds of the values alone, exactly |
| `ActionPaths.ObjectsAreKeptByPathsExactly` | `src/lib/actions.ts:394-639` | so a whole action leaves every object of the state as it was, whatever they hold, exactly when its paths say so |
| `ActionLaws.KeysAreFramed` | `src/lib/actions.ts:394-639` | any action changes the values of writable, reported keys only; one that reports an error changes no key and sends nothing |
| `ActionLaws.ActionIsAtomic` | `src/lib/actions.ts:394-639` | an action that acts separately and reports an error has changed and sent nothing, objects included; any such action changes only writable keys, all reported, and no object |
| `ActionLaws.SubmissionIsDeclared` | `src/lib/actions.ts:591-639` | a submission sends exactly the declared readable fields with their values, and the static payload beneath them |
| `ActionLaws.RunsAreFramed` | `src/lib/actions.ts:718-935` | if the actions act separately, neither driver changes an unwritable key, one it does not report, or an object that was there |
| `ActionLaws.UndeclaredKeysDoNotMatter` | `src/lib/actions.ts:322-350` | what a list of actions reports, changes and sends does not depend on keys declared neither readable nor writable |
| `ActionLaws.AsyncRunsTheCleanPrefix` | `src/lib/actions.ts:763-935` | the async driver runs the longest error-free prefix within the depth limit and at most leaves behind what the refused action wrote into objects; no error exactly when that is the whole list |
| `ActionLaws.AsyncStateIsThePrefix` | `src/lib/actions.ts:763-935` | if the refused action acts separately the state is that of the prefix, objects included |
| `ActionLaws.SyncSkipsFailures` | `src/lib/actions.ts:718-757` | if the actions act separately the sync driver's state is that of the succeeding actions within the limit |
| `ActionLaws.DriversAgreeExactly` | `src/lib/actions.ts:718-935` | the drivers give the same result exactly when no action errs or what follows the first erring one reports no error, sends nothing, changes no key not yet reported and ends in the same state |
| `ActionLaws.DriversAgreeWithoutErrors` | `src/lib/actions.ts:718-935` | the drivers agree entirely when no action errs, and report errors together |
| `ActionLaws.DriversAgreeIfOnlyTheLastErrs` | `src/lib/actions.ts:718-935` | they also agree when only the last action errs |
| `ActionLaws.ToggleTwice` | `src/lib/actions.ts:436-441` | toggling twice leaves the truth value |
| `ActionLaws.DecrementUndoesIncrement` | `src/lib/actions.ts:442-461` | a decrement undoes an increment by the same amount, for integers whose sum stays within 2^53; doubles round outside of that |
| `ActionLaws.RemoveUndoesAppend` | `src/lib/actions.ts:468-529` | removing the last item undoes an append that went through, up to what the append wrote into shared objects |
| `ActionLaws.UpdateTouchesOneItem` | `src/lib/actions.ts:530-584` | an update changes the located item only, to its patch over its other keys |
| `ActionLaws.FilledFromReadable` | `src/lib/actions.ts:472-495` | an object is filled from readable keys only, and the last path reads back its value unless it leads into an object of the state |
| `ActionEffects.SetValueLeavesTheValue` | `src/lib/actions.ts:430-435` | for every state, host and writable target: the value itself is left, or a new record with the fields of an object; only the target is reported |
| `ActionEffects.ToggleFlips` | `src/lib/actions.ts:436-441` | a toggle leaves the boolean opposite to the truth value before |
| `ActionEffects.CountingMovesByTheAmount` | `src/lib/actions.ts:442-461` | counting goes from the number read, or from 0 if there is none, by the amount, or by 1 if none is given |
| `ActionEffects.ResetLeavesValueOrZero` | `src/lib/actions.ts:462-467` | a reset leaves its value, and 0 if it has none |
| `ActionEffects.AppendPutsTheItemLast` | `src/lib/actions.ts:468-504` | the item comes last; a target that holds no list counts as an empty one |
| `ActionEffects.AppendFillsTheItem` | `src/lib/actions.ts:472-497` | an item filled under plain names holds the values of the named keys and keeps the rest of its static part |
| `ActionEffects.RemoveTakesTheItemOut` | `src/lib/actions.ts:506-529` | exactly the item asked for goes, by index or else by the first item of the id; out of range nothing happens |
| `ActionEffects.UpdatePatchesTheItem` | `src/lib/actions.ts:530-584` | the patch is put over the item asked for, key by key |
| `ActionEffects.UpdateDoesNothing` | `src/lib/actions.ts:544-581` | nothing happens without a patch, out of range, or for an item that is no object |
| `ActionEffects.UpdateSpreadsAList` | `src/lib/actions.ts:574-580` | an item that is a list becomes an object with its entries under the numerals of their indices, and the patch over them |
| `ActionEffects.LocatorReadsState` | `src/lib/actions.ts:509-519` | an id or index from state replaces the static one; what it reads, and which refusal comes first |
| `ActionEffects.SelectTabLeavesTheTab` | `src/lib/actions.ts:585-590` | the tab id is left |
| `ActionEffects.SubmissionGoesOutExactly` | `src/lib/actions.ts:591-639` | a submission goes out exactly when the host takes one, fields or a payload are given, all fields are readable and the payload passes; each unreadable field is named |
| `ActionEffects.ScopeIsDeclared` | `src/lib/actions.ts:322-350` | what may be written and read under each of the three declarations |
| `ActionEffects.RefusedOutOfScope` | `src/lib/actions.ts:404-419` | an action nested too deep or aimed out of scope is refused and does nothing |
| `ActionEffects.PathsAreChecked` | `src/lib/actions.ts:260-277` | paths that are too long, too deep, or have an empty, reserved or non-identifier segment change nothing |

## Left out

- `cancel` and `flush` without a save function strand an edit on purpose: they are steps of the scheduler's runs, and convergence excludes them. `reset`, which deletes trackers, is not modelled; nor are the rollback and error callbacks. The order in which `flush` visits all tools is left open.
- SchedulerRuns.NothingPendingMeansSaved: a save reported as failed may or may not have reached the disk before the report, but not after it.
- The reload's interactive tools (whose state never comes from raw tool state) and the navigation around it.
- Committed appearance overwritten from outside (`reconcileCommittedAppearance`), and the rounding and clamping of transparency values.
- Catch-up requests of the Sync channel, and what an applied event does to the store.
- Turn fields other than text, sequence and status.
- TurnRegistry.TurnsReassembleExactly: text events without a turn id, which the sender never emits (`src-tauri/src/commands/message_cmds.rs:477-483`), are events of `RegistryReassembly` only; turns only add to their text, as a sender that replaces text sends it in full.
- AnthropicStream.ChatStream.HandleSseData: UTF-8 decoding, JSON parsing and secret redaction are parameters; 32-bit sums wrap as in a release build; numbers are integers.
- HTTP status handling and retries around the stream.
- Journal path validation and load errors; each read, write and removal of the journal is one atomic step, as is each method of the quiescence coordinator.
- Maintenance.MaintenanceState.SetMaintenanceStage: the journal write succeeds here; its failure, which the source ignores, is a step of MaintenanceCrash.
- Attachment sweep, cache cleaning and the log messages of the worker.
- SoftwareDocument.FromToolDefinition: contracts and capability packs are constants on this path and are not carried.
- ComponentMoves.MoveComponent: the index is an integer; fractional and NaN indices are not modelled.
- Adding, removing and restyling sections, `mergeStateForDefinitionPatch` and the patch operation builders: they would only add easy members.
- SurfaceDuplicate.Duplicator.RemapAction: fields of the wrong type; and `CloneNode` draws a fresh id for an unscanned node, which cannot occur after the scan.
- DuplicateLaws.DuplicateRenamesIds: random ids are a parameter whose freshness is assumed, as is a suffix that no key ends in.
- CaretOffsets.TextOffsetInRoot: nodes are named by their path, so node identity is path equality; comments are nodes without text.
- Storage failures of the workspace, JSON and schema parsing: a load starts from what the schema accepted. Fresh tab ids are assumed fresh.
- Actions.ApplyAction: only the objects that keys of the state hold are shared; an object within the action's own definition is a value, so that a later run starts from the definition and not from what an earlier run wrote into it, and arrays and their items are never written in place. Spreading a list item that is itself a shared object copies the objects nested in it, which the source goes on sharing. Prototype lookups are not modelled.
- The actions `invokeRegisteredAction` and `dispatchInteractive`, whose results come from outside; `Number` and `String` conversions and the payload size check are parameters; reals instead of floating point.
- Deriving bindings from component contracts: a table of component types.
- Lower-casing in document repair covers ASCII letters only.
