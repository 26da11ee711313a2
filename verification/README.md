# Calcifer, modelled and proved

Calcifer runs the Codex CLI under local profiles and keeps durable records around it. This project models the parts of
it whose safety is spread over many functions, and proves what they promise.

* **Conversation registry** (`ConversationModel`, `RegistryEdits`, `RegistryValidity`, `RegistryValidator`, `Registry`,
  `RegistryRuns`, `RegistryOutcomes`, `HandoffExample`). A versioned document of conversations, lineage generations,
  workspace heads, pending launches and at most one cross-profile handoff. Each operation is a pure edit of a document;
  the class `ConversationRegistry` performs it in place on a loaded copy, validates and stores it. Sixteen operations
  form one type `Op`, so statements about runs quantify over every sequence of operations by any number of processes.
* **Publication** (`Publication`). Temporary file, file sync, rename, directory sync, for the registry and for its
  schema 1 backup, with faults and power loss between any two system calls.
* **Launch capture and recovery** (`CaptureRely`, `CaptureModel`, `CaptureRecovery`, `CaptureSafety`, `CaptureRuns`,
  `CaptureMarks`, `CaptureOutcomes`, `CaptureExample`, `Capture`). The routines around a provider spawn: what each
  writes, given what the provider reads return and what other processes do to the registry in every gap between two of
  its own accesses. The class `CaptureContext` runs them on a `ConversationRegistry`.
* **Split lease** (`SplitLease`, `ControlLine`). Coordinators and guardians as a labelled transition system over any
  number of launches of one profile, and the bounded reader of their line protocol.
* **Usage observations** (`ObservationModel`, `ObservationValidity`, `ObservationHistory`, `ObservationStore`,
  `RefreshQueue`). The cache as a fold over its history of accepted events, its validator, its audit log and its bounded
  refresh queue.
* **Routing definitions** (`RoutingModel`, `Routing`, `RoutingRuns`, `RoutingAcceptance`, `RoutingOutcomes`). Trust
  domains and pools, edited on a copy, validated as a whole and replaced at once.
* **Release archive** (`Ustar`, `TarInspect`, `TarInspector`). The byte-exact USTAR header (IEEE Std 1003.1, pax
  utility, ustar Interchange Format) and the acceptance of an expanded tar stream.

The three `Outcomes` modules say what each accepted operation makes of the documents, in terms of what a reader looks up
there: which head a directory has and what it resolves to, which launches, lineages, pools and domains are found.

`Prelude.dfy` holds `Option`, `Result`, a stable insertion sort that stands for the library sorts, and slash splitting.
Where a process-wide lock serializes a transaction the model makes the transaction one step. Identifiers and canonical
directories are opaque natural numbers in code, ordered as their texts are; clocks, fresh identifiers and everything
read from a provider are parameters. A digest is the injective constructor `Sha256` applied to the document.

Some promises do not hold of the code on all inputs; each is given with the condition under which it does.

* Saving a valid edit can be refused: `HonestEditAccepted` shows that the validator refuses it exactly when the clock
  ran backwards past the transition's own times; `BackwardClockIsRefused` gives a run.
* A commit of an observed handoff can be refused: exactly when another lineage bound the target thread first or the
  lineage is full (`CommitRefusesOnly`). Both happen: `AdoptedTargetIsNotCommitted` and `FullLineageIsNeverCommitted`
  say when in general, `StolenTargetStops` and `FullLineageStops` give the runs.
* Recovery was meant to bind only a launch whose spawn marker was written. It binds exactly when the stored phase is not
  `Prepared` (`RecoveryBindsExactly`), and a recovery that cannot read the inventory moves a launch out of `Prepared` by
  itself, exactly when the error is not one of the terminal ones (`RecoveryMarksExactly`); `UnspawnedLaunchCanBeBound`
  gives the two recoveries. Over a run the promise holds for a launch exactly when every recovery of it that met such an
  error came after its stored marker (`SpawnWasMarked`, `RecoveryBindsMarked`).
* A split name rejoins to the original exactly when it is not 101 bytes with a leading slash (`SplitRejoins`), and its
  header reads back exactly when, besides, it holds no NUL (`HeaderReadsBack`).
* An accepted tar stream is canonical exactly when the end the tar reader reports lies in the same record as the end of
  the members, with only zeros between them (`AcceptedIsCanonicalExactly`). The code does not compare the two ends, so
  `SomeNoncanonicalStreamIsAccepted` gives a stream, but for a reader that lies: `tarfile` reports the end it reached,
  never one past the members, and for that end every accepted stream is canonical (`AcceptedIsCanonical`).
* At most one provider is alive while every launch loses at most one of its two processes (`OneProvider`); that this is
  needed is shown by `BothDeathsLoseTheLease`.

## Model

| member | source | states |
|---|---|---|
| RegistryValidator.ValidateConversation | src/conversations.rs:1814-1901 | the loop over one lineage accepts it exactly when every generation is numbered, pinned and rolled out as the invariant says |
| RegistryValidator.ValidateConversations | src/conversations.rs:1810-1928 | accepts exactly the lists of valid lineages with distinct ids and no thread bound twice anywhere |
| RegistryValidator.ValidateHeads | src/conversations.rs:1929-1988 | accepts exactly the head lists without duplicates whose ready heads name the active generation of their directory |
| RegistryValidator.ValidatePendings | src/conversations.rs:1989-2034 | accepts exactly the launch lists with distinct ids and directories and canonical inventories |
| RegistryValidator.ValidateBaseline | src/conversations.rs:2278-2293 | the loop over neighbours accepts exactly the bounded baselines in strict order |
| RegistryValidator.ValidateTransition | src/conversations.rs:2036-2213 | the chain of checks accepts exactly the transitions whose record, lineage, head and workspace are as the invariant says |
| RegistryValidator.ValidateDocument | src/conversations.rs:1751-2213 | the whole validator decides the invariant `ValidDocument`, transition included |
| RegistryValidator.CanonicalIsNormalized | src/conversations.rs:2299-2332 | an inventory is canonical exactly when normalizing it changes nothing |
| Registry.LoadedDocument.MarkHeadNeedsSelection | src/conversations.rs:1672-1688 | the Codex head of the directory is marked in place or created marked, nothing else changes |
| Registry.LoadedDocument.BindDocument | src/conversations.rs:1532-1613 | rebinds the owner's active generation or starts a lineage, and installs the one ready head of the directory; on error nothing changes |
| Registry.LoadedDocument.PrepareOn | src/conversations.rs:773-851 | stamps the active generation with its handoff metadata once and starts the transition |
| Registry.ConversationRegistry.LoadV2 | src/conversations.rs:1229-1248 | a schema 1 document is migrated before the edit, recording the digest and revision of what it replaces |
| Registry.ConversationRegistry.SaveDocument | src/conversations.rs:1211-1227 | stores the next revision if the validator accepts it, otherwise leaves the stored document alone |
| Registry.ConversationRegistry.BeginLaunch | src/conversations.rs:381-428 | records a prepared launch, or marks the head when another launch owns the directory |
| Registry.ConversationRegistry.MarkProviderStarted | src/conversations.rs:430-437 | the stored document is the one with that launch's phase set |
| Registry.ConversationRegistry.MarkCaptureFailed | src/conversations.rs:439-446 | likewise for a failed capture |
| Registry.ConversationRegistry.FinishLaunch | src/conversations.rs:510-554 | removes the launch and binds, marks or leaves the head, under an existing selection marker leaving it marked |
| Registry.ConversationRegistry.Adopt | src/conversations.rs:556-574 | binds an exact thread only with no transition and no launch in the directory |
| Registry.ConversationRegistry.RefreshAdopted | src/conversations.rs:576-601 | rebinds only while the ready head is still the expected one |
| Registry.ConversationRegistry.MarkWorkspaceAmbiguous | src/conversations.rs:678-688 | marks the head unless the directory is transitioning |
| Registry.ConversationRegistry.PrepareUntracked | src/conversations.rs:696-740 | marks the head and records untracked ownership in one transaction |
| Registry.ConversationRegistry.PrepareHandoff | src/conversations.rs:742-852 | starts a transition from the expected head, migrating schema 1 |
| Registry.ConversationRegistry.MarkSourceStopRequested | src/conversations.rs:912-922 | moves the exact transition from prepared to stop requested |
| Registry.ConversationRegistry.MarkSourceStopped | src/conversations.rs:924-934 | moves it from stop requested to stopped |
| Registry.ConversationRegistry.RecordForkIntent | src/conversations.rs:936-966 | records the baseline and the first fork attempt |
| Registry.ConversationRegistry.RecordBoundedForkRetry | src/conversations.rs:968-989 | records the second attempt and no third |
| Registry.ConversationRegistry.ObserveHandoffTarget | src/conversations.rs:991-1065 | records a target thread bound nowhere and stored in another file than the source |
| Registry.ConversationRegistry.CommitHandoff | src/conversations.rs:1067-1159 | appends the target generation and moves the head to it, interrupted |
| Registry.ConversationRegistry.FinishHandoffAttachment | src/conversations.rs:1161-1180 | ends the transition and returns the head it resolves |
| Registry.ConversationRegistry.AdvanceHandoffPhase | src/conversations.rs:1182-1195 | moves only the exact transition in the expected phase |
| RegistryValidity.HonestEditAccepted | src/conversations.rs:1751-2213 | for every operation and every valid document, the edited document is valid exactly when the clock is not behind the transition |
| RegistryValidity.HonestEditSaved | src/conversations.rs:1211-1266 | such an edit is stored while revisions remain |
| RegistryValidity.BindIsOrdinary | src/conversations.rs:1532-1613 | binding keeps the invariant and leaves any transition's lineage and head frozen |
| RegistryValidity.CommitIsValid | src/conversations.rs:1067-1159 | a commit keeps the whole invariant exactly when its clock is not behind the transition |
| RegistryRuns.RunIsValid | src/conversations.rs:1197-1227 | every run from a valid document stays valid |
| RegistryRuns.RunKeepsHistory | src/conversations.rs:1539-1591 | over every run no conversation is removed, lineages grow at their tail, and a generation only ever gains its absent trust domain and rollout |
| RegistryRuns.HandoffOpMoves | src/conversations.rs:912-1195 | every stored handoff step gives the transition its one legal successor; only preparation leaves schema 1 |
| RegistryRuns.AtMostSevenSteps | src/conversations.rs:936-1195 | at most seven handoff steps are stored in every run that stores no new preparation, whatever else interleaves, because a measure over phase and attempts falls |
| RegistryRuns.WorkspaceStaysFrozen | src/conversations.rs:1718-1730 | in every run up to the stored attachment the transitioning head names its source, or once committed its target, and no launch enters the directory |
| RegistryRuns.OnlyCommitMovesHead | src/conversations.rs:1067-1179 | in every run that stores no commit and no attachment the transitioning lineage and head stay as they were |
| RegistryRuns.CommitRefusesOnly | src/conversations.rs:1085-1130 | a commit of an observed transition is refused exactly for a target bound meanwhile or a full lineage; its own head check never fails |
| RegistryRuns.AttachReturnsCommit | src/conversations.rs:1161-1179 | after a stored commit and any run that stores no attachment, attachment succeeds and returns the binding the commit returned |
| RegistryRuns.SelectionSticks | src/conversations.rs:510-601 | a head that needs selection stays so over every run that stores no adoption in its directory |
| RegistryOutcomes.FinishOutcome | src/conversations.rs:510-554 | a resolved launch is gone and no other; untracked, unclear and mismatched ones leave the head needing a selection, one without a thread leaves heads and lineages as found, a binding of its own is the ready head, and a marked directory stays as found; the reply is the binding or none |
| RegistryOutcomes.FinishesExactly | src/conversations.rs:510-554 | a launch is resolved exactly when it is pending and, where it would be bound, its thread is free or active there |
| RegistryOutcomes.StoredFinish | src/conversations.rs:510-554 | after a stored resolution the directory of a bound launch resolves to exactly its thread and lifecycle |
| RegistryOutcomes.BindsExactly | src/conversations.rs:1532-1613 | binding succeeds exactly for a usable thread that is free, or active in a lineage of this profile and directory, outside a transition |
| RegistryOutcomes.BindOutcome | src/conversations.rs:1532-1613 | the thread becomes the ready head with the given lifecycle, in its own lineage or a new one of one generation; every other head and lineage is found as before |
| RegistryOutcomes.MarkIsMarked | src/conversations.rs:1672-1688 | marking leaves the head needing a selection with its old target, and every other head as found |
| RegistryOutcomes.BeginOutcome | src/conversations.rs:381-428 | a stored beginning leaves exactly the given launch, prepared, with the given threads as its inventory; in a held directory it marks the head instead |
| RegistryOutcomes.BeginsExactly | src/conversations.rs:381-428 | a launch is begun exactly for a tracked mode, the pinned version, an inventory in range without a thread listed twice, outside a transition |
| RegistryOutcomes.NormalizesExactly | src/conversations.rs:2299-2332 | an inventory is kept exactly when it is short, in range and without duplicates, as the same records in thread order |
| RegistryOutcomes.PhaseOutcome | src/conversations.rs:430-446 | a stored mark sets the phase of its launch to the one it names and changes nothing else |
| RegistryOutcomes.AdoptsExactly | src/conversations.rs:556-574 | an adoption succeeds exactly for a bindable thread in a directory no launch holds |
| RegistryOutcomes.StoredAdoption | src/conversations.rs:556-574 | after a stored adoption the directory resolves to its thread, which is also the reply |
| RegistryOutcomes.RefreshesExactly | src/conversations.rs:576-601 | a refresh succeeds exactly while the directory resolves to the expected binding, up to its lifecycle |
| RegistryOutcomes.StoredRefresh | src/conversations.rs:576-601 | a stored refresh changes the lifecycle the directory resolves to, and nothing else that is looked up |
| RegistryOutcomes.StoredMarking | src/conversations.rs:678-688 | a directory is marked exactly outside a transition, and then needs a selection |
| RegistryOutcomes.StoredUntracked | src/conversations.rs:696-740 | untracked ownership is taken exactly of a free directory, which then needs a selection and holds exactly that launch |
| RegistryOutcomes.OwnLaunchIsFound | src/conversations.rs:448-464 | in a valid document the launch a profile owns in a directory is unique and found |
| RegistryOutcomes.ResolvesExactly | src/conversations.rs:1615-1654 | a directory resolves exactly when neither a transition nor a launch holds it and its head is ready |
| RegistryOutcomes.PreparesExactly | src/conversations.rs:742-852 | a handoff is prepared exactly from the expected head of an idle directory, to another profile, from a source without other handoff metadata |
| RegistryOutcomes.PrepareOutcome | src/conversations.rs:742-852 | the stored transition is the one requested, and only the source generation of its lineage gains rollout and trust domain |
| RegistryOutcomes.RecordOutcome | src/conversations.rs:912-1065 | each stored step records its phase, its time and the baseline, retry or target it was given, and changes nothing else |
| RegistryOutcomes.ForksExactly | src/conversations.rs:936-966 | a fork is recorded exactly for a stopped source and a canonical baseline |
| RegistryOutcomes.RetriesExactly | src/conversations.rs:968-989 | the retry is recorded exactly after one attempt and before a target is observed |
| RegistryOutcomes.ObservesExactly | src/conversations.rs:991-1065 | a target is observed exactly in the source's directory, in another file, under the pinned version and bound nowhere |
| RegistryOutcomes.CommitOutcome | src/conversations.rs:1067-1159 | a stored commit appends exactly the observed target, moves the head to it and leaves the lineage interrupted; every other head and lineage is found as before |
| RegistryOutcomes.RunRemembers | src/conversations.rs:936-1195 | in every run up to the stored attachment the transition keeps its request, its baseline and its observed target |
| RegistryOutcomes.BaselineStays | src/conversations.rs:936-966 | the baseline given with a stored fork intent is the one on record until the stored attachment |
| HandoffExample.HandoffReachesObserved | src/conversations.rs:742-1065 | from every valid document a handoff that can be prepared can be driven to any fresh target: no later step is refused |
| HandoffExample.FullLineageIsNeverCommitted | src/conversations.rs:1085-1110 | a lineage of 256 generations can be prepared, stopped, forked and observed, and is then refused at the commit |
| HandoffExample.AdoptedTargetIsNotCommitted | src/conversations.rs:556-574 | any other idle workspace can adopt an observed target, and the commit is refused from then on |
| HandoffExample.BackwardClockIsRefused | src/conversations.rs:1211-1227 | a run whose stop request, five seconds before the preparation, is an edit the validator refuses, and is stored at its time |
| HandoffExample.StolenTargetStops | src/conversations.rs:1067-1110 | a run from the empty document that can be committed, until another workspace adopts the target |
| HandoffExample.FullLineageStops | src/conversations.rs:1085-1110 | a valid document whose lineage of 256 generations is prepared and observed, and whose commit is refused |
| Publication.RestartLoads | src/conversations.rs:1268-1375 | after any run with faults and any loss of unsynced renames, the registry loads one complete published document, and schema 2 finds the exact backup it recorded |
| Publication.TransactionPublishes | src/conversations.rs:1229-1480 | every stored operation is published within eight system calls that do not fail: the registry shows exactly its document, and a migration leaves exactly the original as its backup |
| Publication.SuccessIsDurable | src/conversations.rs:1415-1480 | a reported success leaves nothing else for power loss to expose |
| Publication.SchemaNeverFalls | src/conversations.rs:1229-1266 | short of power loss, schema 2 is never replaced by schema 1 |
| Publication.TakeIsGood | src/conversations.rs:1308-1480 | every system call, fault or loss keeps every exposed pair of files loadable, stale backups of failed migrations included |
| CaptureRecovery.CandidateIsUniqueDifference | src/commands/codex_conversation.rs:711-740 | the candidate is a thread exactly when no baseline thread is missing and the two maps differ at that thread alone; none exactly when the maps agree |
| CaptureRecovery.RecoveryWritesOnly | src/commands/codex_conversation.rs:361-476 | recovery writes only about the launch it found, and binds only a tracked launch beyond the prepared phase to its unique difference, never as clean |
| CaptureRuns.RecoveryBindsExactly | src/commands/codex_conversation.rs:404-460 | with a readable unique difference, recovery tries to bind exactly when the phase is not prepared |
| CaptureRuns.PreparedLaunchGainsNothing | src/commands/codex_conversation.rs:404-421 | for a prepared launch no write of recovery changes any lineage, whatever others do meanwhile |
| CaptureRuns.PreparedWithoutDifferenceIsDropped | src/commands/codex_conversation.rs:405-411 | a prepared launch without a difference is dropped leaving heads and lineages as found |
| CaptureMarks.RecoveryMarksExactly | src/commands/codex_conversation.rs:361-476 | a recovery takes a prepared launch out of the prepared phase exactly when it is tracked, its inventory read fails with an error that is not terminal, and a revision is left |
| CaptureMarks.FailureIsBeyond | src/commands/codex_conversation.rs:599-622 | resolving a failure leaves a prepared launch marked exactly when the error is not terminal and a revision is left |
| CaptureMarks.PhaseExactly | src/commands/process.rs:423-454 | at every point of a run a pending launch is beyond the prepared phase exactly when it was at the start, its spawn marker was stored, or a recovery that could not read the inventory stored that |
| CaptureMarks.SpawnWasMarked | src/commands/codex_conversation.rs:135-148 | over a run the launch is beyond the prepared phase only after its stored spawn marker, exactly when every such recovery of it came after that marker |
| CaptureMarks.RecoveryBindsMarked | src/commands/codex_conversation.rs:404-460 | at every point of a run, with a readable unique difference, recovery tries to bind exactly when one of these marks was stored before |
| CaptureMarks.StaysBeyond | src/conversations.rs:430-446 | a launch beyond the prepared phase stays there until it is removed |
| CaptureMarks.PhaseWasMarked | src/conversations.rs:430-446 | in every run of operations a launch gets beyond the prepared phase only by a stored spawn marker or capture failure of its own |
| CaptureOutcomes.UnclearIsResolved | src/commands/codex_conversation.rs:361-476 | a launch that recovery cannot explain is gone, its directory needs a selection unless it was marked before, no lineage changed, and the start is refused |
| CaptureOutcomes.StartedIsRecovered | src/commands/codex_conversation.rs:404-460 | a started launch with one new readable thread is bound as crashed or interrupted: the directory resolves to it, or was marked, or the thread is held elsewhere |
| CaptureOutcomes.UnreadIsKept | src/commands/codex_conversation.rs:384-403 | recovery fails by the error of what it could not read, after resolving the launch for a lasting error or keeping it as a failed capture |
| CaptureOutcomes.FailureOutcome | src/commands/codex_conversation.rs:599-622 | exactly the seven lasting errors resolve the launch; all others leave it, and only it, as a failed capture; the error is returned |
| CaptureOutcomes.CompletionBinds | src/commands/codex_conversation.rs:304-337 | completing a run that left one new readable thread first binds exactly that thread, clean only for a clean read of a provider that succeeded; where the thread can be bound and the directory is unmarked, the directory resolves to it |
| CaptureOutcomes.CompletionDrops | src/commands/codex_conversation.rs:304-308 | a run that left no trace drops its launch, heads and lineages as found |
| CaptureOutcomes.CompletionIsUnclear | src/commands/codex_conversation.rs:288-345 | an incomplete inventory or several differences resolve the launch as unclear |
| CaptureOutcomes.CompletionFails | src/commands/codex_conversation.rs:282-325 | a completion that could not read what it needed fails by that error, the launch resolved or kept as it says |
| CaptureOutcomes.CompletionOfAnother | src/commands/codex_conversation.rs:266-281 | a completion that does not find its own tracked launch touches nothing and fails |
| CaptureOutcomes.CompleteRecordsFailure | src/commands/codex_conversation.rs:235-264 | the caller never fails; after a failed completion the launch, if still there, is a failed capture |
| CaptureOutcomes.BoundIsSettled | src/commands/codex_conversation.rs:347-359 | an exact run's lifecycle is recorded exactly while the directory resolves to its binding and the thread reads well; otherwise the directory needs a selection |
| CaptureOutcomes.OthersAreCompleted | src/commands/codex_conversation.rs:235-264 | an untracked run ends unclear, an unsupported one leaves the registry alone |
| CaptureOutcomes.BindRefusal | src/conversations.rs:1532-1613 | a refused binding names a thread held by another profile or active in another directory, and is ambiguous otherwise |
| CaptureOutcomes.AuthorizationMarks | src/commands/codex_conversation.rs:139-147 | before the spawn the launch, and nothing else, is on record as started, or the spawn is refused |
| CaptureOutcomes.FailedSpawnDrops | src/commands/codex_conversation.rs:152-159 | a provider that could not be spawned leaves no launch, and a tracked one leaves heads as found |
| CaptureOutcomes.UntrackedStarts | src/commands/codex_conversation.rs:86-103 | an untracked start takes exactly a free directory, which then needs a selection and holds the launch |
| CaptureOutcomes.TrackedStarts | src/commands/codex_conversation.rs:104-131 | for every read and interference, what a tracked start leaves and answers: the recorded launch with the inventory read for it, a marked directory, or the recovery's error |
| CaptureOutcomes.UntrackedIsCleared | src/commands/codex_conversation.rs:167-177 | an own untracked launch is resolved before an exact resume, another profile's refuses it |
| CaptureOutcomes.ResumeAdopts | src/commands/codex_conversation.rs:581-597 | an exact resume adopts exactly when the own launch can be resolved and the thread then bound in a free directory, which resolves to what is returned |
| CaptureOutcomes.ResumeReturnsHead | src/commands/codex_conversation.rs:161-231 | whatever the interference, an exact resume hands out what the directory resolves to: the thread and profile asked for, with every recorded doubt kept |
| CaptureOutcomes.ResumeSucceeds | src/commands/codex_conversation.rs:161-231 | an exact resume of a thread that reads well and agrees with the record succeeds exactly when its thread can be adopted |
| CaptureOutcomes.UnexpectedHeadIsRefused | src/commands/codex_conversation.rs:178-182 | a resume of a head that is not the expected one is refused before anything is read |
| CaptureOutcomes.UnsupportedIsLeftAlone | src/commands/codex_conversation.rs:183-193 | an exact resume under another version goes on untracked and leaves the registry alone |
| CaptureOutcomes.NothingToRecover | src/commands/codex_conversation.rs:361-367 | without a launch of its profile in the directory recovery succeeds at once |
| CaptureOutcomes.PersistedIsOnRecord | src/conversations.rs:639-675 | the persisted binding is the expected head, or any generation of that very thread, or that there is none |
| CaptureExample.UnspawnedLaunchCanBeBound | src/commands/codex_conversation.rs:599-622 | two recoveries bind a launch that never had a spawn marker: the first fails to read the inventory and marks it, the second binds |
| CaptureExample.UnspawnedRunIsGuarded | src/commands/codex_conversation.rs:599-622 | a guarded run takes a launch out of the prepared phase without a stored spawn marker |
| CaptureSafety.RecoveryClearsNothing | src/commands/codex_conversation.rs:437-462 | automatic recovery never makes an interrupted or unknown-crash conversation clean |
| CaptureSafety.FailedCompletionClearsNothing | src/commands/codex_conversation.rs:323-357 | nor does completing a provider that failed |
| CaptureSafety.ExactResumeClearsNothing | src/commands/codex_conversation.rs:161-231 | nor does an exact resume, for any interference between its read and its adoption |
| CaptureSafety.PersistedIsSafe | src/commands/codex_conversation.rs:551-564 | a persisted binding that is clean, or none, means no uncertain lineage has the thread active |
| CaptureRely.OnlyCleanBindingClears | src/conversations.rs:1560-1591 | an operation clears uncertainty only by binding an uncertain lineage's own active thread as clean |
| CaptureRely.OthersKeepSafe | src/conversations.rs:1532-1613 | operations of processes without the profile's lease never make its thread unsafe to bind as clean |
| CaptureRely.OthersKeepLaunches | src/conversations.rs:510-554 | and never touch its launches |
| CaptureRuns.OnlySuccessClears | src/commands/codex_conversation.rs:80-357 | of all routines only the completion of a successful provider can clear uncertainty |
| CaptureRuns.UncertaintyEndsOnlyInSuccess | src/commands/codex_conversation.rs:218-564 | in every run of interleaved writes and handoff steps, a conversation once uncertain is clean later only by a step that took this very conversation from uncertain to certain, completing a provider that exited successfully |
| Capture.Perform | src/conversations.rs:381-1195 | running any operation on the class gives the document of the run semantics |
| Capture.CaptureContext.Interfere | src/conversations.rs:1211-1227 | between two accesses the registry moves by the others' operations that the lease allows |
| Capture.CaptureContext.ReconcilePendingLaunch | src/commands/codex_conversation.rs:361-476 | leaves the planned document and result of recovery |
| Capture.CaptureContext.ReconcileFound | src/commands/codex_conversation.rs:404-475 | the same for the candidate found |
| Capture.CaptureContext.FinishReconciliationFailure | src/commands/codex_conversation.rs:599-622 | terminal errors resolve the launch, all others keep it for a later recovery, and the error is always returned |
| Capture.CaptureContext.FinishCandidateBinding | src/commands/codex_conversation.rs:566-579 | binds, reports an unbound resolution, or turns an ownership conflict into a resolved launch |
| Capture.CaptureContext.CompleteTracked | src/commands/codex_conversation.rs:266-345 | leaves the planned document of a tracked completion |
| Capture.CaptureContext.RefreshBoundLifecycle | src/commands/codex_conversation.rs:347-359 | refreshes the expected binding with the settled lifecycle |
| Capture.CaptureContext.Complete | src/commands/codex_conversation.rs:235-264 | a failed checkpoint is recorded as failed capture or marked head and never fails the caller |
| Capture.CaptureContext.AdoptExactBinding | src/commands/codex_conversation.rs:581-597 | resolves the profile's own launch with the binding, then adopts it |
| Capture.CaptureContext.PrepareExact | src/commands/codex_conversation.rs:161-231 | adopts the read thread with recorded uncertainty kept |
| Capture.CaptureContext.PrepareTracked | src/commands/codex_conversation.rs:104-131 | recovers first, then records the launch with a complete inventory |
| Capture.CaptureContext.PrepareUntracked | src/commands/codex_conversation.rs:86-103 | records untracked ownership |
| Capture.CaptureContext.AuthorizeProviderSpawn | src/commands/codex_conversation.rs:139-147 | writes the spawn marker before the spawn |
| Capture.CaptureContext.ProviderSpawnFailed | src/commands/codex_conversation.rs:152-159 | drops the launch without a thread |
| SplitLease.OneProvider | src/commands/process.rs:237-458 | over every interleaving of any number of launches with at most one death in each, at most one provider is alive and its launch still holds half of the lease |
| SplitLease.NormalReturnIsClean | src/commands/process.rs:639-698 | a coordinator that returns after authorizing leaves no provider and no guardian |
| SplitLease.FreeLeaseAdmits | src/commands/process.rs:237-341 | from every reachable state with both halves free a new launch can reach a live provider |
| SplitLease.LaunchCompletes | src/commands/process.rs:423-698 | a launch without deaths can run to a normal return, after which both halves are free again |
| SplitLease.CoordinatorOutlivesGuardian | src/commands/process.rs:639-698 | a coordinator that loses its guardian, with or without a torn line, can wait for the provider and free its half |
| SplitLease.GuardianOutlivesCoordinator | src/commands/process.rs:443-458 | a guardian that loses its coordinator can wait for the provider and free its half |
| SplitLease.RefusedLaunchEnds | src/commands/process.rs:405-427 | a launch refused after GO ends without a provider and frees both halves |
| SplitLease.BothDeathsLoseTheLease | src/commands/process.rs:639-679 | with two deaths in one launch there is a run with two live providers |
| ControlLine.ReadControlLine | src/commands/process.rs:722-760 | for every chunking the reader returns what the byte stream alone decides and consumes exactly that much |
| ControlLine.BoundIsExact | src/commands/process.rs:722-760 | a line of 128 bytes is read, 129 bytes without a newline are refused whatever follows |
| ControlLine.FramesReadBack | src/commands/process.rs:722-760 | lines written one after another are read back one by one, with a torn tail as a torn line |
| ObservationModel.ClassifyUsage | src/usage_observations.rs:914-949 | exhausted exactly on an explicit signal before anything decisive, available exactly when some window is reported, none is full and nothing is decisive |
| ObservationModel.ReachedTypeSettles | src/usage_observations.rs:914-960 | a lone snapshot with a reached type is exhausted for the five explicit types and unknown for any other |
| ObservationModel.ByteLengthIsEncoded | src/usage_observations.rs:1055-1065 | limits on texts count the bytes of their UTF-8 encoding |
| ObservationModel.ValidateCache | src/usage_observations.rs:828-911 | the validator with its accumulated ids and revisions decides `ValidCache` |
| ObservationModel.AdmittedInput | src/usage_observations.rs:528-577 | the input checks together admit exactly the well-formed events under a valid policy |
| ObservationStore.CacheDocument.ReplaceEntry | src/usage_observations.rs:708-724 | replaces the profile's entry or inserts it in id order within the entry limit |
| ObservationStore.CacheDocument.PushAudit | src/usage_observations.rs:726-751 | advances the revision and keeps the last 512 audit events |
| ObservationStore.CacheDocument.ObserveUsage | src/usage_observations.rs:518-565 | the document holds what the event makes of it, or the first failing check is returned |
| ObservationStore.CacheDocument.ObserveFailure | src/usage_observations.rs:567-634 | likewise for a failure, keeping the last usage on record unless reads are unsupported |
| ObservationStore.CacheDocument.RequireRevalidation | src/usage_observations.rs:636-683 | likewise for a usage-limit signal |
| ObservationStore.ObservationStore.ObserveUsage | src/usage_observations.rs:301-325 | stores the observed document and returns its view, or changes nothing; the check before saving refuses no accepted event |
| ObservationStore.ObservationStore.ObserveFailure | src/usage_observations.rs:327-353 | likewise |
| ObservationStore.ObservationStore.RequireRevalidation | src/usage_observations.rs:364-375 | likewise |
| ObservationStore.ObservationStore.DueIdleRefresh | src/usage_observations.rs:391-409 | returns the queue of the stored document within the input limits |
| ObservationValidity.ObserveKeepsValid | src/usage_observations.rs:411-426 | every accepted event takes a valid document to a valid document |
| ObservationValidity.AcceptedExactly | src/usage_observations.rs:518-751 | an event is accepted exactly when its input is admitted, a revision is left and, in order, its deadline fits and its entry has room |
| ObservationValidity.ObserveElsewhere | src/usage_observations.rs:708-724 | no event changes another profile's entry |
| ObservationValidity.RetryDelayBounds | src/usage_observations.rs:97-108 | the backoff lies between base and cap however many failures |
| ObservationValidity.BackoffDoubles | src/usage_observations.rs:97-108 | it starts at the base and doubles up to the cap for the first 31 failures |
| ObservationHistory.EntryFollowsHistory | src/usage_observations.rs:518-724 | for every accepted history the stored entry is the one described by the profile's in-order events: latest time, standing evidence, failure run, deadline |
| ObservationHistory.LatestTimeIsMaximum | src/usage_observations.rs:685-688 | the latest time on record is the greatest event time, ignored events included |
| ObservationHistory.ViewFollowsHistory | src/usage_observations.rs:759-799 | available or exhausted exactly when the last in-order event is a usage read so classified and not yet expired; every other view likewise by an if-and-only-if |
| ObservationHistory.ViewShows | src/usage_observations.rs:789-799 | a view shows the standing usage read with its time and source, or no usage and the last event's own; the version and compatibility that stand; and the next refresh after the time to live, the backoff or at once |
| ObservationHistory.ViewExists | src/usage_observations.rs:759-760 | a profile has a view exactly when some event of it was accepted |
| ObservationHistory.SignalGatesSelection | src/usage_observations.rs:636-683 | after a usage-limit signal to which every read on record is earlier, neither is shown until a usage read no older than the signal |
| ObservationHistory.ReplayIsValid | src/usage_observations.rs:828-911 | every accepted history keeps the document valid |
| ObservationHistory.AuditIsTailOfLog | src/usage_observations.rs:726-751 | the audit is the last 512 entries of the full log, ignored events marked so, and the revision counts the history |
| ObservationHistory.AuditRevisions | src/usage_observations.rs:726-751 | its length is min(n, 512) and its revisions are consecutive up to the current one |
| RefreshQueue.DueTimeFollowsHistory | src/usage_observations.rs:801-826 | an idle profile is due exactly when its read expires or its backoff has passed, and at once while under a signal |
| RefreshQueue.NeverSeenIsDue | src/usage_observations.rs:801-826 | a profile never seen is due before all others |
| RefreshQueue.ReturnsLeastDue | src/usage_observations.rs:801-826 | returns distinct due idle profiles, as many as allowed, in due order, and none left out is due before one returned |
| RefreshQueue.RoundServes | src/usage_observations.rs:801-826 | answering every returned profile at the clock removes exactly those from the due set |
| RefreshQueue.QueueEmptiesInCeilingRounds | src/usage_observations.rs:801-826 | at a fixed clock the due set is empty after n rounds exactly when n is at least due / limit rounded up |
| RefreshQueue.AnswersAreAccepted | src/usage_observations.rs:518-634 | well-formed answers of a round are all accepted when deadlines, revisions and entries have room |
| Routing.RoutingDefinitions.Apply | src/routing.rs:506-534 | checks a copy and replaces the document at once; every refusal leaves it unchanged |
| Routing.RoutingDefinitions.ApplyMutation | src/routing.rs:536-723 | each of nine mutations edits the lists in place as specified, or names the check that stops it |
| Routing.RoutingDefinitions.Validate | src/routing.rs:733-825 | the two accumulating passes decide the cross-referenced invariant |
| Routing.ValidateDomains | src/routing.rs:743-775 | accepts exactly sorted domains with canonical members, no shared profile and no shared alias |
| Routing.ValidatePools | src/routing.rs:777-813 | accepts exactly sorted pools with distinct members of their own domain and unique aliases per provider |
| Routing.FoundIsMember | src/routing.rs:442-449 | binary search on a sorted member list is membership |
| RoutingRuns.EnabledPoolIsFixed | src/routing.rs:536-723 | while a pool stays enabled no run of mutations changes its ordered members, domain or provider, removes it or its domain, or drops a member from the domain |
| RoutingRuns.SnapshotStaysAuthorized | src/routing.rs:425-504 | a snapshot of an enabled pool authorizes every two distinct members for as long as the pool stays enabled |
| RoutingAcceptance.ValidatorTakesExactly | src/routing.rs:733-825 | the validator takes a changed document exactly when the request's profiles are free, its members lie in the pool's domain, the domain's pools stay inside and the counts fit; it refuses no rename, activation change or removal |
| RoutingAcceptance.AppliedExactly | src/routing.rs:506-534 | an attempt is accepted exactly when its revision is current, its own checks pass and, if it changes anything, the request is admissible |
| RoutingOutcomes.AppliedOutcome | src/routing.rs:506-723 | an accepted mutation leaves the pool or domain it names as asked and every other as found, reports a change exactly when it made one, and then counts one revision |
| RoutingOutcomes.AcceptedExactly | src/routing.rs:506-825 | an attempt is accepted exactly when its revision is current, its request is in order and, unless it holds already, it is admissible and a revision is left |
| RoutingOutcomes.MutatesExactly | src/routing.rs:536-723 | the checks before the whole-document validator pass exactly for requests in order: canonical names and members, free ids and aliases, existing and disabled targets |
| RoutingOutcomes.ChangesExactly | src/routing.rs:536-723 | a request changes something exactly when it does not hold already |
| RoutingOutcomes.EnablingEnables | src/routing.rs:691-708 | after an accepted enabling the pool hands out a snapshot of its members in order |
| RoutingOutcomes.SnapshotExactly | src/routing.rs:467-504 | a snapshot is given exactly of an enabled pool of the provider that has the source, and lists exactly the pool's members in order |
| RoutingOutcomes.AuthorizedExactly | src/routing.rs:425-456 | a handoff is authorized exactly between two different members of a domain of the provider |
| RoutingRuns.AuthorizationNamesOneDomain | src/routing.rs:425-456 | a profile is authorized in one trust domain only |
| Ustar.SplitRejoins | scripts/release_manifest.py:244-262 | the fields fit 155 and 100 bytes and rejoin to the name exactly when it is not 101 bytes with a leading slash |
| Ustar.SplitExactly | scripts/release_manifest.py:244-262 | a name splits exactly when it is ASCII and short, or some slash cuts it within both widths |
| Ustar.OctalFieldFits | scripts/release_manifest.py:238-241 | an octal field fills its width and reads back |
| Ustar.ChecksumFits | scripts/release_manifest.py:290-294 | the byte sum of any 512 bytes always fits six octal digits |
| Ustar.BuildHeader | scripts/release_manifest.py:265-294 | the array filled by slices and then checksummed is the specified header |
| Ustar.HeaderIsStandard | scripts/release_manifest.py:265-294 | byte by byte: the checksum field holds the sum of all other bytes and eight spaces, magic, version, owner, group and time are the fixed ones, and every unused byte is zero |
| Ustar.HeaderReadsBack | scripts/release_manifest.py:265-294 | a reader that checks magic and checksum gets back name, size, mode and type exactly for names without NUL that split faithfully |
| Ustar.HeaderIsInjective | scripts/release_manifest.py:265-294 | different entries have different headers |
| TarInspector.InspectTar | scripts/release_manifest.py:366-529 | the member loop and the trailing check accept exactly the streams and claims of `Accepts` |
| TarInspector.CheckClaims | scripts/release_manifest.py:383-434 | the metadata checks pass exactly for plain claims in layout order |
| TarInspector.CheckBytes | scripts/release_manifest.py:435-492 | the byte checks pass exactly when the stream holds the canonical header, a payload of the claimed size and zero padding |
| TarInspect.MembersAreSerialized | scripts/release_manifest.py:383-497 | the stretch before the members' end is the canonical serialization of the payloads found in the bytes |
| TarInspect.AcceptedIsCanonicalExactly | scripts/release_manifest.py:512-526 | an accepted stream is canonical exactly when the reader's end is in the record of the members' end with zeros between |
| TarInspect.AcceptedIsCanonical | scripts/release_manifest.py:383-526 | when the reader stopped where the members end, every byte of an accepted stream is pinned by its payloads |
| TarInspect.EntryReadsBack | scripts/release_manifest.py:383-434 | a USTAR reader gets the five entries by their literal names, modes and types with the size of their payload |
| TarInspect.CanonicalFillsRecords | scripts/release_manifest.py:512-526 | a canonical stream fills whole records of twenty blocks and ends in at least two blocks of zeros |
| TarInspect.CanonicalPayloadsAreUnique | scripts/release_manifest.py:383-526 | a canonical stream carries one list of payloads |
| TarInspect.CanonicalIsAccepted | scripts/release_manifest.py:383-526 | every canonical stream within the size limits is accepted under honest claims |
| TarInspect.LateEndIsAccepted | scripts/release_manifest.py:512-526 | an end reported one block late lets a noncanonical stream through |
| TarInspect.SomeNoncanonicalStreamIsAccepted | scripts/release_manifest.py:512-526 | for every short release name there is such a stream |

## Left out

- JSON text, UUID syntax, SHA-256, serialized-size limits, the system clock and random identifiers: documents are
  values, identifiers and times are parameters.
- File permissions, owners, links, symlinks, path canonicalization and lock files: a lock is exclusive, a file a value.
- Which validator rule refused a document, and error texts: a refused document is one error.
- Registry.ConversationRegistry.SaveDocument: the stored document is one value here; what power loss can expose between
  the system calls is in `Publication`, and storage errors other than a refused document are only there.
- The display-only parts of a usage snapshot: limit names and ids, plan type, credit balances, reset-credit details, and
  the texts and reset time of an individual limit; only its remaining percentage is kept.
- ObservationModel.AdmittedInput: speaks of the fields kept, so the text limits of the display-only ones are not in it.
- Routing: `resolve_domain_id`, `resolve_pool_id` and the inspection report, which are lookups and rendering.
- RoutingModel.Apply: reports every refusal of the whole-document validator as `Invalid`.
- SplitLease.OneProvider: an error of `set_read_timeout` after GO counts as the coordinator's death, and a recycled
  process id is not told apart from the provider's.
- Liveness of a coordinator that lost its guardian between GO and START: it parks for ever by design.
- The sockets, signals, test markers and child plumbing of `src/commands/process.rs`: its loops appear as transitions,
  because their safety is about interleavings; only `read_control_line` keeps its loop.
- Capture.CaptureContext.PrepareExact: a missing session id, and failures to canonicalize the directory, are not
  modelled.
- CaptureMarks.GuardedRun: that a launch is completed only after its stored spawn marker is taken from the order of
  `src/commands/process.rs:423-454`, and that the id of a new launch names no launch of the run from its random choice.
- CaptureRely.OtherOp: that only the holder of a profile's lease launches, binds or receives a handoff for that profile
  is taken from the lease, not derived.
- TarInspector.InspectTar: the SHA-256 of the binary is not computed, and the reader's claims are inputs, not produced
  from the bytes.
- TarInspect.LateEndIsAccepted: a reader that reports the end it reached never produces such an end; the statement
  trusts only the bytes.
- gzip and zip containers, manifest and checksum files, and every other script.
- Provider I/O (`read_thread_inventory`, `read_thread_metadata`): nondeterministic inputs, with a read always naming the
  thread that was asked for.
