/** Whole runs of launches, resumes, recoveries and handoffs, write by write. */
module CaptureRuns {
  import opened Prelude
  import opened ConversationModel
  import opened RegistryEdits
  import opened RegistryValidity
  import opened RegistryRuns
  import opened CaptureModel
  import opened CaptureRecovery
  import opened CaptureRely
  import opened CaptureSafety

  datatype Routine =
    | Recovery
    | TrackedStart(mode: LaunchMode)
    | UntrackedStart(mode: LaunchMode)
    | ExactStart(exact: ExactMode, thread: Uuid)
    | SpawnMark(capture: Capture)
    | SpawnFailure(capture: Capture)
    | Completion(capture: Capture, succeeded: bool)

  ghost function WritesOf(d: Document, r: Routine, w: World): seq<Write> {
    match r
    case Recovery => Reconcile(d, w).writes
    case TrackedStart(mode) => PrepareTracked(d, mode, w).writes
    case UntrackedStart(mode) => PrepareUntrackedLaunch(d, mode, w).writes
    case ExactStart(exact, thread) => PrepareExact(d, exact, thread, w).writes
    case SpawnMark(c) => Authorize(d, c).writes
    case SpawnFailure(c) => SpawnFailed(d, c, w).writes
    case Completion(c, succeeded) => Complete(d, c, succeeded, w).writes
  }

  // ---- lifecycle ------------------------------------------------------------------------------

  lemma OpWithoutBindingClearsNothing(d: Document, op: Op)
    requires ValidDocument(d) && BindingOfOp(op).None?
    ensures !Clears(d.conversations, Next(d, op).conversations)
  {
    hide ValidDocument, Next, Clears;
    if Clears(d.conversations, Next(d, op).conversations) { OnlyCleanBindingClears(d, op); }
  }

  lemma StartClearsNothing(d: Document, mode: LaunchMode, w: World)
    requires ValidDocument(d)
    ensures ClearsNothing(PrepareTracked(d, mode, w).writes)
  {
    hide ValidDocument, Next, Reconcile, Meanwhile, Clears, TrackedLaunch, BeginLaunch;
    RecoveryClearsNothing(d, w);
    ReconcileFine(d, w);
    var recovery := Reconcile(d, w);
    MeanwhileFine(recovery.document, w, 2);
    var d1 := Meanwhile(recovery.document, w, 2);
    OpWithoutBindingClearsNothing(d1, OpMarkAmbiguous(w.cwd));
    if w.launchInventory.Ok? {
      var i := w.launchInventory.value;
      OpWithoutBindingClearsNothing(d1, OpBeginLaunch(w.profile, w.cwd, mode, i.codexVersion, i.threads, w.launchId,
          w.now));
    }
  }

  /** No routine clears uncertainty, except the completion of a provider that exited successfully. */
  lemma OnlySuccessClears(d: Document, r: Routine, w: World)
    requires ValidDocument(d) && (r.Completion? ==> !r.succeeded)
    ensures ClearsNothing(WritesOf(d, r, w))
  {
    hide ValidDocument, Next, Clears, Reconcile, PrepareTracked, PrepareExact, Complete, UntrackedLaunch;
    match r
    case Recovery => RecoveryClearsNothing(d, w);
    case TrackedStart(mode) => StartClearsNothing(d, mode, w);
    case UntrackedStart(mode) =>
      OpWithoutBindingClearsNothing(d, OpPrepareUntracked(w.profile, w.cwd, mode, w.launchId, w.now));
    case ExactStart(exact, thread) => ExactResumeClearsNothing(d, exact, thread, w);
    case SpawnMark(c) =>
      if LaunchOf(c).Some? { OpWithoutBindingClearsNothing(d, OpProviderStarted(LaunchOf(c).value)); }
    case SpawnFailure(c) =>
      if LaunchOf(c).Some? {
        OpWithoutBindingClearsNothing(d, OpFinishLaunch(LaunchOf(c).value, NoThread, w.conversationId, w.now));
      }
    case Completion(c, _) => FailedCompletionClearsNothing(d, c, w);
  }

  /** One registry write of a run: by some routine that started on some valid document, or a handoff step. */
  datatype Step =
    | Own(start: Document, routine: Routine, world: World, write: Write)
    | HandoffStep(op: Op)

  ghost predicate LegalStep(d: Document, s: Step, e: Document) {
    match s
    case Own(start, routine, world, write) =>
      ValidDocument(start) && write in WritesOf(start, routine, world) && write.before == d && e == Next(d, write.op)
    case HandoffStep(op) => IsHandoffOp(op) && e == Next(d, op)
  }

  predicate SuccessfulCompletion(s: Step) {
    s.Own? && s.routine.Completion? && s.routine.succeeded
  }

  ghost predicate LegalRun(ds: seq<Document>, steps: seq<Step>) {
    && |ds| == |steps| + 1 && ValidDocument(ds[0])
    && forall k :: 0 <= k < |steps| ==> LegalStep(ds[k], steps[k], ds[k + 1])
  }

  lemma LegalStepKeepsValid(d: Document, s: Step, e: Document)
    requires ValidDocument(d) && LegalStep(d, s, e)
    ensures ValidDocument(e) && HistoryKept(d.conversations, e.conversations)
  {
    hide ValidDocument, Next, WritesOf, HistoryKept;
    var op := if s.Own? then s.write.op else s.op;
    NextIsValid(d, op);
    StepKeepsHistory(d, op);
  }

  lemma LegalStepClears(d: Document, s: Step, e: Document)
    requires ValidDocument(d) && LegalStep(d, s, e) && Clears(d.conversations, e.conversations)
    ensures SuccessfulCompletion(s)
  {
    hide ValidDocument, Next, WritesOf, Clears;
    if s.HandoffStep? {
      OpWithoutBindingClearsNothing(d, s.op);
    } else if !SuccessfulCompletion(s) {
      OnlySuccessClears(s.start, s.routine, s.world);
    }
  }

  lemma UsableLifecycle(d: Document, c: nat)
    requires ValidDocument(d) && c < |d.conversations|
    ensures d.conversations[c].lifecycle == Clean || Uncertain(d.conversations[c].lifecycle)
  {
    assert ValidConversation(d.conversations[c], d.schemaVersion == 1);
  }

  /** The step at k takes this conversation from uncertain to certain. */
  predicate SettlesAt(ds: seq<Document>, k: nat, c: nat) {
    && k + 1 < |ds| && c < |ds[k].conversations| && c < |ds[k + 1].conversations|
    && Uncertain(ds[k].conversations[c].lifecycle) && !Uncertain(ds[k + 1].conversations[c].lifecycle)
  }

  /** In any run a conversation that was interrupted or of unknown crash is clean later only by a step that settled this
      very conversation, and that step completed a provider that exited successfully. */
  lemma {:induction false} UncertaintyEndsOnlyInSuccess(ds: seq<Document>, steps: seq<Step>, c: nat)
    requires LegalRun(ds, steps) && c < |ds[0].conversations| && Uncertain(ds[0].conversations[c].lifecycle)
    ensures c < |ds[|steps|].conversations| && ValidDocument(ds[|steps|])
    ensures !Uncertain(ds[|steps|].conversations[c].lifecycle) ==>
              exists k :: 0 <= k < |steps| && SettlesAt(ds, k, c) && SuccessfulCompletion(steps[k])
  {
    hide ValidDocument, WritesOf, LegalStep, Clears, HistoryKept;
    var n := |steps|;
    if n > 0 {
      var front, fronts := ds[..n], steps[..n - 1];
      assert forall k :: 0 <= k < n - 1 ==> LegalStep(front[k], fronts[k], front[k + 1]);
      UncertaintyEndsOnlyInSuccess(front, fronts, c);
      assert LegalStep(ds[n - 1], steps[n - 1], ds[n - 1 + 1]);
      LegalStepKeepsValid(ds[n - 1], steps[n - 1], ds[n]);
      HistoryCount(ds[n - 1], ds[n]);
      UsableLifecycle(ds[n], c);
      if Uncertain(ds[n - 1].conversations[c].lifecycle) && !Uncertain(ds[n].conversations[c].lifecycle) {
        ClearedAt(ds[n - 1], ds[n], c);
        LegalStepClears(ds[n - 1], steps[n - 1], ds[n]);
        assert SettlesAt(ds, n - 1, c);
      } else if !Uncertain(ds[n - 1].conversations[c].lifecycle) {
        var k :| 0 <= k < n - 1 && SettlesAt(front, k, c) && SuccessfulCompletion(fronts[k]);
        assert SettlesAt(ds, k, c) && SuccessfulCompletion(steps[k]);
      }
    }
  }

  lemma HistoryCount(d: Document, e: Document)
    requires HistoryKept(d.conversations, e.conversations)
    ensures |d.conversations| <= |e.conversations|
  {
  }

  lemma ClearedAt(d: Document, e: Document, c: nat)
    requires c < |d.conversations| && c < |e.conversations|
    requires Uncertain(d.conversations[c].lifecycle) && e.conversations[c].lifecycle == Clean
    ensures Clears(d.conversations, e.conversations)
  {
  }

  // ---- launches that never reached the spawn marker -------------------------------------------

  lemma NonBindingKeepsLineages(d: Document, op: Op)
    requires ValidDocument(d) && !IsHandoffOp(op) && BindingOfOp(op).None?
    ensures Next(d, op).conversations == d.conversations
  {
    hide ValidDocument, EditOf;
    NextIs(d, op);
    if Next(d, op) != d { OrdinaryRebinds(d, op); }
  }

  /** A launch still in the prepared phase gains nothing from automatic recovery: no write changes any lineage. */
  lemma PreparedLaunchGainsNothing(d: Document, w: World)
    requires ValidDocument(d)
    requires PendingFor(d, w.profile, w.cwd).Ok? && PendingFor(d, w.profile, w.cwd).value.Some?
    requires PendingFor(d, w.profile, w.cwd).value.value.phase == PendingPhase.Prepared
    ensures forall x :: x in Reconcile(d, w).writes ==>
              BindingOfOp(x.op).None? && Next(x.before, x.op).conversations == x.before.conversations
  {
    hide ValidDocument, Reconcile, Next;
    RecoveryWritesOnly(d, w);
    ReconcileFine(d, w);
    forall x | x in Reconcile(d, w).writes
      ensures BindingOfOp(x.op).None? && Next(x.before, x.op).conversations == x.before.conversations
    {
      NonBindingKeepsLineages(x.before, x.op);
    }
  }

  lemma NoThreadKeepsHeads(d: Document, p: PendingLaunch, w: World)
    requires ValidDocument(d) && p in d.pendingLaunches && !p.mode.Untracked()
    ensures
      var e := Next(d, OpFinishLaunch(p.launchId, NoThread, w.conversationId, w.now));
      e.conversations == d.conversations && e.workspaceHeads == d.workspaceHeads
  {
    OnlyLaunch(d, p.launchId, p);
  }

  lemma PendingIsThere(d: Document, profile: Uuid, cwd: Cwd)
    requires PendingFor(d, profile, cwd).Ok? && PendingFor(d, profile, cwd).value.Some?
    ensures
      var p := PendingFor(d, profile, cwd).value.value;
      p in d.pendingLaunches && p.profileId == profile && p.cwd == cwd
  {
  }

  /** A prepared launch whose inventory shows no difference is dropped without touching the workspace head. */
  lemma PreparedWithoutDifferenceIsDropped(d: Document, w: World)
    requires ValidDocument(d)
    requires PendingFor(d, w.profile, w.cwd).Ok? && PendingFor(d, w.profile, w.cwd).value.Some?
    requires w.inventory.Ok? && w.inventory.value.complete && DistinctInventory(w.inventory.value.threads)
    requires
      var p, i := PendingFor(d, w.profile, w.cwd).value.value, w.inventory.value;
      && p.phase == PendingPhase.Prepared && p.codexVersion == Some(i.codexVersion) && !p.mode.Untracked()
      && forall u :: !Differ(p.preInventory, i.threads, u)
    ensures
      var x := Reconcile(d, w);
      && |x.writes| == 1 && x.document == Next(x.writes[0].before, x.writes[0].op)
      && x.document.workspaceHeads == x.writes[0].before.workspaceHeads
      && x.document.conversations == x.writes[0].before.conversations
  {
    hide ValidDocument, Next, RunOthers, InventoryCandidate;
    var p := PendingFor(d, w.profile, w.cwd).value.value;
    CandidateIsUniqueDifference(p.preInventory, w.inventory.value.threads);
    PendingIsThere(d, w.profile, w.cwd);
    MeanwhileFine(d, w, 0);
    OthersKeepLaunches(d, Gap(w, 0), w.profile);
    NoThreadKeepsHeads(Meanwhile(d, w, 0), p, w);
  }

  /** With a unique difference that reads back well, recovery tries to bind exactly when the phase is not prepared. */
  lemma RecoveryBindsExactly(d: Document, w: World, thread: Uuid)
    requires PendingFor(d, w.profile, w.cwd).Ok? && PendingFor(d, w.profile, w.cwd).value.Some?
    requires w.inventory.Ok? && w.inventory.value.complete && DistinctInventory(w.inventory.value.threads)
    requires ReadOf(w, thread).Ok? && ReadOf(w, thread).value.cwd == w.cwd
    requires
      var p, i := PendingFor(d, w.profile, w.cwd).value.value, w.inventory.value;
      && !p.mode.Untracked() && UniqueDifference(p.preInventory, i.threads, thread)
      && p.codexVersion == Some(i.codexVersion) == Some(ReadOf(w, thread).value.codexVersion)
    ensures (exists x :: x in Reconcile(d, w).writes && BindingOfOp(x.op).Some?)
       <==> PendingFor(d, w.profile, w.cwd).value.value.phase != PendingPhase.Prepared
  {
    hide Next, RunOthers, InventoryCandidate, FinishCandidate;
    var p := PendingFor(d, w.profile, w.cwd).value.value;
    var d1 := Meanwhile(d, w, 0);
    CandidateIsUniqueDifference(p.preInventory, w.inventory.value.threads);
    var b := BindingFromRead(w.profile, w.cwd, thread, ReadOf(w, thread).value).value;
    var recovered := b.(lifecycle := Recovered(b.lifecycle));
    CandidateWrites(d1, p.launchId, recovered, w, 1);
    var x := Write(d1, OpFinishLaunch(p.launchId, Bind(recovered), w.conversationId, w.now));
    if p.phase != PendingPhase.Prepared {
      assert Reconcile(d, w).writes[0] == x;
      assert x in Reconcile(d, w).writes && BindingOfOp(x.op).Some?;
    } else {
      RecoveryWritesOnly(d, w);
    }
  }
}
