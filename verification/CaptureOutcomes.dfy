/** What recovering, completing, resuming and starting leave in the registry, told by what its reader finds there. */
module CaptureOutcomes {
  import opened Prelude
  import opened ConversationModel
  import opened RegistryEdits
  import opened RegistryValidity
  import opened RegistryRuns
  import opened RegistryOutcomes
  import opened CaptureModel
  import opened CaptureRecovery
  import opened CaptureRely
  import opened CaptureSafety
  import opened CaptureRuns

  // ---- what can become of a launch ------------------------------------------------------------

  /** The launch is gone and its directory needs a selection, unless it had a marker before. */
  ghost predicate Unresolved(d: Document, e: Document, p: PendingLaunch) {
    && OnlyThisGone(d, e, p)
    && if !p.mode.Untracked() && DirectoryMarked(d, p.cwd) then HeadsAsFound(d, e) else HeadMarked(d, e, p.cwd)
  }

  ghost predicate Dropped(d: Document, e: Document, p: PendingLaunch) {
    OnlyThisGone(d, e, p) && HeadsAsFound(d, e)
  }

  /** The launch is gone and its directory resolves to this thread with this lifecycle. */
  ghost predicate Captured(d: Document, e: Document, p: PendingLaunch, b: BindingInput, newId: Uuid, now: int) {
    && OnlyThisGone(d, e, p)
    && ResolveHead(e, p.cwd).Ok? && BoundTo(d, e, b, ResolveHead(e, p.cwd).value, newId, now)
  }

  /** A launch that is pending, and a revision to store what becomes of it. */
  predicate CanSettle(d: Document, p: PendingLaunch) {
    p in d.pendingLaunches && d.revision < U64_MAX
  }

  lemma PendingIsFound(d: Document, p: PendingLaunch)
    requires ValidDocument(d) && p in d.pendingLaunches
    ensures FindLaunch(d.pendingLaunches, p.launchId) < |d.pendingLaunches|
    ensures d.pendingLaunches[FindLaunch(d.pendingLaunches, p.launchId)] == p
  {
    OnlyLaunch(d, p.launchId, p);
  }

  /** Resolving a pending launch is stored, and leaves and answers what the registry promises. */
  lemma FinishLeaves(d: Document, p: PendingLaunch, r: LaunchResolution, w: World)
    requires ValidDocument(d) && CanSettle(d, p)
    requires WouldBind(d, p, r) ==> Bindable(d, r.binding)
    requires r.Bind? ==> LineageFresh(d, r.binding, w.conversationId)
    ensures
      var f := Finish(d, p.launchId, r, w);
      && f.result.Ok? && (f.result.value.Some? <==> WouldBind(d, p, r))
      && if WouldMark(d, p, r) then Unresolved(d, f.document, p)
         else if WouldBind(d, p, r) then Captured(d, f.document, p, r.binding, w.conversationId, w.now)
         else Dropped(d, f.document, p)
  {
    hide ValidDocument, FinishLaunch, Bindable, LineageFresh, HeadMarked, OnlyThisGone, BoundTo, ResolveHead,
         HeadsAsFound,
         DirectoryMarked;
    var op := OpFinishLaunch(p.launchId, r, w.conversationId, w.now);
    PendingIsFound(d, p);
    FinishesExactly(d, p.launchId, r, w.conversationId, w.now);
    FinishKeepsRevision(d, p.launchId, r, w.conversationId, w.now);
    HonestEditSaved(d, op);
    SavedIsNext(d, op);
    FinishReplies(d, p, r, w);
    hide Next;
    StoredFinish(d, op);
  }

  lemma UnclearLeaves(d: Document, p: PendingLaunch, w: World)
    requires ValidDocument(d) && CanSettle(d, p)
    ensures Finish(d, p.launchId, Unclear, w).result == Ok(None)
    ensures Unresolved(d, Finish(d, p.launchId, Unclear, w).document, p)
  {
    hide ValidDocument, Finish, HeadMarked, OnlyThisGone, HeadsAsFound, DirectoryMarked;
    FinishLeaves(d, p, Unclear, w);
  }

  lemma SavedIsNext(d: Document, op: Op)
    requires EditOf(d, op).Ok? && Save(EditOf(d, op).value).Ok?
    ensures Next(d, op) == Save(EditOf(d, op).value).value && Next(d, op).revision == EditOf(d, op).value.revision + 1
  {
  }

  lemma FinishKeepsRevision(d: Document, id: Uuid, r: LaunchResolution, newId: Uuid, now: nat)
    ensures FinishLaunch(d, id, r, newId, now).Ok? ==> FinishLaunch(d, id, r, newId, now).value.0.revision == d.revision
  {
  }

  lemma FinishReplies(d: Document, p: PendingLaunch, r: LaunchResolution, w: World)
    requires ValidDocument(d) && p in d.pendingLaunches && FinishLaunch(d, p.launchId, r, w.conversationId, w.now).Ok?
    ensures FinishLaunch(d, p.launchId, r, w.conversationId, w.now).value.1.Some? <==> WouldBind(d, p, r)
  {
    PendingIsFound(d, p);
    MarkerIsFound(d, p.cwd);
    hide ValidDocument, DirectoryMarked, BindDocument;
  }

  // ---- a candidate ----------------------------------------------------------------------------

  /** The thread is held by another profile, or is active in another directory: its owner cannot be this launch. */
  ghost predicate HeldElsewhere(d: Document, b: BindingInput) {
    BoundElsewhere(d.conversations, b.profileId, b.threadId)
    || exists i :: 0 <= i < |d.conversations| && ActiveAway(d.conversations[i], b)
  }

  predicate ActiveAway(c: Conversation, b: BindingInput) {
    && c.activeGeneration < |c.generations|
    && var g := c.generations[c.activeGeneration];
       g.profileId == b.profileId && g.threadId == b.threadId && g.cwd != b.cwd
  }

  predicate UsableBinding(b: BindingInput) {
    b.codexVersion == CODEX_VERSION && Usable(b.lifecycle)
  }

  /** Binding a thread held elsewhere is refused by name, and any other refusal is ambiguous. */
  lemma BindRefusal(d: Document, b: BindingInput, newId: Uuid, now: int)
    requires ValidDocument(d) && UsableBinding(b) && !Transitioning(d, b.cwd) && !Bindable(d, b)
    ensures
      var r := BindDocument(d, b, newId, now);
      r.Err? && (HeldElsewhere(d, b) <==> r.error == ProfileMismatch || r.error == CwdMismatch)
      && (!HeldElsewhere(d, b) ==> r.error == ConversationError.Ambiguous)
  {
    hide ValidDocument, Bindable, BoundElsewhere;
    BindsExactly(d, b, newId, now);
    var cs := d.conversations;
    var k := FindOwner(cs, b.profileId, b.threadId);
    if k < |cs| && !BoundElsewhere(cs, b.profileId, b.threadId) {
      OwnedBinds(d, b, newId, now);
      var n := FindBound(cs[k].generations, b.profileId, b.threadId);
      if n == cs[k].activeGeneration {
        assert ActiveAway(cs[k], b);
      } else {
        forall i | 0 <= i < |cs| ensures !ActiveAway(cs[i], b) {
          if ActiveAway(cs[i], b) { AwayIsOwner(d, i, b); }
        }
      }
    }
  }

  lemma AwayIsOwner(d: Document, i: nat, b: BindingInput)
    requires ValidDocument(d) && i < |d.conversations| && ActiveAway(d.conversations[i], b)
    requires FindOwner(d.conversations, b.profileId, b.threadId) < |d.conversations|
    ensures
      var k := FindOwner(d.conversations, b.profileId, b.threadId);
      && FindBound(d.conversations[k].generations, b.profileId, b.threadId) < |d.conversations[k].generations|
      && FindBound(d.conversations[k].generations, b.profileId, b.threadId) == d.conversations[k].activeGeneration
  {
    var cs := d.conversations;
    var k := FindOwner(cs, b.profileId, b.threadId);
    assert DistinctThreads(cs);
    hide ValidDocument;
    HolderIsOwner(cs, k, FindBound(cs[k].generations, b.profileId, b.threadId), i, cs[i].activeGeneration);
  }

  lemma NoTransitionHere(d: Document, p: PendingLaunch)
    requires ValidDocument(d) && p in d.pendingLaunches
    ensures !Transitioning(d, p.cwd)
  {
  }

  /** What binding a candidate leaves and answers, `m` being the document found after a refusal. */
  ghost predicate CandidateSettled(d: Document, m: Document, x: Done<()>, p: PendingLaunch, b: BindingInput, w: World) {
    if DirectoryMarked(d, p.cwd) then x.result == Err(AMBIGUOUS) && Dropped(d, x.document, p)
    else if Bindable(d, b) then x.result == Ok(()) && Captured(d, x.document, p, b, w.conversationId, w.now)
    else if HeldElsewhere(d, b) then x.result.Err? && Unresolved(m, x.document, p)
    else x.result == Err(AMBIGUOUS) && x.document == d
  }

  /** Binding a candidate to its launch: it is what the directory resolves to, or the directory was marked, or the
      thread is held elsewhere and the launch is resolved without it, or the launch is left for later. */
  lemma CandidateOutcome(d: Document, p: PendingLaunch, b: BindingInput, w: World, gap: nat)
    requires ValidDocument(d) && CanSettle(d, p) && !p.mode.Untracked() && p.profileId == w.profile
    requires Matches(b, p) && UsableBinding(b) && LineageFresh(d, b, w.conversationId)
    requires Meanwhile(d, w, gap).revision < U64_MAX
    ensures CandidateSettled(d, Meanwhile(d, w, gap), BindOrAmbiguous(d, p.launchId, b, w, gap), p, b, w)
  {
    hide ValidDocument, Next, RunOthers, Bindable, LineageFresh, FinishLaunch, DirectoryMarked, Captured, Dropped,
         Unresolved,
         HeldElsewhere;
    NoTransitionHere(d, p);
    if DirectoryMarked(d, p.cwd) || Bindable(d, b) {
      FinishLeaves(d, p, Bind(b), w);
    } else {
      RefusedFinish(d, p, b, w);
      var e := Meanwhile(d, w, gap);
      MeanwhileFine(d, w, gap);
      OthersKeepLaunches(d, Gap(w, gap), w.profile);
      UnclearLeaves(e, p, w);
    }
  }

  lemma RestHeld(d: Document, rest: Document, b: BindingInput)
    requires rest.conversations == d.conversations
    ensures HeldElsewhere(rest, b) <==> HeldElsewhere(d, b)
  {
  }

  /** A binding that is refused leaves the document, and its error names who holds the thread. */
  lemma RefusedFinish(d: Document, p: PendingLaunch, b: BindingInput, w: World)
    requires ValidDocument(d) && p in d.pendingLaunches && WouldBind(d, p, Bind(b)) && UsableBinding(b)
    requires !Bindable(d, b)
    ensures
      var f := Finish(d, p.launchId, Bind(b), w);
      && f.document == d && f.result.Err?
      && (HeldElsewhere(d, b) <==> f.result.error == Refused(ProfileMismatch) || f.result.error == Refused(CwdMismatch))
      && (!HeldElsewhere(d, b) ==> f.result.error == AMBIGUOUS)
  {
    hide ValidDocument, BindDocument, Bindable, DirectoryMarked, HeldElsewhere, ReadyHead, MarkHead;
    PendingIsFound(d, p);
    MarkerIsFound(d, p.cwd);
    NoTransitionHere(d, p);
    var k := FindLaunch(d.pendingLaunches, p.launchId);
    RemoveKeepsValid(d, k);
    RestBindable(d, WithoutLaunch(d, k), b);
    BindRefusal(WithoutLaunch(d, k), b, w.conversationId, w.now);
    RestHeld(d, WithoutLaunch(d, k), b);
  }

  // ---- the inventory difference ---------------------------------------------------------------

  ghost predicate NoDifference(p: PendingLaunch, w: World)
    requires w.inventory.Ok?
  {
    forall u :: !Differ(p.preInventory, w.inventory.value.threads, u)
  }

  ghost predicate NewThread(p: PendingLaunch, w: World, thread: Uuid)
    requires w.inventory.Ok?
  {
    UniqueDifference(p.preInventory, w.inventory.value.threads, thread)
  }

  /** The inventory is a complete one of the launch's own version. */
  predicate InventoryRead(p: PendingLaunch, w: World) {
    && w.inventory.Ok? && w.inventory.value.complete && DistinctInventory(w.inventory.value.threads)
    && p.codexVersion == Some(w.inventory.value.codexVersion)
  }

  /** The thread reads back in the right directory under the launch's own version. */
  predicate ThreadReads(p: PendingLaunch, w: World, thread: Uuid) {
    && ReadOf(w, thread).Ok? && ReadOf(w, thread).value.cwd == w.cwd
    && p.codexVersion == Some(ReadOf(w, thread).value.codexVersion)
  }

  /** The inventory could not be read for a reason that no later recovery can repair. */
  predicate GoneForGood(e: Failure) {
    e in {Refused(RolloutMissing), Refused(ConversationError.Archived), Refused(SessionSchemaUnsupported),
          Refused(CodexVersionUnsupported), Refused(ProfileMismatch), Refused(CwdMismatch),
              Refused(ThreadProtocolInvalid)}
  }

  lemma GoneIsTerminal(e: Failure)
    ensures GoneForGood(e) <==> Terminal(e)
  {
  }

  /** Failing a reconciliation resolves the launch as unclear for good, or keeps it as a failed capture for later; it
      always fails with the given error. */
  lemma FailureOutcome(d: Document, p: PendingLaunch, e: Failure, w: World)
    requires ValidDocument(d) && CanSettle(d, p)
    ensures
      var x := FailReconciliation<()>(d, p.launchId, e, w);
      && x.result == Err(e)
      && if GoneForGood(e) then Unresolved(d, x.document, p) else FailedCapture(d, x.document, p)
  {
    hide ValidDocument, Finish, Unresolved, OnlyThisGone, FailedCapture;
    GoneIsTerminal(e);
    if Terminal(e) { UnclearLeaves(d, p, w); } else { MarkLeaves(d, p); }
  }

  /** The launch is still there, as a failed capture, and nothing else changed. */
  ghost predicate FailedCapture(d: Document, e: Document, p: PendingLaunch) {
    && HeadsAsFound(d, e) && |e.pendingLaunches| == |d.pendingLaunches|
    && exists k :: 0 <= k < |d.pendingLaunches| && d.pendingLaunches[k] == p
                   && e.pendingLaunches == d.pendingLaunches[k := p.(phase := CaptureFailed)]
  }

  lemma MarkLeaves(d: Document, p: PendingLaunch)
    requires ValidDocument(d) && CanSettle(d, p)
    ensures MarkFailed(d, p.launchId).result == Ok(()) && FailedCapture(d, MarkFailed(d, p.launchId).document, p)
  {
    hide ValidDocument;
    var op := OpCaptureFailed(p.launchId);
    PendingIsFound(d, p);
    HonestEditSaved(d, op);
    SavedIsNext(d, op);
    var k := FindLaunch(d.pendingLaunches, p.launchId);
    hide Next, FindLaunch;
    PhaseOutcome(d, op);
    assert Next(d, op).pendingLaunches == d.pendingLaunches[k := p.(phase := CaptureFailed)];
  }

  // ---- recovery -------------------------------------------------------------------------------

  /** What recovery found says nothing safe about the launch: it is untracked, or the inventory is incomplete, of
      another version or beyond reading, or it differs in a way that no started launch explains. */
  ghost predicate UnclearRecovery(p: PendingLaunch, w: World) {
    || p.mode.Untracked()
    || (w.inventory.Err? && GoneForGood(w.inventory.error))
    || (w.inventory.Ok? && !w.inventory.value.complete)
    || (w.inventory.Ok? && p.codexVersion != Some(w.inventory.value.codexVersion))
    || (InventoryRead(p, w)
        && if NoDifference(p, w) then p.phase != PendingPhase.Prepared
           else (exists t :: NewThread(p, w, t)) ==> p.phase == PendingPhase.Prepared)
  }

  lemma FoundIsTracked(d: Document, w: World)
    requires ValidDocument(d) && PendingFor(d, w.profile, w.cwd).Ok? && PendingFor(d, w.profile, w.cwd).value.Some?
    ensures
      var p := PendingFor(d, w.profile, w.cwd).value.value;
      p in d.pendingLaunches && p.profileId == w.profile && p.cwd == w.cwd
      && (!p.mode.Untracked() ==> p.codexVersion == Some(CODEX_VERSION))
  {
    PendingIsThere(d, w.profile, w.cwd);
    assert ValidPending(PendingFor(d, w.profile, w.cwd).value.value);
  }

  lemma MismatchIsGone()
    ensures GoneForGood(Refused(SessionSchemaUnsupported))
  {
  }

  lemma CandidateOf(p: PendingLaunch, w: World)
    requires InventoryRead(p, w)
    ensures
      var c := InventoryCandidate(p.preInventory, w.inventory.value.threads);
      && (c == NoCandidate <==> NoDifference(p, w))
      && (forall t :: c == One(t) <==> NewThread(p, w, t))
      && (c.One? <==> exists t :: NewThread(p, w, t))
  {
    hide UniqueDifference, InventoryCandidate, Differ;
    CandidateIsUniqueDifference(p.preInventory, w.inventory.value.threads);
    var c := InventoryCandidate(p.preInventory, w.inventory.value.threads);
    if c.One? { assert NewThread(p, w, c.thread); }
  }

  /** Without a launch of its profile in the directory recovery succeeds at once. */
  lemma NothingToRecover(d: Document, w: World)
    requires ValidDocument(d) && forall p :: p in d.pendingLaunches ==> !(p.profileId == w.profile && p.cwd == w.cwd)
    ensures Reconcile(d, w) == Done(d, [], Ok(()))
  {
    hide ValidDocument;
    OwnLaunchIsFound(d, w.profile, w.cwd);
    if PendingFor(d, w.profile, w.cwd).value.Some? { PendingIsThere(d, w.profile, w.cwd); }
  }

  /** A launch that recovery cannot explain is resolved: it is gone, its directory needs a selection, no lineage changed
      and the start that asked for the recovery is refused. */
  lemma UnclearIsResolved(d: Document, w: World)
    requires ValidDocument(d) && PendingFor(d, w.profile, w.cwd).Ok? && PendingFor(d, w.profile, w.cwd).value.Some?
    requires Meanwhile(d, w, 0).revision < U64_MAX
    requires UnclearRecovery(PendingFor(d, w.profile, w.cwd).value.value, w)
    ensures
      var p := PendingFor(d, w.profile, w.cwd).value.value;
      Reconcile(d, w).result.Err? && Unresolved(Meanwhile(d, w, 0), Reconcile(d, w).document, p)
  {
    hide ValidDocument, Next, RunOthers, Finish, FailReconciliation, Unresolved, InventoryCandidate, GoneForGood,
         NoDifference, NewThread;
    var p := PendingFor(d, w.profile, w.cwd).value.value;
    var d1 := Meanwhile(d, w, 0);
    FoundIsTracked(d, w);
    MeanwhileFine(d, w, 0);
    OthersKeepLaunches(d, Gap(w, 0), w.profile);
    UnclearLeaves(d1, p, w);
    if w.inventory.Err? {
      FailureOutcome(d1, p, w.inventory.error, w);
    } else {
      MismatchIsGone();
      FailureOutcome(d1, p, Refused(SessionSchemaUnsupported), w);
      if InventoryRead(p, w) { CandidateOf(p, w); }
    }
  }

  function RecoveredAs(l: ThreadLifecycle): Lifecycle {
    match l
    case ReadClean => UnknownCrash
    case ReadInterrupted => Interrupted
    case ReadUnknownCrash => UnknownCrash
  }

  /** Why a thread's read cannot be used for this launch. */
  function ReadFailure(p: PendingLaunch, w: World, thread: Uuid): Failure
    requires !ThreadReads(p, w, thread)
  {
    if ReadOf(w, thread).Err? then ReadOf(w, thread).error
    else if p.codexVersion != Some(ReadOf(w, thread).value.codexVersion) then Refused(SessionSchemaUnsupported)
    else Refused(CwdMismatch)
  }

  /** The launch that recovery or completion finds, and what it can rely on to settle it. */
  ghost predicate Finds(d: Document, w: World, p: PendingLaunch) {
    && ValidDocument(d) && PendingFor(d, w.profile, w.cwd) == Ok(Some(p)) && !p.mode.Untracked()
    && Meanwhile(d, w, 0).revision < U64_MAX && Meanwhile(Meanwhile(d, w, 0), w, 1).revision < U64_MAX
  }

  lemma FoundCanSettle(d: Document, w: World, p: PendingLaunch)
    requires Finds(d, w, p)
    ensures
      var d1 := Meanwhile(d, w, 0);
      && ValidDocument(d1) && CanSettle(d1, p) && p.profileId == w.profile && p.cwd == w.cwd
      && p.codexVersion == Some(CODEX_VERSION)
  {
    hide ValidDocument, RunOthers;
    FoundIsTracked(d, w);
    MeanwhileFine(d, w, 0);
    OthersKeepLaunches(d, Gap(w, 0), w.profile);
  }

  /** A started launch with one new thread that reads well is bound to it, with the crash on record. */
  lemma StartedIsRecovered(d: Document, w: World, p: PendingLaunch, thread: Uuid)
    requires Finds(d, w, p) && p.phase != PendingPhase.Prepared
    requires InventoryRead(p, w) && NewThread(p, w, thread) && ThreadReads(p, w, thread)
    requires
      var b := BindingInput(w.profile, thread, w.cwd, CODEX_VERSION, RecoveredAs(ReadOf(w, thread).value.lifecycle));
      LineageFresh(Meanwhile(d, w, 0), b, w.conversationId)
    ensures
      var b := BindingInput(w.profile, thread, w.cwd, CODEX_VERSION, RecoveredAs(ReadOf(w, thread).value.lifecycle));
      var d1 := Meanwhile(d, w, 0);
      CandidateSettled(d1, Meanwhile(d1, w, 1), Reconcile(d, w), p, b, w)
  {
    hide ValidDocument, Next, RunOthers, InventoryCandidate, CandidateSettled, BindOrAmbiguous, NewThread, LineageFresh;
    FoundCanSettle(d, w, p);
    CandidateOf(p, w);
    var b := BindingInput(w.profile, thread, w.cwd, CODEX_VERSION, RecoveredAs(ReadOf(w, thread).value.lifecycle));
    CandidateOutcome(Meanwhile(d, w, 0), p, b, w, 1);
  }

  /** Recovery fails by the error of what it could not read, after resolving the launch or keeping it for later. */
  lemma UnreadIsKept(d: Document, w: World, p: PendingLaunch, thread: Uuid)
    requires Finds(d, w, p)
    requires w.inventory.Ok? ==>
               p.phase != PendingPhase.Prepared && InventoryRead(p, w) && NewThread(p, w, thread)
                   && !ThreadReads(p, w, thread)
    ensures
      var e := if w.inventory.Err? then w.inventory.error else ReadFailure(p, w, thread);
      var d1, x := Meanwhile(d, w, 0), Reconcile(d, w);
      x.result == Err(e) && if GoneForGood(e) then Unresolved(d1, x.document, p) else FailedCapture(d1, x.document, p)
  {
    hide ValidDocument, Next, RunOthers, InventoryCandidate, FailReconciliation, Unresolved, FailedCapture, NewThread,
         GoneForGood;
    FoundCanSettle(d, w, p);
    if w.inventory.Ok? { CandidateOf(p, w); }
    FailureOutcome(Meanwhile(d, w, 0), p, if w.inventory.Err? then w.inventory.error else ReadFailure(p, w, thread), w);
  }

  // ---- completion -----------------------------------------------------------------------------

  /** Only a provider that exited successfully leaves a clean read clean. */
  function SettledAs(l: ThreadLifecycle, succeeded: bool): Lifecycle {
    match l
    case ReadClean => if succeeded then Clean else UnknownCrash
    case ReadInterrupted => Interrupted
    case ReadUnknownCrash => UnknownCrash
  }

  /** Completing a launch whose provider left one new thread that reads well binds it to that thread. */
  lemma CompletionBinds(d: Document, w: World, p: PendingLaunch, thread: Uuid, succeeded: bool)
    requires Finds(d, w, p) && InventoryRead(p, w) && NewThread(p, w, thread) && ThreadReads(p, w, thread)
    requires
      var b := BindingInput(w.profile, thread, w.cwd, CODEX_VERSION,
          SettledAs(ReadOf(w, thread).value.lifecycle, succeeded));
      LineageFresh(Meanwhile(d, w, 0), b, w.conversationId)
    ensures
      var b := BindingInput(w.profile, thread, w.cwd, CODEX_VERSION,
          SettledAs(ReadOf(w, thread).value.lifecycle, succeeded));
      var d1, x := Meanwhile(d, w, 0), CompleteTracked(d, p.launchId, succeeded, w);
      && CandidateSettled(d1, Meanwhile(d1, w, 1), x, p, b, w)
      && x.writes != [] && x.writes[0] == Write(d1, OpFinishLaunch(p.launchId, Bind(b), w.conversationId, w.now))
  {
    hide ValidDocument, Next, RunOthers, InventoryCandidate, CandidateSettled, FinishCandidate, NewThread, LineageFresh;
    FoundCanSettle(d, w, p);
    CandidateOf(p, w);
    var b := BindingInput(w.profile, thread, w.cwd, CODEX_VERSION,
        SettledAs(ReadOf(w, thread).value.lifecycle, succeeded));
    CandidateOutcome(Meanwhile(d, w, 0), p, b, w, 1);
    CandidateWrites(Meanwhile(d, w, 0), p.launchId, b, w, 1);
  }

  /** A provider that left no trace: its launch is dropped, leaving heads and lineages as found. */
  lemma CompletionDrops(d: Document, w: World, p: PendingLaunch, succeeded: bool)
    requires Finds(d, w, p) && InventoryRead(p, w) && NoDifference(p, w)
    ensures
      var d1, x := Meanwhile(d, w, 0), CompleteTracked(d, p.launchId, succeeded, w);
      && x.result == Ok(()) && Dropped(d1, x.document, p)
      && x.writes == [Write(d1, OpFinishLaunch(p.launchId, NoThread, w.conversationId, w.now))]
  {
    hide ValidDocument, Next, RunOthers, InventoryCandidate, Dropped, NoDifference;
    FoundCanSettle(d, w, p);
    CandidateOf(p, w);
    FinishLeaves(Meanwhile(d, w, 0), p, NoThread, w);
  }

  /** The inventory after the run does not name one new thread: it is incomplete or differs in several places. */
  ghost predicate UnclearCompletion(p: PendingLaunch, w: World) {
    && w.inventory.Ok?
    && (!w.inventory.value.complete
        || (InventoryRead(p, w) && !NoDifference(p, w) && !exists t :: NewThread(p, w, t)))
  }

  lemma CompletionIsUnclear(d: Document, w: World, p: PendingLaunch, succeeded: bool)
    requires Finds(d, w, p) && UnclearCompletion(p, w)
    ensures
      var d1, x := Meanwhile(d, w, 0), CompleteTracked(d, p.launchId, succeeded, w);
      && x.result == Err(AMBIGUOUS) && Unresolved(d1, x.document, p)
      && x.writes == [Write(d1, OpFinishLaunch(p.launchId, Unclear, w.conversationId, w.now))]
  {
    hide ValidDocument, Next, RunOthers, InventoryCandidate, Unresolved, NoDifference, NewThread;
    FoundCanSettle(d, w, p);
    if w.inventory.value.complete { CandidateOf(p, w); }
    UnclearLeaves(Meanwhile(d, w, 0), p, w);
  }

  /** Why a completion could not read what it needed. */
  function CompletionFailure(p: PendingLaunch, w: World, thread: Uuid): Failure
    requires w.inventory.Ok? && w.inventory.value.complete ==>
               p.codexVersion == Some(w.inventory.value.codexVersion) ==> !ThreadReads(p, w, thread)
  {
    if w.inventory.Err? then w.inventory.error
    else if !w.inventory.value.complete || p.codexVersion != Some(w.inventory.value.codexVersion)
    then Refused(SessionSchemaUnsupported)
    else ReadFailure(p, w, thread)
  }

  lemma CompletionFails(d: Document, w: World, p: PendingLaunch, thread: Uuid, succeeded: bool)
    requires Finds(d, w, p)
    requires w.inventory.Ok? ==>
               && w.inventory.value.complete
               && (p.codexVersion == Some(w.inventory.value.codexVersion) ==>
                     InventoryRead(p, w) && NewThread(p, w, thread) && !ThreadReads(p, w, thread))
    ensures
      var e, d1, x := CompletionFailure(p, w, thread), Meanwhile(d, w, 0), CompleteTracked(d, p.launchId, succeeded, w);
      x.result == Err(e) && if GoneForGood(e) then Unresolved(d1, x.document, p) else FailedCapture(d1, x.document, p)
  {
    hide ValidDocument, Next, RunOthers, InventoryCandidate, FailReconciliation, Unresolved, FailedCapture, NewThread,
         GoneForGood;
    FoundCanSettle(d, w, p);
    if InventoryRead(p, w) { CandidateOf(p, w); }
    FailureOutcome(Meanwhile(d, w, 0), p, CompletionFailure(p, w, thread), w);
  }

  /** A completion that does not find its own tracked launch touches nothing and fails. */
  lemma CompletionOfAnother(d: Document, id: Uuid, succeeded: bool, w: World)
    requires
      var r := PendingFor(d, w.profile, w.cwd);
      r.Ok? ==> r.value.Some? ==> r.value.value.launchId != id || r.value.value.mode.Untracked()
    ensures
      var x := CompleteTracked(d, id, succeeded, w);
      x.document == d && x.writes == [] && x.result.Err?
  {
  }

  /** The caller of a completion never fails: a completion that failed leaves its launch, if it is still there, as a
      failed capture; one that succeeded is all that happens. */
  lemma CompleteRecordsFailure(d: Document, id: Uuid, succeeded: bool, w: World)
    requires ValidDocument(d)
    requires Meanwhile(CompleteTracked(d, id, succeeded, w).document, w, 2).revision < U64_MAX
    ensures
      var t, x := CompleteTracked(d, id, succeeded, w), Complete(d, Tracked(id), succeeded, w);
      var m := Meanwhile(t.document, w, 2);
      && x.result == Ok(())
      && if t.result.Ok? then x.document == t.document
         else if FindLaunch(m.pendingLaunches, id) < |m.pendingLaunches|
         then FailedCapture(m, x.document, m.pendingLaunches[FindLaunch(m.pendingLaunches, id)])
         else x.document == m
  {
    hide ValidDocument, RunOthers, CompleteTracked, FailedCapture, Next;
    var t := CompleteTracked(d, id, succeeded, w);
    CompleteTrackedFine(d, id, succeeded, w);
    MeanwhileFine(t.document, w, 2);
    var m := Meanwhile(t.document, w, 2);
    var k := FindLaunch(m.pendingLaunches, id);
    if k < |m.pendingLaunches| {
      assert m.pendingLaunches[k] in m.pendingLaunches;
      MarkLeaves(m, m.pendingLaunches[k]);
    } else {
      UnknownMark(m, id);
    }
  }

  lemma UnknownMark(d: Document, id: Uuid)
    requires FindLaunch(d.pendingLaunches, id) == |d.pendingLaunches|
    ensures MarkFailed(d, id).document == d
  {
  }

  /** Completing an exactly resumed thread records its lifecycle while the directory still resolves to it. Otherwise the
      directory needs a selection. */
  lemma BoundIsSettled(d: Document, x: HeadBinding, succeeded: bool, w: World)
    requires ValidDocument(d) && d.revision < U64_MAX && Meanwhile(d, w, 2).revision < U64_MAX
    requires x.profileId == w.profile
    ensures
      var c, m := Complete(d, Bound(x), succeeded, w), Meanwhile(d, w, 2);
      var read := ReadOf(w, x.threadId);
      if read.Ok? && read.value.cwd == w.cwd && read.value.codexVersion == CODEX_VERSION == x.codexVersion
         && ResolveHead(d, w.cwd).Ok? && ResolveHead(d, w.cwd).value.(lifecycle := x.lifecycle) == x
      then
        var settled := x.(lifecycle := SettledAs(read.value.lifecycle, succeeded));
        ResolveHead(c.document, w.cwd) == Ok(settled) && OtherHeadsKept(d, c.document, w.cwd)
      else if Transitioning(m, w.cwd) then c.document == m
      else HeadMarked(m, c.document, w.cwd)
  {
    hide ValidDocument, RunOthers, ResolveHead, RefreshAdopted, HeadMarked, OtherHeadsKept, Next, Transact;
    var read := ReadOf(w, x.threadId);
    var m := Meanwhile(d, w, 2);
    MeanwhileFine(d, w, 2);
    MarkingLeaves(m, w.cwd);
    if read.Ok? && read.value.cwd == w.cwd {
      var b := BindingInput(w.profile, x.threadId, w.cwd, read.value.codexVersion,
          SettledAs(read.value.lifecycle, succeeded));
      RefreshLeaves(d, x, b, w);
    }
    if ResolveHead(d, w.cwd).Ok? { ResolvedIsActive(d, w.cwd); }
  }

  lemma MarkingLeaves(d: Document, cwd: Cwd)
    requires ValidDocument(d) && d.revision < U64_MAX
    ensures
      var m := MarkAmbiguous(d, cwd);
      if Transitioning(d, cwd) then m.document == d && m.result == Err(Refused(TransitionBusy))
      else m.result == Ok(()) && HeadMarked(d, m.document, cwd)
  {
    hide ValidDocument, HeadMarked;
    var op := OpMarkAmbiguous(cwd);
    if !Transitioning(d, cwd) {
      MarkKeepsRevision(d, cwd);
      HonestEditSaved(d, op);
      SavedIsNext(d, op);
    }
    hide Next;
    StoredMarking(d, op);
  }

  lemma MarkKeepsRevision(d: Document, cwd: Cwd)
    ensures MarkHead(d, cwd).revision == d.revision
  {
  }

  /** A refresh is stored exactly while the directory resolves to the expected binding; else nothing changes. */
  lemma RefreshLeaves(d: Document, x: HeadBinding, b: BindingInput, w: World)
    requires ValidDocument(d) && d.revision < U64_MAX && Usable(b.lifecycle)
    ensures
      var op := OpRefresh(x, b, w.conversationId, w.now);
      var r := Transact(d, RefreshAdopted(d, x, b, w.conversationId, w.now)).1;
      if b.codexVersion == CODEX_VERSION && x.profileId == b.profileId && x.threadId == b.threadId && x.cwd == b.cwd
         && x.codexVersion == b.codexVersion && ResolveHead(d, b.cwd).Ok?
         && ResolveHead(d, b.cwd).value.(lifecycle := x.lifecycle) == x
      then r.Ok? && ResolveHead(Next(d, op), b.cwd) == Ok(x.(lifecycle := b.lifecycle))
           && OtherHeadsKept(d, Next(d, op), b.cwd)
      else r.Err? && Next(d, op) == d
  {
    hide ValidDocument, ResolveHead, RefreshAdopted, OtherHeadsKept;
    var op := OpRefresh(x, b, w.conversationId, w.now);
    RefreshesExactly(d, x, b, w.conversationId, w.now);
    if RefreshAdopted(d, x, b, w.conversationId, w.now).Ok? {
      ResolvedIsActive(d, b.cwd);
      RefreshKeepsRevision(d, x, b, w);
      HonestEditSaved(d, op);
      SavedIsNext(d, op);
      hide Next;
      StoredRefresh(d, op);
    }
  }

  lemma RefreshKeepsRevision(d: Document, x: HeadBinding, b: BindingInput, w: World)
    ensures
      var r := RefreshAdopted(d, x, b, w.conversationId, w.now);
      r.Ok? ==> r.value.0.revision == d.revision
  {
    hide ResolveHead;
  }

  /** An untracked run ends unclear; a resume outside the supported versions leaves the registry alone. */
  lemma OthersAreCompleted(d: Document, p: PendingLaunch, succeeded: bool, w: World)
    requires ValidDocument(d) && CanSettle(d, p)
    ensures Unresolved(d, Complete(d, Untracked(p.launchId), succeeded, w).document, p)
    ensures Complete(d, UnsupportedExplicit, succeeded, w) == Done(d, [], Ok(()))
  {
    hide ValidDocument, Finish, Unresolved;
    UnclearLeaves(d, p, w);
  }

  // ---- spawning -------------------------------------------------------------------------------

  /** Before the provider is spawned its launch is on record as started; a launch that is gone refuses the spawn. */
  lemma AuthorizationMarks(d: Document, c: Capture)
    requires ValidDocument(d) && d.revision < U64_MAX && LaunchOf(c).Some?
    ensures
      var id, x := LaunchOf(c).value, Authorize(d, c);
      var k := FindLaunch(d.pendingLaunches, id);
      if k == |d.pendingLaunches| then x.result.Err? && x.document == d
      else x.result == Ok(()) && HeadsAsFound(d, x.document)
           && x.document.pendingLaunches == d.pendingLaunches[k := d.pendingLaunches[k].(phase := ProviderStarted)]
  {
    hide ValidDocument;
    var op := OpProviderStarted(LaunchOf(c).value);
    var k := FindLaunch(d.pendingLaunches, LaunchOf(c).value);
    if k < |d.pendingLaunches| {
      HonestEditSaved(d, op);
      SavedIsNext(d, op);
      PhaseOutcome(d, op);
      hide Next, FindLaunch;
      assert Next(d, op).pendingLaunches == d.pendingLaunches[k := d.pendingLaunches[k].(phase := ProviderStarted)];
    }
  }

  /** A provider that could not be spawned leaves no launch behind; a tracked one leaves the heads as found. */
  lemma FailedSpawnDrops(d: Document, p: PendingLaunch, c: Capture, w: World)
    requires ValidDocument(d) && CanSettle(d, p) && LaunchOf(c) == Some(p.launchId)
    ensures SpawnFailed(d, c, w).result == Ok(())
    ensures
      var e := SpawnFailed(d, c, w).document;
      if p.mode.Untracked() then Unresolved(d, e, p) else Dropped(d, e, p)
  {
    hide ValidDocument, Finish, Unresolved, Dropped;
    FinishLeaves(d, p, NoThread, w);
  }

  // ---- starting -------------------------------------------------------------------------------

  /** The last launch is this new one, and every other launch is as before. */
  ghost predicate LaunchAdded(d: Document, e: Document, id: Uuid, w: World, mode: LaunchMode) {
    && |e.pendingLaunches| == |d.pendingLaunches| + 1
    && e.pendingLaunches[..|d.pendingLaunches|] == d.pendingLaunches
    && var p := e.pendingLaunches[|d.pendingLaunches|];
       && p.launchId == id && p.profileId == w.profile && p.cwd == w.cwd && p.mode == mode
       && p.phase == PendingPhase.Prepared && p.startedAt == w.now
  }

  /** An untracked start takes a free directory: the launch is recorded and the directory needs a selection at once. */
  lemma UntrackedStarts(d: Document, mode: LaunchMode, w: World)
    requires ValidDocument(d) && d.revision < U64_MAX
    requires FindLaunch(d.pendingLaunches, w.launchId) == |d.pendingLaunches|
    ensures
      var x := PrepareUntrackedLaunch(d, mode, w);
      if mode.Untracked() && !Transitioning(d, w.cwd) && !PendingAt(d.pendingLaunches, w.cwd)
      then x.result == Ok(Untracked(w.launchId)) && HeadMarked(d, x.document, w.cwd)
           && LaunchAdded(d, x.document, w.launchId, w, mode)
      else x.result.Err? && x.document == d
  {
    hide ValidDocument, HeadMarked, PendingAt;
    var op := OpPrepareUntracked(w.profile, w.cwd, mode, w.launchId, w.now);
    if EditOf(d, op).Ok? {
      MarkKeepsRevision(d, w.cwd);
      HonestEditSaved(d, op);
      SavedIsNext(d, op);
    }
    StoredUntracked(d, op);
  }

  /** The threads of an inventory a launch can be begun with. */
  predicate Listable(threads: seq<InventoryThread>) {
    && |threads| <= MAX_INVENTORY_THREADS && (forall x :: x in threads ==> ThreadRecordOk(x))
    && (forall i, j :: 0 <= i < j < |threads| ==> threads[i].threadId != threads[j].threadId)
  }

  /** A tracked start first recovers, and stops where recovery fails. Then it records the launch with the inventory read
      for it. A directory held by another launch, or an inventory that is incomplete, is marked instead. */
  lemma TrackedStarts(d: Document, mode: LaunchMode, w: World)
    requires ValidDocument(d) && Meanwhile(Reconcile(d, w).document, w, 2).revision < U64_MAX
    requires FindLaunch(Meanwhile(Reconcile(d, w).document, w, 2).pendingLaunches, w.launchId)
             == |Meanwhile(Reconcile(d, w).document, w, 2).pendingLaunches|
    ensures
      var recovered, x := Reconcile(d, w), PrepareTracked(d, mode, w);
      var d1 := Meanwhile(recovered.document, w, 2);
      if recovered.result.Err? then x.document == recovered.document && x.result == Err(recovered.result.error)
      else if w.launchInventory.Err? then x.document == d1 && x.result == Err(w.launchInventory.error)
      else
        var i := w.launchInventory.value;
        if Transitioning(d1, w.cwd) then x.document == d1 && x.result.Err?
        else if !i.complete then HeadMarked(d1, x.document, w.cwd) && x.result == Err(AMBIGUOUS)
        else if mode.Untracked() || i.codexVersion != CODEX_VERSION || !Listable(i.threads)
        then x.document == d1 && x.result.Err?
        else if PendingAt(d1.pendingLaunches, w.cwd) then HeadMarked(d1, x.document, w.cwd)
            && x.result == Err(AMBIGUOUS)
        else
          && x.result == Ok(Tracked(w.launchId)) && HeadsAsFound(d1, x.document)
          && LaunchAdded(d1, x.document, w.launchId, w, mode)
          && var p := x.document.pendingLaunches[|d1.pendingLaunches|];
             p.codexVersion == Some(CODEX_VERSION) && multiset(p.preInventory) == multiset(i.threads)
  {
    hide ValidDocument, RunOthers, Reconcile, HeadMarked, BeginTracked, LaunchAdded, MarkAmbiguous, PendingAt, Listable;
    var recovered := Reconcile(d, w);
    var d1 := Meanwhile(recovered.document, w, 2);
    ReconcileFine(d, w);
    MeanwhileFine(recovered.document, w, 2);
    MarkingLeaves(d1, w.cwd);
    if w.launchInventory.Ok? { BeginLeaves(d1, mode, w.launchInventory.value, w); }
  }

  lemma BeginLeaves(d: Document, mode: LaunchMode, i: Inventory, w: World)
    requires ValidDocument(d) && d.revision < U64_MAX
    requires FindLaunch(d.pendingLaunches, w.launchId) == |d.pendingLaunches|
    ensures
      var x := BeginTracked(d, mode, i, w);
      if Transitioning(d, w.cwd) || mode.Untracked() || i.codexVersion != CODEX_VERSION || !Listable(i.threads)
      then x.document == d && x.result.Err?
      else if PendingAt(d.pendingLaunches, w.cwd) then HeadMarked(d, x.document, w.cwd) && x.result == Err(AMBIGUOUS)
      else
        && x.result == Ok(Tracked(w.launchId)) && HeadsAsFound(d, x.document)
        && LaunchAdded(d, x.document, w.launchId, w, mode)
        && var p := x.document.pendingLaunches[|d.pendingLaunches|];
           p.codexVersion == Some(CODEX_VERSION) && multiset(p.preInventory) == multiset(i.threads)
  {
    hide ValidDocument, HeadMarked, NormalizeInventory, ThreadRecordOk, CanonicalInventory;
    var op := OpBeginLaunch(w.profile, w.cwd, mode, i.codexVersion, i.threads, w.launchId, w.now);
    BeginsExactly(d, op);
    if EditOf(d, op).Ok? {
      MarkKeepsRevision(d, w.cwd);
      HonestEditSaved(d, op);
      SavedIsNext(d, op);
      BeginOutcome(d, op);
      NoneOfThisId(d, w.launchId);
    }
  }

  lemma NoneOfThisId(d: Document, id: Uuid)
    requires FindLaunch(d.pendingLaunches, id) == |d.pendingLaunches|
    ensures forall i :: 0 <= i < |d.pendingLaunches| ==> d.pendingLaunches[i].launchId != id
  {
  }

  // ---- exact resume ---------------------------------------------------------------------------

  /** Adopting now succeeds exactly for a bindable thread in a free directory, which then resolves to it. */
  lemma AdoptLeaves(d: Document, b: BindingInput, w: World)
    requires ValidDocument(d) && d.revision < U64_MAX && LineageFresh(d, b, w.conversationId)
    ensures
      var x := AdoptNow(d, b, w);
      if Bindable(d, b) && !PendingAt(d.pendingLaunches, b.cwd)
      then x.result.Ok? && ResolveHead(x.document, b.cwd) == Ok(x.result.value)
           && BoundTo(d, x.document, b, x.result.value, w.conversationId, w.now)
           && x.document.pendingLaunches == d.pendingLaunches
      else x.result.Err? && x.document == d
  {
    hide ValidDocument, Bindable, Adopt, BoundTo, ResolveHead, LineageFresh, PendingAt;
    var op := OpAdopt(b, w.conversationId, w.now);
    AdoptsExactly(d, b, w.conversationId, w.now);
    if Adopt(d, b, w.conversationId, w.now).Ok? {
      AdoptKeepsRevision(d, b, w);
      HonestEditSaved(d, op);
      SavedIsNext(d, op);
      StoredAdoption(d, op);
    }
  }

  lemma AdoptKeepsRevision(d: Document, b: BindingInput, w: World)
    ensures
      var r := Adopt(d, b, w.conversationId, w.now);
      r.Ok? ==> r.value.0.revision == d.revision
  {
  }

  /** The profile's own launch is resolved first; that fails only when its directory has no marker and the thread cannot
      be bound. */
  lemma OwnLaunchIsResolved(d: Document, p: PendingLaunch, b: BindingInput, w: World)
    requires ValidDocument(d) && CanSettle(d, p) && !p.mode.Untracked() && Matches(b, p) && UsableBinding(b)
    requires LineageFresh(d, b, w.conversationId)
    ensures
      var f := FinishCandidate(d, p.launchId, b, w, 4);
      && (f.result.Ok? <==> DirectoryMarked(d, p.cwd) || Bindable(d, b))
      && (f.result.Ok? ==> OnlyThisGone(d, f.document, p))
  {
    hide ValidDocument, Next, RunOthers, Bindable, LineageFresh, FinishLaunch, DirectoryMarked, HeldElsewhere, BoundTo,
         ResolveHead, OnlyThisGone, Finish, FailReconciliation;
    if DirectoryMarked(d, p.cwd) || Bindable(d, b) {
      FinishLeaves(d, p, Bind(b), w);
    } else {
      RefusedFinish(d, p, b, w);
      var f := Finish(d, p.launchId, Bind(b), w);
      FailureWrites<bool>(Meanwhile(f.document, w, 4), p.launchId, f.result.error, w);
    }
  }

  /** The document in which an exact resume adopts its thread: after the profile's own launch, if any, is resolved. */
  ghost function AdoptedIn(d: Document, b: BindingInput, w: World): Document {
    match PendingFor(d, w.profile, w.cwd)
    case Ok(Some(p)) => Meanwhile(FinishCandidate(Meanwhile(d, w, 3), p.launchId, b, w, 4).document, w, 5)
    case _ => Meanwhile(d, w, 5)
  }

  /** An exact resume succeeds exactly when the profile's own launch, if any, is tracked and can be resolved, and the
      thread can then be bound in a free directory. The directory resolves to what the resume returns. */
  lemma ResumeAdopts(d: Document, b: BindingInput, w: World)
    requires ValidDocument(d) && UsableBinding(b) && b.profileId == w.profile && b.cwd == w.cwd
    requires Meanwhile(d, w, 3).revision < U64_MAX && AdoptedIn(d, b, w).revision < U64_MAX
    requires LineageFresh(Meanwhile(d, w, 3), b, w.conversationId)
             && LineageFresh(AdoptedIn(d, b, w), b, w.conversationId)
    ensures
      var x, own, e := AdoptExact(d, b, w), PendingFor(d, w.profile, w.cwd), AdoptedIn(d, b, w);
      && (x.result.Ok? <==>
            && own.Ok? && Bindable(e, b) && !PendingAt(e.pendingLaunches, w.cwd)
            && (own.value.Some? ==> !own.value.value.mode.Untracked()
                                    && (DirectoryMarked(Meanwhile(d, w, 3), w.cwd) || Bindable(Meanwhile(d, w, 3), b))))
      && (x.result.Ok? ==> ResolveHead(x.document, w.cwd) == Ok(x.result.value)
                           && BoundTo(e, x.document, b, x.result.value, w.conversationId, w.now))
  {
    hide ValidDocument, RunOthers, FinishCandidate, AdoptNow, Bindable, LineageFresh, DirectoryMarked, BoundTo,
         ResolveHead,
         OnlyThisGone, PendingAt;
    var own := PendingFor(d, w.profile, w.cwd);
    var e := AdoptedIn(d, b, w);
    if own.Ok? && own.value.Some? {
      var p := own.value.value;
      var d3 := Meanwhile(d, w, 3);
      FoundIsTracked(d, w);
      MeanwhileFine(d, w, 3);
      OthersKeepLaunches(d, Gap(w, 3), w.profile);
      CandidateFine(d3, p.launchId, b, w, 4);
      MeanwhileFine(FinishCandidate(d3, p.launchId, b, w, 4).document, w, 5);
      if !p.mode.Untracked() { OwnLaunchIsResolved(d3, p, b, w); }
    } else {
      MeanwhileFine(d, w, 5);
    }
    AdoptLeaves(e, b, w);
  }

  /** The lifecycle an exact resume records: what was read, unless something other than clean is on record. */
  function ResumedAs(l: ThreadLifecycle, persisted: Option<HeadBinding>): Lifecycle {
    if persisted.Some? && persisted.value.lifecycle != Clean then persisted.value.lifecycle else MapLifecycle(l)
  }

  /** What is on record of the thread an exact resume names: the head it expects, or any generation of that thread. */
  ghost predicate OnRecord(d: Document, mode: ExactMode, w: World, thread: Uuid, r: Option<HeadBinding>) {
    match mode
    case ResumeHead => r.Some? && ResolveHead(d, w.cwd) == Ok(r.value)
                       && r.value.profileId == w.profile && r.value.threadId == thread
    case ResumeExact =>
      if r.None? then forall i, g :: 0 <= i < |d.conversations| && 0 <= g < |d.conversations[i].generations| ==>
                        !Names(d.conversations[i].generations[g], w, thread)
      else exists i, g :: 0 <= i < |d.conversations| && 0 <= g < |d.conversations[i].generations|
                          && Names(d.conversations[i].generations[g], w, thread)
                          && r.value == BindingOf(d.conversations[i], d.conversations[i].generations[g])
  }

  predicate Names(g: Generation, w: World, thread: Uuid) {
    g.profileId == w.profile && g.threadId == thread && g.cwd == w.cwd
  }

  lemma {:induction false} RecordedThread(cs: seq<Conversation>, w: World, thread: Uuid)
    ensures
      var r := FindBoundThread(cs, w.profile, thread, w.cwd);
      if r.None? then
        forall i, g :: 0 <= i < |cs| && 0 <= g < |cs[i].generations| ==> !Names(cs[i].generations[g], w, thread)
      else exists i, g :: 0 <= i < |cs| && 0 <= g < |cs[i].generations| && Names(cs[i].generations[g], w, thread)
                          && r.value == BindingOf(cs[i], cs[i].generations[g])
  {
    if cs != [] {
      var k := FirstBinding(cs[0].generations, w.profile, thread, w.cwd);
      if k < |cs[0].generations| {
        assert Names(cs[0].generations[k], w, thread);
      } else {
        RecordedThread(cs[1..], w, thread);
        var r := FindBoundThread(cs[1..], w.profile, thread, w.cwd);
        if r.Some? {
          var i, g :| 0 <= i < |cs[1..]| && 0 <= g < |cs[1..][i].generations|
              && Names(cs[1..][i].generations[g], w, thread)
                      && r.value == BindingOf(cs[1..][i], cs[1..][i].generations[g]);
          assert cs[i + 1] == cs[1..][i];
        } else {
          forall i, g | 0 <= i < |cs| && 0 <= g < |cs[i].generations| ensures !Names(cs[i].generations[g], w, thread) {
            assert i > 0 ==> cs[1..][i - 1] == cs[i];
          }
        }
      }
    }
  }

  /** What an exact resume asks the registry to bind, from what it read and what is on record. */
  lemma ResumeBinds(d: Document, mode: ExactMode, thread: Uuid, w: World, r: Option<HeadBinding>)
    requires ValidDocument(d) && OnRecord(d, mode, w, thread, r)
             && Persisted(d, mode, w.profile, thread, w.cwd) == Ok(r)
    requires ReadOf(w, thread).Ok? && ReadOf(w, thread).value.cwd == w.cwd
    ensures
      var read, b := ReadOf(w, thread).value, ExactBinding(d, mode, thread, w);
      if r.Some? && r.value.codexVersion != read.codexVersion then b == Err(Refused(SessionSchemaUnsupported))
      else b == Ok(BindingInput(w.profile, thread, w.cwd, read.codexVersion, ResumedAs(read.lifecycle, r)))
  {
    hide ValidDocument, Persisted, OnRecord;
  }

  lemma PersistedIsOnRecord(d: Document, mode: ExactMode, thread: Uuid, w: World)
    requires ValidDocument(d)
    ensures
      var r := Persisted(d, mode, w.profile, thread, w.cwd);
      if r.Ok? then OnRecord(d, mode, w, thread, r.value) else forall x :: !OnRecord(d, mode, w, thread, x)
  {
    hide ValidDocument, ResolveHead;
    RecordedThread(d.conversations, w, thread);
    if ResolveHead(d, w.cwd).Ok? { ResolvedIsActive(d, w.cwd); }
  }

  lemma AdoptedIsHead(d: Document, b: BindingInput, w: World)
    requires ValidDocument(d) && AdoptNow(d, b, w).result.Ok?
    ensures
      var x := AdoptNow(d, b, w);
      && ResolveHead(x.document, b.cwd) == Ok(x.result.value)
      && x.result.value.profileId == b.profileId && x.result.value.threadId == b.threadId
      && x.result.value.lifecycle == b.lifecycle && x.result.value.codexVersion == b.codexVersion
  {
    hide ValidDocument, Adopt, ResolveHead;
    AdoptKeepsRevision(d, b, w);
    SavedIsNext(d, OpAdopt(b, w.conversationId, w.now));
    StoredAdoption(d, OpAdopt(b, w.conversationId, w.now));
  }

  /** An own untracked launch of the directory is resolved before an exact resume; another's refuses the resume. */
  lemma UntrackedIsCleared(d: Document, w: World)
    requires ValidDocument(d) && Meanwhile(d, w, 0).revision < U64_MAX
    ensures
      var u, x := UntrackedFor(d, w.cwd), ClearUntracked(d, w);
      if u.None? then
        && x == Done(d, [], Ok(()))
        && forall p :: p in d.pendingLaunches && p.cwd == w.cwd ==> !p.mode.Untracked()
      else u.value in d.pendingLaunches && u.value.cwd == w.cwd && u.value.mode.Untracked()
           && if u.value.profileId != w.profile then x == Done(d, [], Err(AMBIGUOUS))
              else x.result == Ok(()) && Unresolved(Meanwhile(d, w, 0), x.document, u.value)
  {
    hide ValidDocument, RunOthers, Finish, Unresolved;
    var u := UntrackedFor(d, w.cwd);
    if u.Some? && u.value.profileId == w.profile {
      MeanwhileFine(d, w, 0);
      OthersKeepLaunches(d, Gap(w, 0), w.profile);
      UnclearLeaves(Meanwhile(d, w, 0), u.value, w);
    }
  }

  /** What an exact resume hands to its guardian is what the directory resolves to: the thread that was asked for, in
      the profile that was asked for, with every recorded doubt about it kept. */
  lemma ResumeReturnsHead(d: Document, mode: ExactMode, thread: Uuid, w: World)
    requires ValidDocument(d) && PrepareExact(d, mode, thread, w).result.Ok?
    ensures
      var x := PrepareExact(d, mode, thread, w);
      if mode.ResumeExact? && w.version.Ok? && w.version.value != CODEX_VERSION
      then x.result.value == UnsupportedExplicit
      else
        var d2 := Meanwhile(Meanwhile(ClearUntracked(d, w).document, w, 1), w, 2);
        && x.result.value.Bound? && ReadOf(w, thread).Ok? && ReadOf(w, thread).value.cwd == w.cwd
        && var head := x.result.value.binding;
        && ResolveHead(x.document, w.cwd) == Ok(head) && head.profileId == w.profile && head.threadId == thread
        && exists r :: OnRecord(d2, mode, w, thread, r)
                       && head.lifecycle == ResumedAs(ReadOf(w, thread).value.lifecycle, r)
                       && head.codexVersion == ReadOf(w, thread).value.codexVersion
                       && (r.Some? ==> r.value.codexVersion == head.codexVersion)
  {
    hide ValidDocument, RunOthers, ClearUntracked, AdoptExact, ResolveHead, OnRecord, Persisted, CheckedHead;
    var u := ClearUntracked(d, w);
    var d1 := Meanwhile(u.document, w, 1);
    var d2 := Meanwhile(d1, w, 2);
    ClearUntrackedFine(d, w);
    MeanwhileFine(u.document, w, 1);
    MeanwhileFine(d1, w, 2);
    if !(mode.ResumeExact? && w.version.Ok? && w.version.value != CODEX_VERSION) {
      var b := ExactBinding(d2, mode, thread, w).value;
      var r := Persisted(d2, mode, w.profile, thread, w.cwd).value;
      PersistedIsOnRecord(d2, mode, thread, w);
      ResumeBinds(d2, mode, thread, w, r);
      AdoptExactIsHead(d2, b, w);
      assert OnRecord(d2, mode, w, thread, r);
    }
  }

  /** An exact resume under another version goes on untracked, and leaves the registry as clearing left it. */
  lemma UnsupportedIsLeftAlone(d: Document, thread: Uuid, w: World)
    requires ClearUntracked(d, w).result.Ok? && w.version.Ok? && w.version.value != CODEX_VERSION
    ensures
      var x := PrepareExact(d, ResumeExact, thread, w);
      x.result == Ok(UnsupportedExplicit) && x.document == Meanwhile(ClearUntracked(d, w).document, w, 1)
  {
    hide RunOthers, ClearUntracked, AdoptExact, ExactBinding;
  }

  /** A resume of a head that is not the expected one is refused before its thread is read. */
  lemma UnexpectedHeadIsRefused(d: Document, thread: Uuid, w: World)
    requires ValidDocument(d) && ClearUntracked(d, w).result.Ok?
    requires forall r :: !OnRecord(Meanwhile(ClearUntracked(d, w).document, w, 1), ResumeHead, w, thread, r)
    ensures
      var x := PrepareExact(d, ResumeHead, thread, w);
      x.result.Err? && x.document == Meanwhile(ClearUntracked(d, w).document, w, 1)
  {
    hide ValidDocument, RunOthers, ClearUntracked, AdoptExact, ResolveHead, OnRecord, ExactBinding;
    var d1 := Meanwhile(ClearUntracked(d, w).document, w, 1);
    ClearUntrackedFine(d, w);
    MeanwhileFine(ClearUntracked(d, w).document, w, 1);
    PersistedIsOnRecord(d1, ResumeHead, thread, w);
  }

  /** An exact resume of a thread that reads well under the supported version, and that agrees with what is on record of
      it, succeeds exactly when its thread can be adopted. A resume of the head finds the expected head twice. */
  lemma ResumeSucceeds(d: Document, mode: ExactMode, thread: Uuid, w: World, r: Option<HeadBinding>)
    requires ValidDocument(d) && ClearUntracked(d, w).result.Ok?
    requires
      var d1 := Meanwhile(ClearUntracked(d, w).document, w, 1);
      && Persisted(Meanwhile(d1, w, 2), mode, w.profile, thread, w.cwd) == Ok(r)
      && if mode.ResumeHead? then exists r1 :: OnRecord(d1, mode, w, thread, r1) else w.version == Ok(CODEX_VERSION)
    requires ReadOf(w, thread).Ok? && ReadOf(w, thread).value.cwd == w.cwd
    requires ReadOf(w, thread).value.codexVersion == CODEX_VERSION
    requires r.Some? ==> r.value.codexVersion == CODEX_VERSION
    ensures
      var d2 := Meanwhile(Meanwhile(ClearUntracked(d, w).document, w, 1), w, 2);
      var b := BindingInput(w.profile, thread, w.cwd, CODEX_VERSION, ResumedAs(ReadOf(w, thread).value.lifecycle, r));
      var x, a := PrepareExact(d, mode, thread, w), AdoptExact(d2, b, w);
      (x.result.Ok? <==> a.result.Ok?) && (a.result.Ok? ==> x.result == Ok(Bound(a.result.value)))
          && x.document == a.document
  {
    hide ValidDocument, RunOthers, ClearUntracked, AdoptExact, ResolveHead, OnRecord, ExactBinding;
    var d1 := Meanwhile(ClearUntracked(d, w).document, w, 1);
    var d2 := Meanwhile(d1, w, 2);
    ClearUntrackedFine(d, w);
    MeanwhileFine(ClearUntracked(d, w).document, w, 1);
    MeanwhileFine(d1, w, 2);
    PersistedIsOnRecord(d1, mode, thread, w);
    PersistedIsOnRecord(d2, mode, thread, w);
    ResumeBinds(d2, mode, thread, w, r);
  }

  lemma AdoptExactIsHead(d: Document, b: BindingInput, w: World)
    requires ValidDocument(d) && AdoptExact(d, b, w).result.Ok?
    ensures
      var x := AdoptExact(d, b, w);
      && ResolveHead(x.document, b.cwd) == Ok(x.result.value)
      && x.result.value.profileId == b.profileId && x.result.value.threadId == b.threadId
      && x.result.value.lifecycle == b.lifecycle && x.result.value.codexVersion == b.codexVersion
  {
    hide ValidDocument, RunOthers, FinishCandidate, AdoptNow, ResolveHead;
    var own := PendingFor(d, w.profile, w.cwd);
    if own.Ok? && own.value.Some? {
      var d3 := Meanwhile(d, w, 3);
      MeanwhileFine(d, w, 3);
      CandidateFine(d3, own.value.value.launchId, b, w, 4);
      var f := FinishCandidate(d3, own.value.value.launchId, b, w, 4);
      MeanwhileFine(f.document, w, 5);
      AdoptedIsHead(Meanwhile(f.document, w, 5), b, w);
    } else {
      MeanwhileFine(d, w, 5);
      AdoptedIsHead(Meanwhile(d, w, 5), b, w);
    }
  }
}
