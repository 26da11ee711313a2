/** Uncertain conversations stay uncertain: only completing a provider that exited successfully may clear one. */
module CaptureSafety {
  import opened Prelude
  import opened ConversationModel
  import opened RegistryEdits
  import opened RegistryValidity
  import opened RegistryRuns
  import opened CaptureModel
  import opened CaptureRecovery
  import opened CaptureRely

  /** Every write found a valid document, and so does whoever comes next. */
  ghost predicate Fine<T>(x: Done<T>) {
    (forall y :: y in x.writes ==> ValidDocument(y.before)) && ValidDocument(x.document)
  }

  /** No write takes a conversation from interrupted or unknown crash to clean. */
  ghost predicate ClearsNothing(ws: seq<Write>) {
    forall x :: x in ws ==> !Clears(x.before.conversations, Next(x.before, x.op).conversations)
  }

  ghost predicate NeverClean(ws: seq<Write>) {
    forall x :: x in ws && BindingOfOp(x.op).Some? ==> BindingOfOp(x.op).value.lifecycle != Clean
  }

  lemma NeverCleanClearsNothing<T>(x: Done<T>)
    requires Fine(x) && NeverClean(x.writes)
    ensures ClearsNothing(x.writes)
  {
    hide ValidDocument, Next, Clears;
    forall y | y in x.writes ensures !Clears(y.before.conversations, Next(y.before, y.op).conversations) {
      if Clears(y.before.conversations, Next(y.before, y.op).conversations) {
        OnlyCleanBindingClears(y.before, y.op);
      }
    }
  }

  // ---- documents stay valid throughout a routine ----------------------------------------------

  lemma MeanwhileFine(d: Document, w: World, k: nat)
    requires ValidDocument(d)
    ensures ValidDocument(Meanwhile(d, w, k))
  {
    hide ValidDocument;
    OthersKeepValid(d, Gap(w, k), w.profile);
  }

  lemma FinishFine(d: Document, id: Uuid, r: LaunchResolution, w: World)
    requires ValidDocument(d)
    ensures Fine(Finish(d, id, r, w))
  {
    hide ValidDocument, Next;
    NextIsValid(d, OpFinishLaunch(id, r, w.conversationId, w.now));
  }

  lemma FinishThenFailFine<T>(d: Document, id: Uuid, r: LaunchResolution, w: World, e: Failure)
    requires ValidDocument(d)
    ensures Fine<T>(FinishThenFail(d, id, r, w, e))
  {
    hide ValidDocument, Next;
    FinishFine(d, id, r, w);
  }

  lemma FailureFine<T>(d: Document, id: Uuid, e: Failure, w: World)
    requires ValidDocument(d)
    ensures Fine<T>(FailReconciliation(d, id, e, w))
  {
    hide ValidDocument, Next;
    FinishFine(d, id, Unclear, w);
    NextIsValid(d, OpCaptureFailed(id));
  }

  lemma CandidateFine(d: Document, id: Uuid, b: BindingInput, w: World, gap: nat)
    requires ValidDocument(d)
    ensures Fine(FinishCandidate(d, id, b, w, gap))
  {
    hide ValidDocument, Next, Finish, FailReconciliation;
    FinishFine(d, id, Bind(b), w);
    var f := Finish(d, id, Bind(b), w);
    MeanwhileFine(f.document, w, gap);
    if f.result.Err? { FailureFine<bool>(Meanwhile(f.document, w, gap), id, f.result.error, w); }
  }

  lemma BindFine(d: Document, id: Uuid, b: BindingInput, w: World, gap: nat)
    requires ValidDocument(d)
    ensures Fine(BindOrAmbiguous(d, id, b, w, gap))
  {
    hide ValidDocument, FinishCandidate;
    CandidateFine(d, id, b, w, gap);
  }

  lemma ReconcileCandidateFine(d: Document, p: PendingLaunch, c: Candidate, w: World)
    requires ValidDocument(d)
    ensures Fine(ReconcileCandidate(d, p, c, w))
  {
    hide ValidDocument, Next, Finish, FailReconciliation, FinishThenFail, BindOrAmbiguous;
    FinishFine(d, p.launchId, NoThread, w);
    FinishThenFailFine<()>(d, p.launchId, Unclear, w, AMBIGUOUS);
    FailureFine<()>(d, p.launchId, Refused(SessionSchemaUnsupported), w);
    if c.One? {
      var read := ReadOf(w, c.thread);
      if read.Err? {
        FailureFine<()>(d, p.launchId, read.error, w);
      } else {
        var b := BindingFromRead(w.profile, w.cwd, c.thread, read.value);
        if b.Err? {
          FailureFine<()>(d, p.launchId, b.error, w);
        } else {
          BindFine(d, p.launchId, b.value.(lifecycle := Recovered(b.value.lifecycle)), w, 1);
        }
      }
    }
  }

  lemma ReconcileFine(d: Document, w: World)
    requires ValidDocument(d)
    ensures Fine(Reconcile(d, w))
  {
    hide ValidDocument, FailReconciliation, FinishThenFail, ReconcileCandidate, InventoryCandidate, Meanwhile;
    if PendingFor(d, w.profile, w.cwd).Ok? && PendingFor(d, w.profile, w.cwd).value.Some? {
      var p := PendingFor(d, w.profile, w.cwd).value.value;
      var d1 := Meanwhile(d, w, 0);
      MeanwhileFine(d, w, 0);
      FinishThenFailFine<()>(d1, p.launchId, Unclear, w, AMBIGUOUS);
      FailureFine<()>(d1, p.launchId, Refused(SessionSchemaUnsupported), w);
      if w.inventory.Err? {
        FailureFine<()>(d1, p.launchId, w.inventory.error, w);
      } else {
        ReconcileCandidateFine(d1, p, InventoryCandidate(p.preInventory, w.inventory.value.threads), w);
      }
    }
  }

  /** Automatic recovery clears no uncertainty. */
  lemma RecoveryClearsNothing(d: Document, w: World)
    requires ValidDocument(d)
    ensures ClearsNothing(Reconcile(d, w).writes)
  {
    hide Reconcile, ValidDocument;
    ReconcileFine(d, w);
    RecoveryWritesOnly(d, w);
    NeverCleanClearsNothing(Reconcile(d, w));
  }

  // ---- completion -----------------------------------------------------------------------------

  lemma CompleteCandidateFine(d: Document, p: PendingLaunch, thread: Uuid, succeeded: bool, w: World)
    requires ValidDocument(d)
    ensures Fine(CompleteCandidate(d, p, thread, succeeded, w))
    ensures !succeeded ==> NeverClean(CompleteCandidate(d, p, thread, succeeded, w).writes)
  {
    hide ValidDocument, Next, Finish, FailReconciliation, FinishCandidate;
    FailureFine<()>(d, p.launchId, Refused(SessionSchemaUnsupported), w);
    FailureIsQuiet<()>(d, p.launchId, Refused(SessionSchemaUnsupported), w);
    var read := ReadOf(w, thread);
    if read.Err? {
      FailureFine<()>(d, p.launchId, read.error, w);
      FailureIsQuiet<()>(d, p.launchId, read.error, w);
    } else {
      var b := BindingFromRead(w.profile, w.cwd, thread, read.value);
      if b.Err? {
        FailureFine<()>(d, p.launchId, b.error, w);
        FailureIsQuiet<()>(d, p.launchId, b.error, w);
      } else {
        var settled := b.value.(lifecycle := Settled(b.value.lifecycle, succeeded));
        BindFine(d, p.launchId, settled, w, 1);
        CandidateWrites(d, p.launchId, settled, w, 1);
      }
    }
  }

  lemma CompleteTrackedFine(d: Document, id: Uuid, succeeded: bool, w: World)
    requires ValidDocument(d)
    ensures Fine(CompleteTracked(d, id, succeeded, w))
    ensures !succeeded ==> NeverClean(CompleteTracked(d, id, succeeded, w).writes)
  {
    hide ValidDocument, Next, FailReconciliation, CompleteCandidate, InventoryCandidate, Meanwhile;
    if PendingFor(d, w.profile, w.cwd).Ok? && PendingFor(d, w.profile, w.cwd).value.Some? {
      var p := PendingFor(d, w.profile, w.cwd).value.value;
      var d1 := Meanwhile(d, w, 0);
      MeanwhileFine(d, w, 0);
      FinishFine(d1, id, NoThread, w);
      FinishThenFailFine<()>(d1, id, Unclear, w, AMBIGUOUS);
      FailureFine<()>(d1, id, Refused(SessionSchemaUnsupported), w);
      FailureIsQuiet<()>(d1, id, Refused(SessionSchemaUnsupported), w);
      if w.inventory.Err? {
        FailureFine<()>(d1, id, w.inventory.error, w);
        FailureIsQuiet<()>(d1, id, w.inventory.error, w);
      } else {
        var c := InventoryCandidate(p.preInventory, w.inventory.value.threads);
        if c.One? { CompleteCandidateFine(d1, p, c.thread, succeeded, w); }
      }
    }
  }

  lemma RefreshFine(d: Document, x: HeadBinding, succeeded: bool, w: World)
    requires ValidDocument(d)
    ensures Fine(RefreshBound(d, x, succeeded, w))
    ensures !succeeded ==> NeverClean(RefreshBound(d, x, succeeded, w).writes)
  {
    hide ValidDocument, Next;
    if ReadOf(w, x.threadId).Ok? {
      var b := BindingFromRead(w.profile, w.cwd, x.threadId, ReadOf(w, x.threadId).value);
      if b.Ok? {
        NextIsValid(d, OpRefresh(x, b.value.(lifecycle := Settled(b.value.lifecycle, succeeded)), w.conversationId,
            w.now));
      }
    }
  }

  lemma CompleteFine(d: Document, c: Capture, succeeded: bool, w: World)
    requires ValidDocument(d)
    ensures Fine(Complete(d, c, succeeded, w))
    ensures !succeeded ==> NeverClean(Complete(d, c, succeeded, w).writes)
  {
    hide ValidDocument, Next, CompleteTracked, RefreshBound, Meanwhile;
    match c
    case UnsupportedExplicit =>
    case Untracked(id) => FinishFine(d, id, Unclear, w);
    case Tracked(id) =>
      CompleteTrackedFine(d, id, succeeded, w);
      MeanwhileFine(CompleteTracked(d, id, succeeded, w).document, w, 2);
      NextIsValid(Meanwhile(CompleteTracked(d, id, succeeded, w).document, w, 2), OpCaptureFailed(id));
    case Bound(x) =>
      RefreshFine(d, x, succeeded, w);
      MeanwhileFine(RefreshBound(d, x, succeeded, w).document, w, 2);
      NextIsValid(Meanwhile(RefreshBound(d, x, succeeded, w).document, w, 2), OpMarkAmbiguous(w.cwd));
  }

  /** Completing a provider that failed clears no uncertainty. */
  lemma FailedCompletionClearsNothing(d: Document, c: Capture, w: World)
    requires ValidDocument(d)
    ensures ClearsNothing(Complete(d, c, false, w).writes)
  {
    hide Complete, ValidDocument;
    CompleteFine(d, c, false, w);
    NeverCleanClearsNothing(Complete(d, c, false, w));
  }

  // ---- exact resume ---------------------------------------------------------------------------

  lemma {:induction false} FindBoundThreadFinds(cs: seq<Conversation>, profile: Uuid, thread: Uuid, cwd: Cwd)
    ensures
      var r := FindBoundThread(cs, profile, thread, cwd);
      && (r.None? ==> forall i, g :: 0 <= i < |cs| && 0 <= g < |cs[i].generations| ==>
                        !(cs[i].generations[g].profileId == profile && cs[i].generations[g].threadId == thread
                          && cs[i].generations[g].cwd == cwd))
      && (r.Some? ==> exists i :: 0 <= i < |cs| && HasThread(cs[i], thread) && r.value.lifecycle == cs[i].lifecycle)
  {
    if cs != [] {
      var g := FirstBinding(cs[0].generations, profile, thread, cwd);
      if g < |cs[0].generations| {
        assert cs[0].generations[g].threadId == thread;
        assert HasThread(cs[0], thread);
      } else {
        FindBoundThreadFinds(cs[1..], profile, thread, cwd);
        var r := FindBoundThread(cs[1..], profile, thread, cwd);
        if r.Some? {
          var i :| 0 <= i < |cs[1..]| && HasThread(cs[1..][i], thread) && r.value.lifecycle == cs[1..][i].lifecycle;
          assert cs[i + 1] == cs[1..][i];
        } else {
          forall i, g | 0 <= i < |cs| && 0 <= g < |cs[i].generations|
            ensures !(cs[i].generations[g].profileId == profile && cs[i].generations[g].threadId == thread
                      && cs[i].generations[g].cwd == cwd)
          {
            if i > 0 { assert cs[1..][i - 1] == cs[i]; }
          }
        }
      }
    }
  }

  lemma OneHolder(cs: seq<Conversation>, i: nat, j: nat, thread: Uuid)
    requires DistinctThreads(cs) && i < |cs| && j < |cs| && HasThread(cs[i], thread) && HasThread(cs[j], thread)
    ensures i == j
  {
    if i < j { Apart(cs[i], cs[j], thread, cs, i, j); }
    if j < i { Apart(cs[j], cs[i], thread, cs, j, i); }
  }

  lemma Apart(c: Conversation, e: Conversation, thread: Uuid, cs: seq<Conversation>, i: nat, j: nat)
    requires DistinctThreads(cs) && i < j < |cs| && c == cs[i] && e == cs[j]
    ensures !(HasThread(c, thread) && HasThread(e, thread))
  {
    assert ThreadsApart(cs[i], cs[j]);
  }

  lemma ActiveHasThread(c: Conversation, profile: Uuid, thread: Uuid, cwd: Cwd)
    requires ActiveIs(c, profile, thread, cwd)
    ensures HasThread(c, thread)
  {
  }

  /** A persisted binding that is clean, or none at all, means that no uncertain lineage has the thread active. */
  lemma PersistedIsSafe(d: Document, mode: ExactMode, profile: Uuid, thread: Uuid, cwd: Cwd)
    requires ValidDocument(d) && Persisted(d, mode, profile, thread, cwd).Ok?
    requires
      var p := Persisted(d, mode, profile, thread, cwd).value;
      p.Some? ==> p.value.lifecycle == Clean
    ensures SafeToClean(d.conversations, profile, thread, cwd)
  {
    hide ValidPendings, ValidHeads, HasThread;
    var cs := d.conversations;
    assert DistinctThreads(cs);
    if mode.ResumeExact? {
      FindBoundThreadFinds(cs, profile, thread, cwd);
      var r := FindBoundThread(cs, profile, thread, cwd);
      if r.Some? {
        var i :| 0 <= i < |cs| && HasThread(cs[i], thread) && r.value.lifecycle == cs[i].lifecycle;
        LifecycleOfHolder(cs, i, profile, thread, cwd);
      }
    } else {
      var k := FindHead(d.workspaceHeads, Codex, cwd);
      var c := FindConversation(cs, d.workspaceHeads[k].conversationId.value);
      HeadHasThread(cs[c], d.workspaceHeads[k].generation.value, thread);
      LifecycleOfHolder(cs, c, profile, thread, cwd);
    }
  }

  lemma HeadHasThread(c: Conversation, n: nat, thread: Uuid)
    requires FindGeneration(c.generations, n) < |c.generations|
    requires c.generations[FindGeneration(c.generations, n)].threadId == thread
    ensures HasThread(c, thread)
  {
  }

  lemma LifecycleOfHolder(cs: seq<Conversation>, i: nat, profile: Uuid, thread: Uuid, cwd: Cwd)
    requires DistinctThreads(cs) && i < |cs| && HasThread(cs[i], thread) && cs[i].lifecycle == Clean
    ensures SafeToClean(cs, profile, thread, cwd)
  {
    forall j | 0 <= j < |cs| && ActiveIs(cs[j], profile, thread, cwd) ensures !Uncertain(cs[j].lifecycle) {
      ActiveHasThread(cs[j], profile, thread, cwd);
      OneHolder(cs, i, j, thread);
    }
  }

  /** The binding an exact resume adopts is clean only when that overwrites no uncertainty. */
  lemma ExactBindingIsSafe(d: Document, mode: ExactMode, thread: Uuid, w: World)
    requires ValidDocument(d) && ExactBinding(d, mode, thread, w).Ok?
    ensures
      var b := ExactBinding(d, mode, thread, w).value;
      b.profileId == w.profile && b.threadId == thread && b.cwd == w.cwd
      && (b.lifecycle == Clean ==> SafeToClean(d.conversations, w.profile, thread, w.cwd))
  {
    hide ValidDocument, Persisted, SafeToClean;
    var p := Persisted(d, mode, w.profile, thread, w.cwd).value;
    if p.None? || p.value.lifecycle == Clean { PersistedIsSafe(d, mode, w.profile, thread, w.cwd); }
  }

  /** One's own write with a safe binding clears nothing and stays safe. */
  lemma SafeWrite(d: Document, op: Op, profile: Uuid, thread: Uuid, cwd: Cwd)
    requires ValidDocument(d) && !IsHandoffOp(op) && SafeToClean(d.conversations, profile, thread, cwd)
    requires BindingOfOp(op).Some? ==>
               var b := BindingOfOp(op).value;
               b.profileId == profile && b.threadId == thread && b.cwd == cwd && b.lifecycle == Clean
    ensures !Clears(d.conversations, Next(d, op).conversations)
    ensures ValidDocument(Next(d, op)) && SafeToClean(Next(d, op).conversations, profile, thread, cwd)
  {
    hide ValidDocument, EditOf, SafeToClean, Rebound, Clears;
    NextIsValid(d, op);
    NextIs(d, op);
    if Clears(d.conversations, Next(d, op).conversations) { OnlyCleanBindingClears(d, op); }
    if Next(d, op) != d {
      OrdinaryRebinds(d, op);
      if Next(d, op).conversations != d.conversations {
        ReboundKeepsSafe(d.conversations, Next(d, op).conversations, BindingOfOp(op).value, profile, thread, cwd);
      }
    }
  }

  ghost predicate Adoptable(d: Document, b: BindingInput, w: World) {
    && b.profileId == w.profile && b.cwd == w.cwd
    && (b.lifecycle == Clean ==> SafeToClean(d.conversations, w.profile, b.threadId, w.cwd))
  }

  /** A write that is no handoff step and binds nothing else keeps the binding adoptable and clears nothing. */
  lemma AdoptableWrite(d: Document, op: Op, b: BindingInput, w: World)
    requires ValidDocument(d) && Adoptable(d, b, w) && !IsHandoffOp(op)
    requires BindingOfOp(op).None? || BindingOfOp(op) == Some(b)
    ensures !Clears(d.conversations, Next(d, op).conversations)
    ensures ValidDocument(Next(d, op)) && Adoptable(Next(d, op), b, w)
  {
    hide ValidDocument, Next, SafeToClean, Clears;
    if b.lifecycle == Clean {
      SafeWrite(d, op, w.profile, b.threadId, w.cwd);
    } else {
      NextIsValid(d, op);
      if Clears(d.conversations, Next(d, op).conversations) { OnlyCleanBindingClears(d, op); }
    }
  }

  lemma AdoptableMeanwhile(d: Document, b: BindingInput, w: World, k: nat)
    requires ValidDocument(d) && Adoptable(d, b, w)
    ensures ValidDocument(Meanwhile(d, w, k)) && Adoptable(Meanwhile(d, w, k), b, w)
  {
    hide ValidDocument, SafeToClean;
    MeanwhileFine(d, w, k);
    if b.lifecycle == Clean { OthersKeepSafe(d, Gap(w, k), w.profile, b.threadId, w.cwd); }
  }

  lemma CandidateKeepsAdoptable(d: Document, id: Uuid, b: BindingInput, w: World, gap: nat)
    requires ValidDocument(d) && Adoptable(d, b, w)
    ensures
      var x := FinishCandidate(d, id, b, w, gap);
      ClearsNothing(x.writes) && ValidDocument(x.document) && Adoptable(x.document, b, w)
  {
    hide ValidDocument, Next, Adoptable, FinishCandidate, Clears, Meanwhile;
    CandidateWrites(d, id, b, w, gap);
    var x := FinishCandidate(d, id, b, w, gap);
    var op := x.writes[0].op;
    AdoptableWrite(d, op, b, w);
    AdoptableMeanwhile(Next(d, op), b, w, gap);
    if |x.writes| == 2 {
      AdoptableWrite(Meanwhile(Next(d, op), w, gap), x.writes[1].op, b, w);
    }
  }

  lemma AdoptNowClearsNothing(d: Document, b: BindingInput, w: World)
    requires ValidDocument(d) && Adoptable(d, b, w)
    ensures ClearsNothing(AdoptNow(d, b, w).writes)
  {
    hide ValidDocument, Next, Adoptable, Clears;
    AdoptableWrite(d, OpAdopt(b, w.conversationId, w.now), b, w);
  }

  lemma AdoptExactClearsNothing(d: Document, b: BindingInput, w: World)
    requires ValidDocument(d) && Adoptable(d, b, w)
    ensures ClearsNothing(AdoptExact(d, b, w).writes)
  {
    hide ValidDocument, Next, Adoptable, FinishCandidate, AdoptNow, Clears, Meanwhile;
    AdoptableMeanwhile(d, b, w, 5);
    AdoptNowClearsNothing(Meanwhile(d, w, 5), b, w);
    if PendingFor(d, w.profile, w.cwd).Ok? && PendingFor(d, w.profile, w.cwd).value.Some? {
      var id := PendingFor(d, w.profile, w.cwd).value.value.launchId;
      AdoptableMeanwhile(d, b, w, 3);
      CandidateKeepsAdoptable(Meanwhile(d, w, 3), id, b, w, 4);
      var f := FinishCandidate(Meanwhile(d, w, 3), id, b, w, 4);
      AdoptableMeanwhile(f.document, b, w, 5);
      AdoptNowClearsNothing(Meanwhile(f.document, w, 5), b, w);
    }
  }

  lemma ClearUntrackedFine(d: Document, w: World)
    requires ValidDocument(d)
    ensures Fine(ClearUntracked(d, w)) && ClearsNothing(ClearUntracked(d, w).writes)
  {
    hide ValidDocument, Finish, Meanwhile;
    if UntrackedFor(d, w.cwd).Some? {
      var id := UntrackedFor(d, w.cwd).value.launchId;
      MeanwhileFine(d, w, 0);
      FinishFine(Meanwhile(d, w, 0), id, Unclear, w);
      UnclearNeverBinds(Meanwhile(d, w, 0), id, w);
    }
    NeverCleanClearsNothing(ClearUntracked(d, w));
  }

  lemma UnclearNeverBinds(d: Document, id: Uuid, w: World)
    ensures NeverClean(Finish(d, id, Unclear, w).writes)
  {
    hide Next;
  }

  /** An exact resume clears no uncertainty, whatever others do between its read and its adoption. */
  lemma ExactResumeClearsNothing(d: Document, mode: ExactMode, thread: Uuid, w: World)
    requires ValidDocument(d)
    ensures ClearsNothing(PrepareExact(d, mode, thread, w).writes)
  {
    hide ValidDocument, ClearUntracked, ExactBinding, AdoptExact, Meanwhile, CheckedHead, Clears, Next;
    ClearUntrackedFine(d, w);
    var u := ClearUntracked(d, w);
    MeanwhileFine(u.document, w, 1);
    var d1 := Meanwhile(u.document, w, 1);
    MeanwhileFine(d1, w, 2);
    var d2 := Meanwhile(d1, w, 2);
    var b := ExactBinding(d2, mode, thread, w);
    if b.Ok? {
      ExactBindingIsSafe(d2, mode, thread, w);
      AdoptExactClearsNothing(d2, b.value, w);
    }
  }
}
