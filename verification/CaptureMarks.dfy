/** Where the phase of a launch comes from: stored spawn markers, and recoveries that could not read the inventory. */
module CaptureMarks {
  import opened Prelude
  import opened ConversationModel
  import opened RegistryEdits
  import opened RegistryValidity
  import opened RegistryRuns
  import opened CaptureModel
  import opened CaptureRecovery
  import opened CaptureRely
  import opened CaptureSafety
  import opened CaptureRuns

  predicate IsPending(d: Document, id: Uuid) {
    FindLaunch(d.pendingLaunches, id) < |d.pendingLaunches|
  }

  /** The launch is pending in a phase other than prepared. */
  predicate Beyond(d: Document, id: Uuid) {
    IsPending(d, id) && d.pendingLaunches[FindLaunch(d.pendingLaunches, id)].phase != PendingPhase.Prepared
  }

  predicate Marks(op: Op, id: Uuid) {
    (op.OpProviderStarted? || op.OpCaptureFailed?) && op.id == id
  }

  predicate Begins(op: Op, id: Uuid) {
    (op.OpBeginLaunch? || op.OpPrepareUntracked?) && op.freshId == id
  }

  // ---- one operation --------------------------------------------------------------------------

  lemma {:induction false} FindAfterPushed(ps: seq<PendingLaunch>, p: PendingLaunch, id: Uuid)
    ensures
      var k := FindLaunch(ps, id);
      FindLaunch(ps + [p], id) == if k < |ps| then k else if p.launchId == id then |ps| else |ps| + 1
  {
    var k, m := FindLaunch(ps, id), FindLaunch(ps + [p], id);
    assert (ps + [p])[|ps|] == p;
    assert forall i :: 0 <= i < |ps| ==> (ps + [p])[i] == ps[i];
  }

  /** An operation that neither marks nor begins a launch leaves it as it was or removes it. */
  lemma UnmarkedStep(d: Document, op: Op, id: Uuid)
    requires ValidDocument(d) && !Marks(op, id)
    ensures Beyond(Next(d, op), id) ==> Beyond(d, id)
    ensures IsPending(Next(d, op), id) && !(Begins(op, id) && Next(d, op) != d) ==>
              IsPending(d, id) && (Beyond(d, id) <==> Beyond(Next(d, op), id))
  {
    hide ValidDocument, EditOf;
    NextIs(d, op);
    if Next(d, op) != d { UnmarkedEdit(d, op, id); }
  }

  ghost predicate UnmarkedLaunch(d: Document, e: Document, id: Uuid, begun: bool) {
    && (Beyond(e, id) ==> Beyond(d, id))
    && (IsPending(e, id) && !begun ==> IsPending(d, id) && (Beyond(d, id) <==> Beyond(e, id)))
  }

  lemma SameLaunchesUnmarked(d: Document, e: Document, id: Uuid, begun: bool)
    requires e.pendingLaunches == d.pendingLaunches
    ensures UnmarkedLaunch(d, e, id, begun)
  {
  }

  lemma PushedUnmarked(d: Document, e: Document, p: PendingLaunch, id: Uuid)
    requires e.pendingLaunches == d.pendingLaunches + [p] && p.phase == PendingPhase.Prepared
    ensures UnmarkedLaunch(d, e, id, p.launchId == id)
  {
    FindAfterPushed(d.pendingLaunches, p, id);
  }

  /** Beginning a launch pushes it prepared, or leaves the launches alone. */
  lemma BegunLaunches(d: Document, op: Op)
    requires (op.OpBeginLaunch? || op.OpPrepareUntracked?) && EditOf(d, op).Ok?
    ensures
      var ps, qs := d.pendingLaunches, EditOf(d, op).value.pendingLaunches;
      qs == ps || (qs != [] && qs == ps + [qs[|qs| - 1]] && qs[|qs| - 1].phase == PendingPhase.Prepared
                   && qs[|qs| - 1].launchId == op.freshId)
  {
    hide NormalizeInventory;
  }

  lemma UnmarkedEdit(d: Document, op: Op, id: Uuid)
    requires ValidDocument(d) && !Marks(op, id) && EditOf(d, op).Ok?
    ensures UnmarkedLaunch(d, EditOf(d, op).value, id, Begins(op, id))
  {
    hide ValidDocument, FinishLaunch, BindDocument, PrepareHandoff, CommitHandoff, ObserveTarget, RecordForkIntent,
         RecordForkRetry, FinishAttachment, TrackedLaunch, UntrackedLaunch, BeginLaunch, PrepareUntracked, MarkHead,
         UnmarkedLaunch, IsPending, Beyond;
    var e := EditOf(d, op).value;
    if op.OpBeginLaunch? || op.OpPrepareUntracked? {
      BegunLaunches(d, op);
      if e.pendingLaunches == d.pendingLaunches {
        SameLaunchesUnmarked(d, e, id, Begins(op, id));
      } else {
        PushedUnmarked(d, e, e.pendingLaunches[|e.pendingLaunches| - 1], id);
      }
    } else if op.OpFinishLaunch? {
      FinishLaunches(d, op.id, op.resolution, op.freshId, op.now);
      RemovedUnmarked(d, e, FindLaunch(d.pendingLaunches, op.id), id);
    } else if op.OpProviderStarted? {
      MarkedUnmarked(d, e, op.id, ProviderStarted, id);
    } else if op.OpCaptureFailed? {
      MarkedUnmarked(d, e, op.id, CaptureFailed, id);
    } else {
      OtherOpsKeepLaunches(d, op);
      SameLaunchesUnmarked(d, e, id, false);
    }
  }

  lemma OtherOpsKeepLaunches(d: Document, op: Op)
    requires IsHandoffOp(op) || op.OpAdopt? || op.OpRefresh? || op.OpMarkAmbiguous?
    requires EditOf(d, op).Ok?
    ensures EditOf(d, op).value.pendingLaunches == d.pendingLaunches
  {
    hide BindDocument;
    match op
    case OpAdopt(b, newId, now) => BindKeepsLaunches(d, b, newId, now);
    case OpRefresh(_, b, newId, now) => BindKeepsLaunches(d, b, newId, now);
    case OpMarkAmbiguous(_) =>
    case _ => HandoffKeepsLaunches(d, op);
  }

  lemma RemovedUnmarked(d: Document, e: Document, k: nat, id: Uuid)
    requires ValidDocument(d) && k < |d.pendingLaunches| && e.pendingLaunches == WithoutLaunch(d, k).pendingLaunches
    ensures UnmarkedLaunch(d, e, id, false)
  {
    FindAfterRemoved(d, k, id);
  }

  lemma MarkedUnmarked(d: Document, e: Document, other: Uuid, phase: PendingPhase, id: Uuid)
    requires id != other && FindLaunch(d.pendingLaunches, other) < |d.pendingLaunches|
    requires
      var k := FindLaunch(d.pendingLaunches, other);
      e.pendingLaunches == d.pendingLaunches[k := d.pendingLaunches[k].(phase := phase)]
    ensures UnmarkedLaunch(d, e, id, false)
  {
    FindAfterMarked(d, other, phase, id);
  }

  lemma FindAfterDropped(ps: seq<PendingLaunch>, k: nat, id: Uuid)
    requires DistinctPendings(ps) && k < |ps|
    ensures
      var qs, m := ps[..k] + ps[k + 1..], FindLaunch(ps, id);
      FindLaunch(qs, id) == if m < k then m else if m == k then |qs| else m - 1
  {
    hide FindLaunch;
    var qs, m := ps[..k] + ps[k + 1..], FindLaunch(ps, id);
    assert forall i :: 0 <= i < k ==> qs[i] == ps[i];
    assert forall i :: k <= i < |qs| ==> qs[i] == ps[i + 1];
    var j := FindLaunch(qs, id);
    if j < |qs| { assert qs[j] == ps[if j < k then j else j + 1]; }
    if m < |ps| && m != k { assert qs[if m < k then m else m - 1] == ps[m]; }
  }

  /** Removing a launch leaves every other as it was, and none under its id. */
  lemma FindAfterRemoved(d: Document, k: nat, id: Uuid)
    requires ValidDocument(d) && k < |d.pendingLaunches|
    ensures
      var e := WithoutLaunch(d, k);
      && (IsPending(e, id) <==> IsPending(d, id) && id != d.pendingLaunches[k].launchId)
      && (IsPending(e, id) ==> (Beyond(e, id) <==> Beyond(d, id)))
  {
    hide ValidDocument, FindLaunch, DistinctPendings;
    var ps, qs := d.pendingLaunches, WithoutLaunch(d, k).pendingLaunches;
    var m := FindLaunch(ps, id);
    PendingsOf(d);
    FindAfterDropped(ps, k, id);
    FirstIs(ps, k);
    if m < k {
      assert qs[m] == ps[m];
    } else if k < m < |ps| {
      assert qs[m - 1] == ps[m];
    }
  }

  lemma FirstIs(ps: seq<PendingLaunch>, k: nat)
    requires DistinctPendings(ps) && k < |ps|
    ensures FindLaunch(ps, ps[k].launchId) == k
  {
  }

  lemma PendingsOf(d: Document)
    requires ValidDocument(d)
    ensures DistinctPendings(d.pendingLaunches)
  {
  }

  lemma FindAfterMarked(d: Document, other: Uuid, phase: PendingPhase, id: Uuid)
    requires FindLaunch(d.pendingLaunches, other) < |d.pendingLaunches|
    ensures
      var k := FindLaunch(d.pendingLaunches, other);
      var e := d.(pendingLaunches := d.pendingLaunches[k := d.pendingLaunches[k].(phase := phase)]);
      && FindLaunch(e.pendingLaunches, id) == FindLaunch(d.pendingLaunches, id)
      && (id != other ==> (Beyond(e, id) <==> Beyond(d, id)))
      && (id == other ==> (Beyond(e, id) <==> phase != PendingPhase.Prepared))
  {
    var k := FindLaunch(d.pendingLaunches, other);
    var qs := d.pendingLaunches[k := d.pendingLaunches[k].(phase := phase)];
    assert forall i :: 0 <= i < |qs| ==> qs[i].launchId == d.pendingLaunches[i].launchId;
  }

  /** A stored mark found the launch pending and takes it beyond the prepared phase. */
  lemma StoredMark(d: Document, op: Op, id: Uuid)
    requires Marks(op, id) && Next(d, op) != d
    ensures IsPending(d, id) && Beyond(Next(d, op), id)
  {
    hide ValidDocument;
    NextIs(d, op);
    FindAfterMarked(d, id, if op.OpProviderStarted? then ProviderStarted else CaptureFailed, id);
  }

  /** A refused mark changes nothing; a stored one is the only way to leave the prepared phase. */
  lemma LeavesPrepared(d: Document, op: Op, id: Uuid)
    requires ValidDocument(d) && Beyond(Next(d, op), id) && !Beyond(d, id)
    ensures Marks(op, id) && Next(d, op) != d && IsPending(d, id)
  {
    hide ValidDocument, Next;
    if Marks(op, id) { StoredMark(d, op, id); } else { UnmarkedStep(d, op, id); }
  }

  // ---- one recovery of a prepared launch ------------------------------------------------------

  lemma PendingIsPrepared(d: Document, p: PendingLaunch)
    requires ValidDocument(d) && p in d.pendingLaunches
    ensures IsPending(d, p.launchId) && (Beyond(d, p.launchId) <==> p.phase != PendingPhase.Prepared)
  {
    OnlyLaunch(d, p.launchId, p);
  }

  lemma FinishIsNotBeyond(d: Document, p: PendingLaunch, r: LaunchResolution, w: World)
    requires ValidDocument(d) && p in d.pendingLaunches && p.phase == PendingPhase.Prepared
    ensures !Beyond(Finish(d, p.launchId, r, w).document, p.launchId)
  {
    hide ValidDocument, Next;
    PendingIsPrepared(d, p);
    UnmarkedStep(d, OpFinishLaunch(p.launchId, r, w.conversationId, w.now), p.launchId);
  }

  /** A capture failure of a pending launch is stored while a revision is left. */
  lemma FailureIsStored(d: Document, id: Uuid)
    requires ValidDocument(d) && IsPending(d, id)
    ensures Next(d, OpCaptureFailed(id)) != d <==> d.revision < U64_MAX
    ensures Beyond(Next(d, OpCaptureFailed(id)), id) <==> Beyond(d, id) || d.revision < U64_MAX
  {
    var op := OpCaptureFailed(id);
    if d.revision < U64_MAX {
      HonestEditSaved(d, op);
    }
    hide ValidDocument;
    if Next(d, op) != d { StoredMark(d, op, id); }
  }

  lemma FailureIsBeyond(d: Document, p: PendingLaunch, e: Failure, w: World)
    requires ValidDocument(d) && p in d.pendingLaunches && p.phase == PendingPhase.Prepared
    ensures Beyond(FailReconciliation<()>(d, p.launchId, e, w).document, p.launchId)
       <==> !Terminal(e) && d.revision < U64_MAX
  {
    hide ValidDocument, Next, Finish;
    PendingIsPrepared(d, p);
    if Terminal(e) {
      FinishIsNotBeyond(d, p, Unclear, w);
    } else {
      FailureIsStored(d, p.launchId);
    }
  }

  /** A recovery takes a prepared launch beyond the prepared phase exactly when the launch is tracked, the read of the
      inventory fails with an error that is not terminal, and a revision is left to store that. */
  lemma RecoveryMarksExactly(d: Document, w: World)
    requires ValidDocument(d)
    requires PendingFor(d, w.profile, w.cwd).Ok? && PendingFor(d, w.profile, w.cwd).value.Some?
    requires PendingFor(d, w.profile, w.cwd).value.value.phase == PendingPhase.Prepared
    ensures
      var p := PendingFor(d, w.profile, w.cwd).value.value;
      Beyond(Reconcile(d, w).document, p.launchId) <==>
        && !p.mode.Untracked() && w.inventory.Err? && !Terminal(w.inventory.error)
        && Meanwhile(d, w, 0).revision < U64_MAX
  {
    hide ValidDocument, Finish, FailReconciliation, InventoryCandidate, RunOthers, Beyond;
    var p := PendingFor(d, w.profile, w.cwd).value.value;
    var d1 := Meanwhile(d, w, 0);
    PendingIsThere(d, w.profile, w.cwd);
    if !p.mode.Untracked() { TrackedHasVersion(d, p); }
    MeanwhileFine(d, w, 0);
    OthersKeepLaunches(d, Gap(w, 0), w.profile);
    FinishIsNotBeyond(d1, p, Unclear, w);
    FinishIsNotBeyond(d1, p, NoThread, w);
    FailureIsBeyond(d1, p, Refused(SessionSchemaUnsupported), w);
    if w.inventory.Err? { FailureIsBeyond(d1, p, w.inventory.error, w); }
  }

  lemma TrackedHasVersion(d: Document, p: PendingLaunch)
    requires ValidDocument(d) && p in d.pendingLaunches && !p.mode.Untracked()
    ensures p.codexVersion.Some?
  {
    assert ValidPending(p);
  }

  /** A capture failure that a recovery writes for a prepared launch comes from an unreadable inventory. */
  lemma PreparedMarkMeansUnread(d: Document, w: World)
    requires PendingFor(d, w.profile, w.cwd).Ok? && PendingFor(d, w.profile, w.cwd).value.Some?
    requires PendingFor(d, w.profile, w.cwd).value.value.phase == PendingPhase.Prepared
    ensures forall x :: x in Reconcile(d, w).writes && x.op.OpCaptureFailed? ==>
              w.inventory.Err? && !Terminal(w.inventory.error)
  {
    hide Next, RunOthers, InventoryCandidate;
  }

  // ---- runs -----------------------------------------------------------------------------------

  /** A spawn marker of the launch was stored before this point of the run. */
  ghost predicate SpawnMarked(ds: seq<Document>, steps: seq<Step>, n: nat, id: Uuid)
    requires n <= |steps| < |ds|
  {
    exists k :: 0 <= k < n && MarksSpawn(ds, steps, k, id)
  }

  predicate MarksSpawn(ds: seq<Document>, steps: seq<Step>, k: nat, id: Uuid)
    requires k < |steps| < |ds|
  {
    steps[k].Own? && steps[k].write.op == OpProviderStarted(id) && ds[k + 1] != ds[k]
  }

  /** At this step a recovery that could not read the inventory, for a reason that is not terminal, stored a capture
      failure of the launch. A tracked start begins with such a recovery. */
  predicate FailedRecovery(ds: seq<Document>, steps: seq<Step>, k: nat, id: Uuid)
    requires k < |steps| < |ds|
  {
    && steps[k].Own? && (steps[k].routine.Recovery? || steps[k].routine.TrackedStart?)
    && steps[k].write.op == OpCaptureFailed(id) && ds[k + 1] != ds[k]
    && steps[k].world.inventory.Err? && !Terminal(steps[k].world.inventory.error)
  }

  /** A run in which every routine starts on a document of the run, a launch is completed only after its spawn marker
      was stored, by the run or before it, and the id of a new launch names no launch seen before. */
  ghost predicate GuardedRun(ds: seq<Document>, steps: seq<Step>) {
    && LegalRun(ds, steps)
    && (forall k :: 0 <= k < |steps| ==> StartsInRun(ds, steps, k) && CompletesSpawned(ds, steps, k))
    && (forall k, i, id :: 0 <= i <= k < |steps| && BeginsAt(ds, steps, k, id) ==> !IsPending(ds[i], id))
  }

  ghost predicate StartsInRun(ds: seq<Document>, steps: seq<Step>, k: nat)
    requires k < |steps| < |ds|
  {
    steps[k].Own? ==> exists s :: 0 <= s <= k && steps[k].start == ds[s]
  }

  ghost predicate CompletesSpawned(ds: seq<Document>, steps: seq<Step>, k: nat)
    requires k < |steps| < |ds|
  {
    steps[k].Own? && steps[k].routine.Completion? && LaunchOf(steps[k].routine.capture).Some? ==>
      var id := LaunchOf(steps[k].routine.capture).value;
      Beyond(ds[0], id) || SpawnMarked(ds, steps, k, id)
  }

  predicate BeginsAt(ds: seq<Document>, steps: seq<Step>, k: nat, id: Uuid)
    requires k < |steps| < |ds|
  {
    steps[k].Own? && Begins(steps[k].write.op, id) && ds[k + 1] != ds[k]
  }

  lemma {:induction false} RunIsValidAt(ds: seq<Document>, steps: seq<Step>, n: nat)
    requires LegalRun(ds, steps) && n <= |steps|
    ensures ValidDocument(ds[n])
  {
    hide ValidDocument, LegalStep, HistoryKept;
    if n > 0 {
      RunIsValidAt(ds, steps, n - 1);
      assert LegalStep(ds[n - 1], steps[n - 1], ds[n - 1 + 1]);
      LegalStepKeepsValid(ds[n - 1], steps[n - 1], ds[n]);
    }
  }

  function OpOf(s: Step): Op {
    if s.Own? then s.write.op else s.op
  }

  lemma StepIsNext(ds: seq<Document>, steps: seq<Step>, k: nat)
    requires LegalRun(ds, steps) && k < |steps|
    ensures ValidDocument(ds[k]) && ds[k + 1] == Next(ds[k], OpOf(steps[k]))
    ensures steps[k].HandoffStep? ==> IsHandoffOp(OpOf(steps[k]))
  {
    hide ValidDocument, Next, WritesOf;
    RunIsValidAt(ds, steps, k);
    assert LegalStep(ds[k], steps[k], ds[k + 1]);
  }

  /** Once beyond the prepared phase, a launch stays there until it is removed, and does not come back. */
  lemma {:induction false} StaysBeyond(ds: seq<Document>, steps: seq<Step>, s: nat, n: nat, id: Uuid)
    requires GuardedRun(ds, steps) && s <= n <= |steps| && Beyond(ds[s], id)
    ensures IsPending(ds[n], id) ==> Beyond(ds[n], id)
    decreases n
  {
    hide ValidDocument, LegalStep, Next, Begins, Beyond, IsPending, StartsInRun, CompletesSpawned;
    if s < n {
      var k := n - 1;
      var op := OpOf(steps[k]);
      StaysBeyond(ds, steps, s, k, id);
      StepIsNext(ds, steps, k);
      assert Beyond(ds[s], id) ==> IsPending(ds[s], id) by { BeyondIsPending(ds[s], id); }
      assert !BeginsAt(ds, steps, k, id);
      BeginsByWrite(steps[k], id);
      if Marks(op, id) && ds[n] != ds[k] {
        StoredMark(ds[k], op, id);
      } else if !Marks(op, id) {
        UnmarkedStep(ds[k], op, id);
      }
    }
  }

  lemma BeyondIsPending(d: Document, id: Uuid)
    ensures Beyond(d, id) ==> IsPending(d, id)
  {
  }

  /** Only a routine's own write begins a launch. */
  lemma BeginsByWrite(s: Step, id: Uuid)
    ensures Begins(OpOf(s), id) && (s.HandoffStep? ==> IsHandoffOp(OpOf(s))) ==> s.Own?
  {
  }

  // ---- who may store a capture failure --------------------------------------------------------

  predicate FailsCapture(op: Op) {
    op.OpCaptureFailed?
  }

  ghost predicate NeverFails(ws: seq<Write>) {
    forall x :: x in ws ==> !FailsCapture(x.op)
  }

  lemma FinishCandidateNeverFails(d: Document, id: Uuid, b: BindingInput, w: World, gap: nat)
    ensures NeverFails(FinishCandidate(d, id, b, w, gap).writes)
  {
    hide Next, RunOthers;
  }

  lemma ExactStartNeverFails(d: Document, mode: ExactMode, thread: Uuid, w: World)
    ensures NeverFails(PrepareExact(d, mode, thread, w).writes)
  {
    hide Next, RunOthers, FinishCandidate, ExactBinding, CheckedHead, PendingFor;
    var u := ClearUntracked(d, w);
    assert NeverFails(u.writes);
    var d1 := Meanwhile(u.document, w, 1);
    var d2 := Meanwhile(d1, w, 2);
    var b := ExactBinding(d2, mode, thread, w);
    if b.Ok? { AdoptNeverFails(d2, b.value, w); }
    hide ClearUntracked, AdoptExact;
  }

  lemma AdoptNeverFails(d: Document, b: BindingInput, w: World)
    ensures NeverFails(AdoptExact(d, b, w).writes)
  {
    hide Next, RunOthers, FinishCandidate;
    if PendingFor(d, w.profile, w.cwd).Ok? && PendingFor(d, w.profile, w.cwd).value.Some? {
      FinishCandidateNeverFails(Meanwhile(d, w, 3), PendingFor(d, w.profile, w.cwd).value.value.launchId, b, w, 4);
    }
  }

  /** A completion writes capture failures of its own launch only. */
  lemma CompletionFailsOwn(d: Document, c: Capture, succeeded: bool, w: World)
    ensures forall x :: x in Complete(d, c, succeeded, w).writes && FailsCapture(x.op) ==> LaunchOf(c) == Some(x.op.id)
  {
    hide Next, RunOthers, CompleteTracked;
    if c.Tracked? { CompleteTrackedFailsOwn(d, c.launchId, succeeded, w); }
  }

  lemma CompleteTrackedFailsOwn(d: Document, id: Uuid, succeeded: bool, w: World)
    ensures forall x :: x in CompleteTracked(d, id, succeeded, w).writes && FailsCapture(x.op) ==> x.op.id == id
  {
    hide Next, RunOthers, InventoryCandidate, FinishCandidate, FailReconciliation;
    if PendingFor(d, w.profile, w.cwd).Ok? && PendingFor(d, w.profile, w.cwd).value.Some? {
      var p := PendingFor(d, w.profile, w.cwd).value.value;
      var d1 := Meanwhile(d, w, 0);
      FailureIsQuiet<()>(d1, id, Refused(SessionSchemaUnsupported), w);
      if w.inventory.Err? {
        FailureIsQuiet<()>(d1, id, w.inventory.error, w);
      } else {
        var c := InventoryCandidate(p.preInventory, w.inventory.value.threads);
        if c.One? { CompleteCandidateFailsOwn(d1, p, c.thread, succeeded, w); }
        hide CompleteCandidate;
      }
    }
  }

  lemma CompleteCandidateFailsOwn(d: Document, p: PendingLaunch, thread: Uuid, succeeded: bool, w: World)
    ensures forall x :: x in CompleteCandidate(d, p, thread, succeeded, w).writes && FailsCapture(x.op) ==>
              x.op.id == p.launchId
  {
    hide Next, RunOthers, FinishCandidate, FailReconciliation;
    FailureIsQuiet<()>(d, p.launchId, Refused(SessionSchemaUnsupported), w);
    var read := ReadOf(w, thread);
    if read.Err? {
      FailureIsQuiet<()>(d, p.launchId, read.error, w);
    } else {
      var b := BindingFromRead(w.profile, w.cwd, thread, read.value);
      if b.Err? {
        FailureIsQuiet<()>(d, p.launchId, b.error, w);
      } else {
        FinishCandidateNeverFails(d, p.launchId, b.value.(lifecycle := Settled(b.value.lifecycle, succeeded)), w, 1);
      }
    }
  }

  /** Outside recoveries and completions no routine writes a capture failure; a start writes its recovery's. */
  lemma WhoFailsCapture(d: Document, r: Routine, w: World, x: Write)
    requires x in WritesOf(d, r, w) && FailsCapture(x.op)
    ensures
      || ((r.Recovery? || r.TrackedStart?) && x in Reconcile(d, w).writes)
      || (r.Completion? && LaunchOf(r.capture) == Some(x.op.id))
  {
    hide Next, RunOthers, Reconcile, Complete, PrepareExact, TrackedLaunch, UntrackedLaunch;
    match r
    case ExactStart(exact, thread) => ExactStartNeverFails(d, exact, thread, w);
    case Completion(c, succeeded) => CompletionFailsOwn(d, c, succeeded, w);
    case _ =>
  }

  // ---- where the phase of a launch comes from -------------------------------------------------

  ghost predicate RecoveryFailed(ds: seq<Document>, steps: seq<Step>, n: nat, id: Uuid)
    requires n <= |steps| < |ds|
  {
    exists k :: 0 <= k < n && FailedRecovery(ds, steps, k, id)
  }

  /** Why a launch can be beyond the prepared phase before step n: it was at the start, its spawn marker was stored, or
      a recovery that could not read the inventory stored a capture failure. */
  ghost predicate MarkedBefore(ds: seq<Document>, steps: seq<Step>, n: nat, id: Uuid)
    requires n <= |steps| < |ds|
  {
    Beyond(ds[0], id) || SpawnMarked(ds, steps, n, id) || RecoveryFailed(ds, steps, n, id)
  }

  lemma MarkedLater(ds: seq<Document>, steps: seq<Step>, k: nat, n: nat, id: Uuid)
    requires k <= n <= |steps| < |ds|
    ensures SpawnMarked(ds, steps, k, id) ==> SpawnMarked(ds, steps, n, id)
    ensures MarkedBefore(ds, steps, k, id) ==> MarkedBefore(ds, steps, n, id)
  {
    hide MarksSpawn, FailedRecovery, Beyond;
    if SpawnMarked(ds, steps, k, id) {
      var j :| 0 <= j < k && MarksSpawn(ds, steps, j, id);
      assert 0 <= j < n && MarksSpawn(ds, steps, j, id);
    }
    if RecoveryFailed(ds, steps, k, id) {
      var j :| 0 <= j < k && FailedRecovery(ds, steps, j, id);
      assert 0 <= j < n && FailedRecovery(ds, steps, j, id);
    }
  }

  /** A recovery's failure at step k is about the launch it found at its start, which was then still prepared. */
  lemma FailureOfPrepared(ds: seq<Document>, steps: seq<Step>, k: nat, id: Uuid)
    requires GuardedRun(ds, steps) && k < |steps| && steps[k].Own?
    requires steps[k].write.op == OpCaptureFailed(id) && ds[k + 1] != ds[k]
    requires !Beyond(ds[k], id) && IsPending(ds[k], id)
    requires steps[k].write in Reconcile(steps[k].start, steps[k].world).writes
    ensures steps[k].world.inventory.Err? && !Terminal(steps[k].world.inventory.error)
  {
    hide ValidDocument, LegalStep, Next, Reconcile, Beyond, IsPending, CompletesSpawned;
    var d, w := steps[k].start, steps[k].world;
    assert StartsInRun(ds, steps, k);
    var s :| 0 <= s <= k && steps[k].start == ds[s];
    RunIsValidAt(ds, steps, s);
    RecoveryWritesOnly(d, w);
    PendingIsThere(d, w.profile, w.cwd);
    PendingIsPrepared(d, PendingFor(d, w.profile, w.cwd).value.value);
    if Beyond(ds[s], id) { StaysBeyond(ds, steps, s, k, id); }
    PreparedMarkMeansUnread(d, w);
  }

  lemma MarkedAt(ds: seq<Document>, steps: seq<Step>, k: nat, id: Uuid)
    requires GuardedRun(ds, steps) && k < |steps| && !Beyond(ds[k], id) && Beyond(ds[k + 1], id)
    ensures MarkedBefore(ds, steps, k + 1, id)
  {
    hide ValidDocument, LegalStep, Next, Reconcile, Beyond, IsPending, StartsInRun, WritesOf;
    var x := steps[k];
    StepIsNext(ds, steps, k);
    LeavesPrepared(ds[k], OpOf(x), id);
    assert LegalStep(ds[k], x, ds[k + 1]);
    MarkerIsOwn(ds[k], x, ds[k + 1], id);
    if x.write.op.OpProviderStarted? {
      assert MarksSpawn(ds, steps, k, id);
    } else {
      WhoFailsCapture(x.start, x.routine, x.world, x.write);
      if x.routine.Completion? {
        assert CompletesSpawned(ds, steps, k);
        MarkedLater(ds, steps, k, k + 1, id);
      } else {
        FailureOfPrepared(ds, steps, k, id);
        assert FailedRecovery(ds, steps, k, id);
      }
    }
  }

  /** A mark is a routine's own write: no handoff step is one. */
  lemma MarkerIsOwn(d: Document, s: Step, e: Document, id: Uuid)
    requires LegalStep(d, s, e) && Marks(OpOf(s), id)
    ensures s.Own? && s.write in WritesOf(s.start, s.routine, s.world)
  {
    hide ValidDocument, Next, WritesOf;
  }

  lemma {:induction false} BeyondWasMarked(ds: seq<Document>, steps: seq<Step>, n: nat, id: Uuid)
    requires GuardedRun(ds, steps) && n <= |steps| && Beyond(ds[n], id)
    ensures MarkedBefore(ds, steps, n, id)
    decreases n
  {
    hide LegalStep, StartsInRun, CompletesSpawned, Begins, Beyond, SpawnMarked, RecoveryFailed;
    if n > 0 {
      if Beyond(ds[n - 1], id) {
        BeyondWasMarked(ds, steps, n - 1, id);
        MarkedLater(ds, steps, n - 1, n, id);
      } else {
        MarkedAt(ds, steps, n - 1, id);
      }
    }
  }

  lemma StoredAt(ds: seq<Document>, steps: seq<Step>, k: nat, id: Uuid)
    requires GuardedRun(ds, steps) && k < |steps|
    requires MarksSpawn(ds, steps, k, id) || FailedRecovery(ds, steps, k, id)
    ensures Beyond(ds[k + 1], id)
  {
    hide ValidDocument, LegalStep, Next, Beyond, IsPending, StartsInRun, CompletesSpawned;
    StepIsNext(ds, steps, k);
    StoredMark(ds[k], OpOf(steps[k]), id);
  }

  /** At any point of a run a pending launch is beyond the prepared phase exactly when it was at the start, its spawn
      marker was stored, or some recovery could not read the inventory and stored that. */
  lemma PhaseExactly(ds: seq<Document>, steps: seq<Step>, n: nat, id: Uuid)
    requires GuardedRun(ds, steps) && n <= |steps| && IsPending(ds[n], id)
    ensures Beyond(ds[n], id) <==> MarkedBefore(ds, steps, n, id)
  {
    hide LegalStep, ValidDocument, StartsInRun, CompletesSpawned, Beyond, IsPending, MarksSpawn, FailedRecovery;
    if Beyond(ds[n], id) { BeyondWasMarked(ds, steps, n, id); }
    if Beyond(ds[0], id) { StaysBeyond(ds, steps, 0, n, id); }
    if SpawnMarked(ds, steps, n, id) {
      var k :| 0 <= k < n && MarksSpawn(ds, steps, k, id);
      StoredAt(ds, steps, k, id);
      StaysBeyond(ds, steps, k + 1, n, id);
    }
    if RecoveryFailed(ds, steps, n, id) {
      var k :| 0 <= k < n && FailedRecovery(ds, steps, k, id);
      StoredAt(ds, steps, k, id);
      StaysBeyond(ds, steps, k + 1, n, id);
    }
  }

  /** In a run that begins with the launch prepared or not yet there, every document that has it beyond the prepared
      phase comes after its stored spawn marker exactly when every failed recovery of it does. */
  lemma SpawnWasMarked(ds: seq<Document>, steps: seq<Step>, n: nat, id: Uuid)
    requires GuardedRun(ds, steps) && n <= |steps| && !Beyond(ds[0], id)
    ensures (forall m :: 0 <= m <= n && Beyond(ds[m], id) ==> SpawnMarked(ds, steps, m, id))
       <==> (forall k :: 0 <= k < n && FailedRecovery(ds, steps, k, id) ==> SpawnMarked(ds, steps, k, id))
  {
    hide LegalStep, ValidDocument, StartsInRun, CompletesSpawned, Beyond, IsPending, MarksSpawn, FailedRecovery;
    if forall m :: 0 <= m <= n && Beyond(ds[m], id) ==> SpawnMarked(ds, steps, m, id) {
      forall k | 0 <= k < n && FailedRecovery(ds, steps, k, id)
        ensures SpawnMarked(ds, steps, k, id)
      {
        StoredAt(ds, steps, k, id);
        var j :| 0 <= j < k + 1 && MarksSpawn(ds, steps, j, id);
        FailureIsNoMarker(ds, steps, k, id);
      }
    }
    if forall k :: 0 <= k < n && FailedRecovery(ds, steps, k, id) ==> SpawnMarked(ds, steps, k, id) {
      forall m | 0 <= m <= n && Beyond(ds[m], id)
        ensures SpawnMarked(ds, steps, m, id)
      {
        BeyondWasMarked(ds, steps, m, id);
        if RecoveryFailed(ds, steps, m, id) {
          var k :| 0 <= k < m && FailedRecovery(ds, steps, k, id);
          MarkedLater(ds, steps, k, m, id);
        }
      }
    }
  }

  lemma FailureIsNoMarker(ds: seq<Document>, steps: seq<Step>, k: nat, id: Uuid)
    requires k < |steps| < |ds| && FailedRecovery(ds, steps, k, id)
    ensures !MarksSpawn(ds, steps, k, id)
  {
  }

  /** At any point of a run a recovery that finds one readable difference tries to bind the launch exactly when the
      launch was beyond the prepared phase at the start, its spawn marker was stored, or an earlier recovery of it could
      not read the inventory. */
  lemma RecoveryBindsMarked(ds: seq<Document>, steps: seq<Step>, n: nat, w: World, thread: Uuid)
    requires GuardedRun(ds, steps) && n <= |steps|
    requires PendingFor(ds[n], w.profile, w.cwd).Ok? && PendingFor(ds[n], w.profile, w.cwd).value.Some?
    requires w.inventory.Ok? && w.inventory.value.complete && DistinctInventory(w.inventory.value.threads)
    requires ReadOf(w, thread).Ok? && ReadOf(w, thread).value.cwd == w.cwd
    requires
      var p, i := PendingFor(ds[n], w.profile, w.cwd).value.value, w.inventory.value;
      && !p.mode.Untracked() && UniqueDifference(p.preInventory, i.threads, thread)
      && p.codexVersion == Some(i.codexVersion) == Some(ReadOf(w, thread).value.codexVersion)
    ensures (exists x :: x in Reconcile(ds[n], w).writes && BindingOfOp(x.op).Some?)
       <==> MarkedBefore(ds, steps, n, PendingFor(ds[n], w.profile, w.cwd).value.value.launchId)
  {
    hide LegalStep, ValidDocument, StartsInRun, CompletesSpawned, Reconcile, MarkedBefore, Beyond, IsPending,
         UniqueDifference, DistinctInventory;
    var p := PendingFor(ds[n], w.profile, w.cwd).value.value;
    RunIsValidAt(ds, steps, n);
    RecoveryBindsExactly(ds[n], w, thread);
    PendingIsThere(ds[n], w.profile, w.cwd);
    PendingIsPrepared(ds[n], p);
    PhaseExactly(ds, steps, n, p.launchId);
  }

  // ---- runs of single operations --------------------------------------------------------------

  /** The operation at i stored a mark of the launch, which was pending then. */
  ghost predicate MarkedBy(d: Document, ops: seq<Op>, i: nat, id: Uuid)
    requires i < |ops|
  {
    var e := RunOps(d, ops[..i]);
    Marks(ops[i], id) && Next(e, ops[i]) != e && IsPending(e, id)
  }

  /** In any run of operations a launch gets beyond the prepared phase only by a stored mark of its own. */
  lemma {:induction false} PhaseWasMarked(d: Document, ops: seq<Op>, id: Uuid)
    requires ValidDocument(d) && !Beyond(d, id) && Beyond(RunOps(d, ops), id)
    ensures exists i :: 0 <= i < |ops| && MarkedBy(d, ops, i, id)
    decreases |ops|
  {
    hide ValidDocument, Next, Marks, Beyond, IsPending;
    if ops != [] {
      var e := Next(d, ops[0]);
      NextIsValid(d, ops[0]);
      if Beyond(e, id) {
        LeavesPrepared(d, ops[0], id);
        assert ops[..0] == [];
        assert MarkedBy(d, ops, 0, id);
      } else {
        PhaseWasMarked(e, ops[1..], id);
        var i :| 0 <= i < |ops[1..]| && MarkedBy(e, ops[1..], i, id);
        assert ops[..i + 1] == [ops[0]] + ops[1..][..i];
        assert MarkedBy(d, ops, i + 1, id);
      }
    }
  }
}
