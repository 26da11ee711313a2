/** A launch that never spawned a provider, bound by the second of two recoveries. */
module CaptureExample {
  import opened Prelude
  import opened ConversationModel
  import opened RegistryEdits
  import opened RegistryValidity
  import opened CaptureModel
  import opened CaptureRely
  import opened CaptureRuns
  import Marks = CaptureMarks

  const PROFILE: Uuid := 1
  const CWD: Cwd := 1
  const LAUNCH: Uuid := 7
  const THREAD: Uuid := 5

  const Foreign := InventoryThread(THREAD, 10, None, false, 1, 2, 3, 4, 5, 6, 7)

  function QuietWorld(inventory: Result<Inventory, Failure>): World {
    World(PROFILE, CWD, inventory, inventory, Ok(CODEX_VERSION),
          map[THREAD := Ok(ThreadRead(CODEX_VERSION, CWD, ReadClean))], LAUNCH, 9, 0, [])
  }

  const Unreadable := QuietWorld(Err(Refused(ThreadMetadataUnavailable)))
  const Readable := QuietWorld(Ok(Inventory(CODEX_VERSION, [Foreign], true)))

  const Prepared := PendingLaunch(LAUNCH, PROFILE, CWD, Run, Some(CODEX_VERSION), ADAPTER_VERSION, [],
                                  PendingPhase.Prepared, 0)

  function Pending(p: PendingLaunch, revision: nat): Document {
    Document(1, revision, [], [], [p], None, None)
  }

  lemma SingleLaunchIsValid(p: PendingLaunch, revision: nat)
    requires p == Prepared || p == Prepared.(phase := CaptureFailed)
    ensures ValidDocument(Pending(p, revision))
  {
  }

  lemma Begins()
    ensures Next(EmptyDocument, OpBeginLaunch(PROFILE, CWD, Run, CODEX_VERSION, [], LAUNCH, 0)) == Pending(Prepared, 1)
  {
    SingleLaunchIsValid(Prepared, 1);
    assert NormalizeInventory([]) == Ok([]);
    assert EmptyDocument.pendingLaunches + [Prepared] == [Prepared];
  }

  lemma FirstRecoveryMarks()
    ensures Reconcile(Pending(Prepared, 1), Unreadable).document == Pending(Prepared.(phase := CaptureFailed), 2)
    ensures Reconcile(Pending(Prepared, 1), Unreadable).writes == [Write(Pending(Prepared, 1), OpCaptureFailed(LAUNCH))]
  {
    SingleLaunchIsValid(Prepared.(phase := CaptureFailed), 2);
    var d := Pending(Prepared, 1);
    assert PendingFor(d, PROFILE, CWD) == Ok(Some(Prepared));
    assert Meanwhile(d, Unreadable, 0) == d;
    assert [Prepared][0 := Prepared.(phase := CaptureFailed)] == [Prepared.(phase := CaptureFailed)];
  }

  const Failed := Prepared.(phase := CaptureFailed)
  const RecoveredBinding := BindingInput(PROFILE, THREAD, CWD, CODEX_VERSION, UnknownCrash)
  const RecoveryBind := OpFinishLaunch(LAUNCH, Bind(RecoveredBinding), 9, 0)
  const BoundDocument := Document(1, 2, [FreshConversation(RecoveredBinding, 9, 0)], [ReadyHead(CWD, 9, 0)], [],
                                None, None)

  const RecoveredHead := HeadBinding(9, 0, PROFILE, THREAD, CWD, CODEX_VERSION, UnknownCrash)

  lemma BindsFirst()
    ensures BindDocument(Document(1, 2, [], [], [], None, None), RecoveredBinding, 9, 0)
            == Ok((BoundDocument, RecoveredHead))
  {
    hide FreshConversation;
    var none, c: seq<Conversation> := [], [FreshConversation(RecoveredBinding, 9, 0)];
    assert FindOwner(none, PROFILE, THREAD) == |none| && !BoundElsewhere(none, PROFILE, THREAD);
    assert none + c == c && OtherHeads([], CWD) + [ReadyHead(CWD, 9, 0)] == [ReadyHead(CWD, 9, 0)];
  }

  lemma BindingEdit()
    ensures FinishLaunch(Pending(Failed, 2), LAUNCH, Bind(RecoveredBinding), 9, 0)
            == Ok((BoundDocument, Some(RecoveredHead)))
  {
    hide BindDocument, FreshConversation;
    BindsFirst();
    assert [Failed][..0] + [Failed][1..] == [];
  }

  lemma BindingIsSaved()
    ensures Next(Pending(Failed, 2), RecoveryBind) == BoundDocument.(revision := 3)
  {
    SingleLaunchIsValid(Failed, 2);
    BindingEdit();
    hide FinishLaunch, ValidDocument;
    HonestEditSaved(Pending(Failed, 2), RecoveryBind);
  }

  lemma NewThreadIsCandidate(x: InventoryThread)
    ensures InventoryCandidate([], [x]) == One(x.threadId)
  {
    assert Changed([], [x]) == [x];
  }

  lemma OwnsTheLaunch(p: PendingLaunch, revision: nat)
    ensures PendingFor(Pending(p, revision), p.profileId, p.cwd) == Ok(Some(p))
  {
  }

  lemma SecondRecoveryBinds()
    ensures Reconcile(Pending(Failed, 2), Readable).writes == [Write(Pending(Failed, 2), RecoveryBind)]
    ensures Reconcile(Pending(Failed, 2), Readable).document == BoundDocument.(revision := 3)
  {
    hide FinishLaunch, Next, ValidDocument, InventoryCandidate, PendingFor, OtherOp, Pending, FreshConversation;
    var d := Pending(Failed, 2);
    BindingEdit();
    BindingIsSaved();
    OwnsTheLaunch(Failed, 2);
    NewThreadIsCandidate(Foreign);
    assert Meanwhile(d, Readable, 0) == d;
  }

  /** A marker other than the spawn marker can take a launch out of the prepared phase: a recovery that could not read
      the inventory writes one. The next recovery then binds a thread to a launch that never spawned a provider. */
  lemma UnspawnedLaunchCanBeBound()
    ensures
      var begun := Next(EmptyDocument, OpBeginLaunch(PROFILE, CWD, Run, CODEX_VERSION, [], LAUNCH, 0));
      var first := Reconcile(begun, Unreadable);
      var second := Reconcile(first.document, Readable);
      && first.writes == [Write(begun, OpCaptureFailed(LAUNCH))]
      && second.writes == [Write(first.document, RecoveryBind)]
      && second.document.conversations == [FreshConversation(RecoveredBinding, 9, 0)]
  {
    hide Next, Reconcile;
    Begins();
    FirstRecoveryMarks();
    SecondRecoveryBinds();
  }

  const FailedRecovery := Own(Pending(Prepared, 1), Recovery, Unreadable,
                              Write(Pending(Prepared, 1), OpCaptureFailed(LAUNCH)))

  /** The first of these recoveries is by itself a guarded run that takes the launch out of the prepared phase without a
      stored spawn marker. */
  lemma UnspawnedRunIsGuarded()
    ensures
      var ds, steps := [Pending(Prepared, 1), Pending(Failed, 2)], [FailedRecovery];
      && Marks.GuardedRun(ds, steps) && Marks.FailedRecovery(ds, steps, 0, LAUNCH)
      && Marks.Beyond(ds[1], LAUNCH) && !Marks.SpawnMarked(ds, steps, 1, LAUNCH)
  {
    hide Reconcile, ValidDocument, Next;
    var ds, steps := [Pending(Prepared, 1), Pending(Failed, 2)], [FailedRecovery];
    SingleLaunchIsValid(Prepared, 1);
    FirstRecoveryMarks();
    FailureIsNext();
    assert LegalStep(ds[0], steps[0], ds[1]);
    assert steps[0].start == ds[0];
    assert Marks.StartsInRun(ds, steps, 0) && Marks.CompletesSpawned(ds, steps, 0);
  }

  lemma FailureIsNext()
    ensures Next(Pending(Prepared, 1), OpCaptureFailed(LAUNCH)) == Pending(Failed, 2)
  {
    SingleLaunchIsValid(Failed, 2);
    assert [Prepared][0 := Failed] == [Failed];
  }
}
