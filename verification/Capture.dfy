/** Launch capture as the program runs it: short registry transactions around provider reads, under a profile lease. */
module Capture {
  import opened Prelude
  import opened ConversationModel
  import opened RegistryEdits
  import opened CaptureRely
  import Plan = CaptureModel
  import opened CaptureModel
  import opened Registry

  /** Runs any one registry operation. */
  method Perform(registry: ConversationRegistry, op: Op)
    requires registry.Valid()
    modifies registry
    ensures registry.Valid() && registry.stored == Next(old(registry.stored), op)
  {
    hide FinishLaunch, BindDocument, PrepareHandoff, CommitHandoff, ValidDocument, ObserveTarget, TrackedLaunch,
         BeginLaunch, RefreshAdopted, Adopt, SetPhase, MarkWorkspaceAmbiguous, UntrackedLaunch, PrepareUntracked,
         AdvancePhase, RecordForkIntent, RecordForkRetry, FinishAttachment, Migrate;
    match op {
      case OpBeginLaunch(profile, cwd, mode, version, inventory, id, now) =>
        var _ := registry.BeginLaunch(profile, cwd, mode, version, inventory, id, now);
      case OpProviderStarted(id) => var _ := registry.MarkProviderStarted(id);
      case OpCaptureFailed(id) => var _ := registry.MarkCaptureFailed(id);
      case OpFinishLaunch(id, r, newId, now) => var _ := registry.FinishLaunch(id, r, newId, now);
      case OpAdopt(b, newId, now) => var _ := registry.Adopt(b, newId, now);
      case OpRefresh(x, b, newId, now) => var _ := registry.RefreshAdopted(x, b, newId, now);
      case OpMarkAmbiguous(cwd) => var _ := registry.MarkWorkspaceAmbiguous(cwd);
      case OpPrepareUntracked(profile, cwd, mode, id, now) =>
        var _ := registry.PrepareUntracked(profile, cwd, mode, id, now);
      case OpPrepareHandoff(p, id, now) => var _ := registry.PrepareHandoff(p, id, now);
      case OpStopRequested(id, now) => var _ := registry.MarkSourceStopRequested(id, now);
      case OpStopped(id, now) => var _ := registry.MarkSourceStopped(id, now);
      case OpForkIntent(id, baseline, now) => var _ := registry.RecordForkIntent(id, baseline, now);
      case OpForkRetry(id, now) => var _ := registry.RecordBoundedForkRetry(id, now);
      case OpObserve(id, target, now) => var _ := registry.ObserveHandoffTarget(id, target, now);
      case OpCommit(id, now) => var _ := registry.CommitHandoff(id, now);
      case OpAttach(id) => var _ := registry.FinishHandoffAttachment(id);
    }
  }

  /** A capture generation: the registry, and the lease, directory and surroundings it works in. */
  class CaptureContext {
    const registry: ConversationRegistry
    const world: World

    constructor (registry: ConversationRegistry, world: World)
      ensures this.registry == registry && this.world == world
    {
      this.registry, this.world := registry, world;
    }

    /** The registry now holds the planned document and the caller gets the planned result. */
    ghost predicate Leaves<T>(x: Done<T>, r: Result<T, Failure>)
      reads registry
    {
      registry.Valid() && registry.stored == x.document && r == x.result
    }

    /** Other processes use the registry while this one does not. */
    method Interfere(gap: nat)
      requires registry.Valid()
      modifies registry
      ensures registry.Valid() && registry.stored == Meanwhile(old(registry.stored), world, gap)
    {
      hide OtherOp, Next;
      var ops := Gap(world, gap);
      assert ops[0..] == ops;
      for i := 0 to |ops|
        invariant registry.Valid()
        invariant RunOthers(registry.stored, ops[i..], world.profile)
                  == RunOthers(old(registry.stored), ops, world.profile)
      {
        assert ops[i..][1..] == ops[i + 1..];
        if OtherOp(registry.stored, ops[i], world.profile) {
          Perform(registry, ops[i]);
        }
      }
    }

    method FinishLaunch(id: Uuid, resolution: LaunchResolution) returns (r: Result<Option<HeadBinding>, Failure>)
      requires registry.Valid()
      modifies registry
      ensures Leaves(Plan.Finish(old(registry.stored), id, resolution, world), r)
    {
      hide RegistryEdits.FinishLaunch;
      var reply := registry.FinishLaunch(id, resolution, world.conversationId, world.now);
      return Lift(reply);
    }

    /** Resolves the launch without a binding; the resolution's own error comes before the given one. */
    method FinishThenFail<T>(id: Uuid, resolution: LaunchResolution, e: Failure) returns (r: Result<T, Failure>)
      requires registry.Valid()
      modifies registry
      ensures Leaves(Plan.FinishThenFail(old(registry.stored), id, resolution, world, e), r)
    {
      hide Plan.Finish;
      var finished := FinishLaunch(id, resolution);
      return Err(if finished.Err? then finished.error else e);
    }

    method MarkCaptureFailed(id: Uuid) returns (r: Result<(), Failure>)
      requires registry.Valid()
      modifies registry
      ensures Leaves(Plan.MarkFailed(old(registry.stored), id), r)
    {
      hide SetPhase;
      var reply := registry.MarkCaptureFailed(id);
      return Lift(reply);
    }

    /** A terminal failure resolves the launch, any other leaves it for a later recovery. */
    method FinishReconciliationFailure<T>(id: Uuid, e: Failure) returns (r: Result<T, Failure>)
      requires registry.Valid()
      modifies registry
      ensures Leaves(Plan.FailReconciliation(old(registry.stored), id, e, world), r)
    {
      hide Plan.FinishThenFail, Plan.MarkFailed;
      if Terminal(e) {
        r := FinishThenFail(id, Unclear, e);
      } else {
        var marked := MarkCaptureFailed(id);
        r := Err(if marked.Err? then marked.error else e);
      }
    }

    method FinishCandidateBinding(id: Uuid, b: BindingInput, gap: nat) returns (r: Result<bool, Failure>)
      requires registry.Valid()
      modifies registry
      ensures Leaves(Plan.FinishCandidate(old(registry.stored), id, b, world, gap), r)
    {
      hide Plan.Finish, Plan.FailReconciliation, Meanwhile;
      var finished := FinishLaunch(id, Bind(b));
      match finished {
        case Ok(head) => return Ok(head.Some?);
        case Err(e) =>
          if e == Refused(ProfileMismatch) || e == Refused(CwdMismatch) {
            Interfere(gap);
            r := FinishReconciliationFailure(id, e);
          } else {
            return Err(e);
          }
      }
    }

    method BindOrAmbiguous(id: Uuid, b: BindingInput, gap: nat) returns (r: Result<(), Failure>)
      requires registry.Valid()
      modifies registry
      ensures Leaves(Plan.BindOrAmbiguous(old(registry.stored), id, b, world, gap), r)
    {
      hide Plan.FinishCandidate;
      var bound := FinishCandidateBinding(id, b, gap);
      return if bound.Err? then Err(bound.error) else if bound.value then Ok(()) else Err(AMBIGUOUS);
    }

    method DropLaunch(id: Uuid) returns (r: Result<(), Failure>)
      requires registry.Valid()
      modifies registry
      ensures
        var f := Plan.Finish(old(registry.stored), id, NoThread, world);
        Leaves(Done(f.document, f.writes, if f.result.Err? then Err(f.result.error) else Ok(())), r)
    {
      hide Plan.Finish;
      var finished := FinishLaunch(id, NoThread);
      return if finished.Err? then Err(finished.error) else Ok(());
    }

    // ---- automatic recovery -------------------------------------------------------------------

    method ReconcilePendingLaunch() returns (r: Result<(), Failure>)
      requires registry.Valid()
      modifies registry
      ensures Leaves(Reconcile(old(registry.stored), world), r)
    {
      hide Plan.FinishThenFail, Plan.FailReconciliation, Plan.ReconcileCandidate, InventoryCandidate, Meanwhile,
           PendingFor;
      var found := PendingFor(registry.stored, world.profile, world.cwd);
      if found.Err? {
        return Err(Refused(found.error));
      }
      if found.value.None? {
        return Ok(());
      }
      var p := found.value.value;
      if !p.mode.Untracked() && p.codexVersion.None? {
        return Err(Refused(RegistryInvalid));
      }
      Interfere(0);
      if p.mode.Untracked() {
        r := FinishThenFail(p.launchId, Unclear, AMBIGUOUS);
        return;
      }
      if world.inventory.Err? {
        r := FinishReconciliationFailure(p.launchId, world.inventory.error);
        return;
      }
      var inventory := world.inventory.value;
      if !inventory.complete {
        r := FinishThenFail(p.launchId, Unclear, AMBIGUOUS);
      } else if Some(inventory.codexVersion) != p.codexVersion {
        r := FinishReconciliationFailure(p.launchId, Refused(SessionSchemaUnsupported));
      } else {
        r := ReconcileFound(p, InventoryCandidate(p.preInventory, inventory.threads));
      }
    }

    method ReconcileFound(p: PendingLaunch, c: Candidate) returns (r: Result<(), Failure>)
      requires registry.Valid()
      modifies registry
      ensures Leaves(ReconcileCandidate(old(registry.stored), p, c, world), r)
    {
      hide Plan.Finish, Plan.FinishThenFail, Plan.FailReconciliation, Plan.BindOrAmbiguous;
      match c {
        case NoCandidate =>
          if p.phase == PendingPhase.Prepared {
            r := DropLaunch(p.launchId);
          } else {
            r := FinishThenFail(p.launchId, Unclear, AMBIGUOUS);
          }
        case Several => r := FinishThenFail(p.launchId, Unclear, AMBIGUOUS);
        case One(thread) =>
          if p.phase == PendingPhase.Prepared {
            r := FinishThenFail(p.launchId, Unclear, AMBIGUOUS);
            return;
          }
          var read := ReadOf(world, thread);
          if read.Err? {
            r := FinishReconciliationFailure(p.launchId, read.error);
            return;
          }
          if Some(read.value.codexVersion) != p.codexVersion {
            r := FinishReconciliationFailure(p.launchId, Refused(SessionSchemaUnsupported));
            return;
          }
          var b := BindingFromRead(world.profile, world.cwd, thread, read.value);
          if b.Err? {
            r := FinishReconciliationFailure(p.launchId, b.error);
            return;
          }
          r := BindOrAmbiguous(p.launchId, b.value.(lifecycle := Recovered(b.value.lifecycle)), 1);
      }
    }

    // ---- completing a provider run ------------------------------------------------------------

    method CompleteTracked(id: Uuid, succeeded: bool) returns (r: Result<(), Failure>)
      requires registry.Valid()
      modifies registry
      ensures Leaves(Plan.CompleteTracked(old(registry.stored), id, succeeded, world), r)
    {
      hide Plan.Finish, Plan.FinishThenFail, Plan.FailReconciliation, Plan.CompleteCandidate, InventoryCandidate,
           Meanwhile, PendingFor;
      var found := PendingFor(registry.stored, world.profile, world.cwd);
      if found.Err? {
        return Err(Refused(found.error));
      }
      if found.value.None? {
        return Err(Refused(NotFound));
      }
      var p := found.value.value;
      if p.launchId != id || p.mode.Untracked() {
        return Err(AMBIGUOUS);
      }
      if p.codexVersion.None? {
        return Err(Refused(RegistryInvalid));
      }
      Interfere(0);
      if world.inventory.Err? {
        r := FinishReconciliationFailure(id, world.inventory.error);
        return;
      }
      var inventory := world.inventory.value;
      if !inventory.complete {
        r := FinishThenFail(id, Unclear, AMBIGUOUS);
        return;
      }
      if Some(inventory.codexVersion) != p.codexVersion {
        r := FinishReconciliationFailure(id, Refused(SessionSchemaUnsupported));
        return;
      }
      match InventoryCandidate(p.preInventory, inventory.threads) {
        case NoCandidate => r := DropLaunch(id);
        case Several => r := FinishThenFail(id, Unclear, AMBIGUOUS);
        case One(thread) => r := CompleteFound(p, thread, succeeded);
      }
    }

    method CompleteFound(p: PendingLaunch, thread: Uuid, succeeded: bool) returns (r: Result<(), Failure>)
      requires registry.Valid()
      modifies registry
      ensures Leaves(CompleteCandidate(old(registry.stored), p, thread, succeeded, world), r)
    {
      hide Plan.FailReconciliation, Plan.BindOrAmbiguous;
      var read := ReadOf(world, thread);
      if read.Err? {
        r := FinishReconciliationFailure(p.launchId, read.error);
        return;
      }
      if Some(read.value.codexVersion) != p.codexVersion {
        r := FinishReconciliationFailure(p.launchId, Refused(SessionSchemaUnsupported));
        return;
      }
      var b := BindingFromRead(world.profile, world.cwd, thread, read.value);
      if b.Err? {
        r := FinishReconciliationFailure(p.launchId, b.error);
        return;
      }
      var binding := b.value;
      if !succeeded && binding.lifecycle == Clean {
        binding := binding.(lifecycle := UnknownCrash);
      }
      r := BindOrAmbiguous(p.launchId, binding, 1);
    }

    method RefreshBoundLifecycle(expected: HeadBinding, succeeded: bool) returns (r: Result<(), Failure>)
      requires registry.Valid()
      modifies registry
      ensures Leaves(RefreshBound(old(registry.stored), expected, succeeded, world), r)
    {
      hide RefreshAdopted;
      var read := ReadOf(world, expected.threadId);
      if read.Err? {
        return Err(read.error);
      }
      var b := BindingFromRead(world.profile, world.cwd, expected.threadId, read.value);
      if b.Err? {
        return Err(b.error);
      }
      var binding := b.value;
      if !succeeded && binding.lifecycle == Clean {
        binding := binding.(lifecycle := UnknownCrash);
      }
      var refreshed := registry.RefreshAdopted(expected, binding, world.conversationId, world.now);
      return if refreshed.Err? then Err(Refused(refreshed.error)) else Ok(());
    }

    method MarkWorkspaceAmbiguous() returns (r: Result<(), Failure>)
      requires registry.Valid()
      modifies registry
      ensures Leaves(Plan.MarkAmbiguous(old(registry.stored), world.cwd), r)
    {
      hide RegistryEdits.MarkWorkspaceAmbiguous;
      var reply := registry.MarkWorkspaceAmbiguous(world.cwd);
      return Lift(reply);
    }

    /** A failed checkpoint is recorded and never retried; the provider's own status stands. */
    method Complete(capture: Capture, succeeded: bool)
      requires registry.Valid()
      modifies registry
      ensures Leaves(Plan.Complete(old(registry.stored), capture, succeeded, world), Ok(()))
    {
      hide Plan.Finish, Plan.CompleteTracked, RefreshBound, Plan.MarkFailed, Plan.MarkAmbiguous, Meanwhile;
      match capture {
        case UnsupportedExplicit =>
        case Untracked(id) => var _ := FinishLaunch(id, Unclear);
        case Tracked(id) =>
          var completed := CompleteTracked(id, succeeded);
          if completed.Err? {
            Interfere(2);
            var _ := MarkCaptureFailed(id);
          }
        case Bound(expected) =>
          var refreshed := RefreshBoundLifecycle(expected, succeeded);
          if refreshed.Err? {
            Interfere(2);
            var _ := MarkWorkspaceAmbiguous();
          }
      }
    }

    // ---- exact resume -------------------------------------------------------------------------

    method ClearUntracked() returns (r: Result<(), Failure>)
      requires registry.Valid()
      modifies registry
      ensures Leaves(Plan.ClearUntracked(old(registry.stored), world), r)
    {
      hide Plan.Finish, Meanwhile;
      var untracked := UntrackedFor(registry.stored, world.cwd);
      if untracked.None? {
        return Ok(());
      }
      if untracked.value.profileId != world.profile {
        return Err(AMBIGUOUS);
      }
      Interfere(0);
      var finished := FinishLaunch(untracked.value.launchId, Unclear);
      return if finished.Err? then Err(finished.error) else Ok(());
    }

    method AdoptBinding(b: BindingInput) returns (r: Result<HeadBinding, Failure>)
      requires registry.Valid()
      modifies registry
      ensures Leaves(AdoptNow(old(registry.stored), b, world), r)
    {
      hide Adopt;
      var adopted := registry.Adopt(b, world.conversationId, world.now);
      return Lift(adopted);
    }

    /** Resolves this profile's own pending launch with the binding first, then adopts it. */
    method AdoptExactBinding(b: BindingInput) returns (r: Result<HeadBinding, Failure>)
      requires registry.Valid()
      modifies registry
      ensures Leaves(AdoptExact(old(registry.stored), b, world), r)
    {
      hide Plan.FinishCandidate, AdoptNow, Meanwhile, PendingFor;
      var found := PendingFor(registry.stored, world.profile, world.cwd);
      if found.Err? {
        return Err(Refused(found.error));
      }
      if found.value.Some? {
        var p := found.value.value;
        if p.mode.Untracked() {
          return Err(AMBIGUOUS);
        }
        Interfere(3);
        var bound := FinishCandidateBinding(p.launchId, b, 4);
        if bound.Err? {
          return Err(bound.error);
        }
      }
      Interfere(5);
      r := AdoptBinding(b);
    }

    method PrepareExact(mode: ExactMode, thread: Uuid) returns (r: Result<Capture, Failure>)
      requires registry.Valid()
      modifies registry
      ensures Leaves(Plan.PrepareExact(old(registry.stored), mode, thread, world), r)
    {
      hide Plan.ClearUntracked, AdoptExact, Meanwhile, CheckedHead, ExactBinding;
      var cleared := ClearUntracked();
      if cleared.Err? {
        return Err(cleared.error);
      }
      Interfere(1);
      if mode.ResumeHead? {
        var head := CheckedHead(registry.stored, world.profile, thread, world.cwd);
        if head.Err? {
          return Err(head.error);
        }
      } else {
        if world.version.Err? {
          return Err(world.version.error);
        }
        if world.version.value != CODEX_VERSION {
          return Ok(UnsupportedExplicit);
        }
      }
      Interfere(2);
      var b := ReadExactBinding(mode, thread);
      if b.Err? {
        return Err(b.error);
      }
      var adopted := AdoptExactBinding(b.value);
      return if adopted.Err? then Err(adopted.error) else Ok(Bound(adopted.value));
    }

    /** The thread as read, with any uncertainty on record kept. */
    method ReadExactBinding(mode: ExactMode, thread: Uuid) returns (r: Result<BindingInput, Failure>)
      ensures r == ExactBinding(registry.stored, mode, thread, world)
    {
      hide Persisted;
      var read := ReadOf(world, thread);
      if read.Err? {
        return Err(read.error);
      }
      var persisted := Persisted(registry.stored, mode, world.profile, thread, world.cwd);
      if persisted.Err? {
        return Err(persisted.error);
      }
      if persisted.value.Some? && persisted.value.value.codexVersion != read.value.codexVersion {
        return Err(Refused(SessionSchemaUnsupported));
      }
      var b := BindingFromRead(world.profile, world.cwd, thread, read.value);
      if b.Ok? && persisted.value.Some? {
        return Ok(b.value.(lifecycle := PreserveUncertainty(persisted.value.value.lifecycle, b.value.lifecycle)));
      }
      return b;
    }

    // ---- preparing a launch -------------------------------------------------------------------

    method PrepareTracked(mode: LaunchMode) returns (r: Result<Capture, Failure>)
      requires registry.Valid()
      modifies registry
      ensures Leaves(Plan.PrepareTracked(old(registry.stored), mode, world), r)
    {
      hide Reconcile, Meanwhile, Plan.MarkAmbiguous, BeginTracked;
      var recovered := ReconcilePendingLaunch();
      if recovered.Err? {
        return Err(recovered.error);
      }
      Interfere(2);
      if world.launchInventory.Err? {
        return Err(world.launchInventory.error);
      }
      var inventory := world.launchInventory.value;
      if !inventory.complete {
        var marked := MarkWorkspaceAmbiguous();
        return Err(if marked.Err? then marked.error else AMBIGUOUS);
      }
      r := BeginLaunch(mode, inventory);
    }

    method BeginLaunch(mode: LaunchMode, inventory: Inventory) returns (r: Result<Capture, Failure>)
      requires registry.Valid()
      modifies registry
      ensures Leaves(BeginTracked(old(registry.stored), mode, inventory, world), r)
    {
      hide TrackedLaunch, RegistryEdits.BeginLaunch;
      var begun := registry.BeginLaunch(world.profile, world.cwd, mode, inventory.codexVersion, inventory.threads,
                                        world.launchId, world.now);
      return if begun.Err? then Err(Refused(begun.error)) else Ok(Tracked(begun.value));
    }

    method PrepareUntracked(mode: LaunchMode) returns (r: Result<Capture, Failure>)
      requires registry.Valid()
      modifies registry
      ensures Leaves(PrepareUntrackedLaunch(old(registry.stored), mode, world), r)
    {
      hide UntrackedLaunch, RegistryEdits.PrepareUntracked;
      var begun := registry.PrepareUntracked(world.profile, world.cwd, mode, world.launchId, world.now);
      return if begun.Err? then Err(Refused(begun.error)) else Ok(Untracked(begun.value));
    }

    /** The spawn marker, written before the provider is spawned. */
    method AuthorizeProviderSpawn(capture: Capture) returns (r: Result<(), Failure>)
      requires registry.Valid()
      modifies registry
      ensures Leaves(Authorize(old(registry.stored), capture), r)
    {
      hide SetPhase;
      if LaunchOf(capture).None? {
        return Ok(());
      }
      var marked := registry.MarkProviderStarted(LaunchOf(capture).value);
      return Lift(marked);
    }

    method ProviderSpawnFailed(capture: Capture) returns (r: Result<(), Failure>)
      requires registry.Valid()
      modifies registry
      ensures Leaves(SpawnFailed(old(registry.stored), capture, world), r)
    {
      hide Plan.Finish;
      if LaunchOf(capture).None? {
        return Ok(());
      }
      r := DropLaunch(LaunchOf(capture).value);
    }
  }
}
