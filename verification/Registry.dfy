/** The registry itself: a document loaded, edited in place, validated and stored, one lock at a time. */
module Registry {
  import opened Prelude
  import opened ConversationModel
  import Edits = RegistryEdits
  import opened RegistryEdits
  import RegistryValidator

  /** A loaded document whose fields the operations edit. */
  class LoadedDocument {
    var schemaVersion: nat
    var revision: nat
    var conversations: seq<Conversation>
    var workspaceHeads: seq<WorkspaceHead>
    var pendingLaunches: seq<PendingLaunch>
    var preMigrationBackup: Option<PreMigrationBackup>
    var activeTransition: Option<HandoffTransition>

    constructor (d: Document)
      ensures Value() == d
    {
      schemaVersion, revision := d.schemaVersion, d.revision;
      conversations, workspaceHeads := d.conversations, d.workspaceHeads;
      pendingLaunches := d.pendingLaunches;
      preMigrationBackup, activeTransition := d.preMigrationBackup, d.activeTransition;
    }

    function Value(): Document
      reads this
    {
      Document(schemaVersion, revision, conversations, workspaceHeads, pendingLaunches, preMigrationBackup,
               activeTransition)
    }

    method MarkHeadNeedsSelection(cwd: Cwd)
      modifies this`workspaceHeads
      ensures Value() == MarkHead(old(Value()), cwd)
    {
      var k := FindHead(workspaceHeads, Codex, cwd);
      if k < |workspaceHeads| {
        workspaceHeads := workspaceHeads[k := workspaceHeads[k].(state := NeedsSelection)];
        return;
      }
      workspaceHeads := workspaceHeads + [BareHead(cwd)];
    }

    /** Drops every Codex head of the directory, as a retain loop over the list. */
    method RetainOtherHeads(cwd: Cwd)
      modifies this`workspaceHeads
      ensures Value() == old(Value()).(workspaceHeads := OtherHeads(old(workspaceHeads), cwd))
    {
      var kept: seq<WorkspaceHead> := [];
      var i := 0;
      while i < |workspaceHeads|
        invariant i <= |workspaceHeads|
        invariant kept + OtherHeads(workspaceHeads[i..], cwd) == OtherHeads(workspaceHeads, cwd)
      {
        if !(workspaceHeads[i].provider == Codex && workspaceHeads[i].cwd == cwd) {
          kept := kept + [workspaceHeads[i]];
        }
        i := i + 1;
      }
      workspaceHeads := kept;
    }

    method BindDocument(b: BindingInput, freshId: Uuid, now: nat) returns (r: Result<HeadBinding, ConversationError>)
      modifies this`conversations, this`workspaceHeads
      ensures match Edits.BindDocument(old(Value()), b, freshId, now)
              case Err(e) => r == Err(e) && Value() == old(Value())
              case Ok((d, head)) => r == Ok(head) && Value() == d
    {
      if CheckBindingInput(b).Some? {
        return Err(CheckBindingInput(b).value);
      }
      if Transitioning(Value(), b.cwd) {
        return Err(TransitionBusy);
      }
      if BoundElsewhere(conversations, b.profileId, b.threadId) {
        return Err(ProfileMismatch);
      }
      var conversationId, generation := freshId, 0;
      var k := FindOwner(conversations, b.profileId, b.threadId);
      if k < |conversations| {
        var c := conversations[k];
        var g := c.generations[FindBound(c.generations, b.profileId, b.threadId)];
        if g.number != c.activeGeneration {
          return Err(ConversationError.Ambiguous);
        }
        if g.cwd != b.cwd {
          return Err(CwdMismatch);
        }
        conversations := conversations[k := c.(lifecycle := b.lifecycle)];
        conversationId, generation := c.conversationId, g.number;
      } else {
        conversations := conversations + [FreshConversation(b, freshId, now)];
      }
      RetainOtherHeads(b.cwd);
      workspaceHeads := workspaceHeads + [ReadyHead(b.cwd, conversationId, generation)];
      return Ok(HeadBinding(conversationId, generation, b.profileId, b.threadId, b.cwd, b.codexVersion, b.lifecycle));
    }

    /** Stamps the active generation with its handoff metadata and starts the transition. */
    method PrepareOn(k: nat, p: HandoffPreparation, transitionId: Uuid, now: nat)
      returns (r: Result<HandoffTransition, ConversationError>)
      requires k < |conversations|
      modifies this`conversations, this`activeTransition
      ensures match Edits.PrepareOn(old(Value()), k, p, transitionId, now)
              case Err(e) => r == Err(e)
              case Ok((d, t)) => r == Ok(t) && Value() == d
    {
      var expected := p.expectedSource;
      var c := conversations[k];
      if c.activeGeneration != expected.generation {
        return Err(ConversationError.Ambiguous);
      }
      var g := FindGeneration(c.generations, c.activeGeneration);
      if g == |c.generations| {
        return Err(RegistryInvalid);
      }
      var source := c.generations[g];
      if source.profileId != expected.profileId || source.threadId != expected.threadId
         || source.cwd != expected.cwd
      {
        return Err(ConversationError.Ambiguous);
      }
      if source.trustDomainId.None? && source.rollout.None? {
        source := source.(trustDomainId := Some(p.trustDomainId), rollout := Some(p.sourceRollout));
        conversations := conversations[k := c.(generations := c.generations[g := source])];
      } else if source.trustDomainId != Some(p.trustDomainId) || source.rollout != Some(p.sourceRollout) {
        return Err(RegistryInvalid);
      } else {
        assert c.generations[g := source] == c.generations && conversations[k := c] == conversations;
      }
      if source.number + 1 > U32_MAX {
        return Err(RegistryInvalid);
      }
      var t := HandoffTransition(transitionId, c.conversationId, source.number, source.number + 1, source.profileId,
                                 p.targetProfileId, source.cwd, p.trustDomainId, p.reason, p.sourceRollout,
                                 HandoffPhase.Prepared, [], 0, None, None, now, now);
      activeTransition := Some(t);
      return Ok(t);
    }
  }

  class ConversationRegistry {
    var stored: Document

    ghost predicate Valid()
      reads this
    {
      ValidDocument(stored)
    }

    constructor ()
      ensures Valid() && stored == EmptyDocument
    {
      stored := EmptyDocument;
    }

    method Load() returns (document: LoadedDocument)
      ensures fresh(document) && document.Value() == stored
    {
      document := new LoadedDocument(stored);
    }

    /** Opens a schema 2 transaction, migrating a schema 1 document first. */
    method LoadV2() returns (document: LoadedDocument)
      ensures fresh(document) && document.Value() == Migrate(stored)
    {
      document := new LoadedDocument(stored);
      if document.schemaVersion == 1 {
        document.schemaVersion := 2;
        document.preMigrationBackup := Some(PreMigrationBackup(1, stored.revision, Sha256(stored)));
      }
    }

    method SaveDocument(document: LoadedDocument) returns (r: Result<(), ConversationError>)
      modifies this, document
      ensures match Save(old(document.Value()))
              case Err(e) => r == Err(e) && stored == old(stored)
              case Ok(d) => r == Ok(()) && stored == d && Valid()
    {
      if document.revision + 1 > U64_MAX {
        return Err(RegistryInvalid);
      }
      document.revision := document.revision + 1;
      var ok := RegistryValidator.ValidateDocument(document.Value());
      if !ok {
        return Err(RegistryInvalid);
      }
      stored := document.Value();
      return Ok(());
    }

    // ---- launches -----------------------------------------------------------------------------

    method BeginLaunch(profile: Uuid, cwd: Cwd, mode: LaunchMode, version: string,
                       inventory: seq<InventoryThread>, launchId: Uuid, now: nat)
      returns (r: Result<Uuid, ConversationError>)
      requires Valid()
      modifies this
      ensures Valid()
      ensures match TrackedLaunch(profile, cwd, mode, version, inventory, launchId, now)
              case Err(e) => r == Err(e) && stored == old(stored)
              case Ok(launch) =>
                var (d, reply) := Transact(old(stored), Edits.BeginLaunch(old(stored), launch));
                stored == d && r == (match reply
                                     case Err(e) => Err(e)
                                     case Ok(overlapping) => if overlapping then Err(ConversationError.Ambiguous)
                                                             else Ok(launchId))
    {
      if mode.Untracked() {
        return Err(RegistryInvalid);
      }
      if version != CODEX_VERSION {
        return Err(SessionSchemaUnsupported);
      }
      var canonical := NormalizeInventory(inventory);
      if canonical.Err? {
        return Err(canonical.error);
      }
      var pending := PendingLaunch(launchId, profile, cwd, mode, Some(version), ADAPTER_VERSION, canonical.value,
                                   PendingPhase.Prepared, now);
      var document := Load();
      if Transitioning(document.Value(), cwd) {
        return Err(TransitionBusy);
      }
      var ps := document.pendingLaunches;
      var overlapping := exists i :: 0 <= i < |ps| && ps[i].cwd == cwd && ps[i].launchId != launchId;
      if overlapping {
        document.MarkHeadNeedsSelection(cwd);
      } else {
        document.pendingLaunches := ps + [pending];
      }
      var saved := SaveDocument(document);
      if saved.Err? {
        return Err(saved.error);
      }
      return if overlapping then Err(ConversationError.Ambiguous) else Ok(launchId);
    }

    method SetLaunchPhase(id: Uuid, phase: PendingPhase) returns (r: Result<(), ConversationError>)
      requires Valid()
      modifies this
      ensures Valid() && Committed(old(stored), SetPhase(old(stored), id, phase), stored, r)
    {
      var document := Load();
      var k := FindLaunch(document.pendingLaunches, id);
      if k == |document.pendingLaunches| {
        return Err(NotFound);
      }
      var pending := document.pendingLaunches[k];
      document.pendingLaunches := document.pendingLaunches[k := pending.(phase := phase)];
      r := SaveDocument(document);
    }

    method MarkProviderStarted(id: Uuid) returns (r: Result<(), ConversationError>)
      requires Valid()
      modifies this
      ensures Valid() && Committed(old(stored), SetPhase(old(stored), id, ProviderStarted), stored, r)
    {
      r := SetLaunchPhase(id, ProviderStarted);
    }

    method MarkCaptureFailed(id: Uuid) returns (r: Result<(), ConversationError>)
      requires Valid()
      modifies this
      ensures Valid() && Committed(old(stored), SetPhase(old(stored), id, CaptureFailed), stored, r)
    {
      r := SetLaunchPhase(id, CaptureFailed);
    }

    method FinishLaunch(id: Uuid, resolution: LaunchResolution, freshId: Uuid, now: nat)
      returns (r: Result<Option<HeadBinding>, ConversationError>)
      requires Valid()
      modifies this
      ensures Valid() && Committed(old(stored), Edits.FinishLaunch(old(stored), id, resolution, freshId, now), stored,
              r)
    {
      hide Edits.BindDocument, MarkHead, ValidDocument;
      var document := Load();
      var k := FindLaunch(document.pendingLaunches, id);
      if k == |document.pendingLaunches| {
        return Err(NotFound);
      }
      var pending := document.pendingLaunches[k];
      document.pendingLaunches := document.pendingLaunches[..k] + document.pendingLaunches[k + 1..];
      var reply: Option<HeadBinding> := None;
      if pending.mode.Untracked() {
        document.MarkHeadNeedsSelection(pending.cwd);
      } else if !HeadNeedsSelection(document.workspaceHeads, pending.cwd) {
        match resolution {
          case Bind(b) =>
            if b.profileId != pending.profileId || b.cwd != pending.cwd
               || pending.codexVersion != Some(b.codexVersion)
            {
              document.MarkHeadNeedsSelection(pending.cwd);
            } else {
              var bound := document.BindDocument(b, freshId, now);
              if bound.Err? {
                return Err(bound.error);
              }
              reply := Some(bound.value);
            }
          case NoThread =>
          case Unclear => document.MarkHeadNeedsSelection(pending.cwd);
        }
      }
      var saved := SaveDocument(document);
      if saved.Err? {
        return Err(saved.error);
      }
      return Ok(reply);
    }

    method Adopt(b: BindingInput, freshId: Uuid, now: nat) returns (r: Result<HeadBinding, ConversationError>)
      requires Valid()
      modifies this
      ensures Valid() && Committed(old(stored), Edits.Adopt(old(stored), b, freshId, now), stored, r)
    {
      if CheckBindingInput(b).Some? {
        return Err(CheckBindingInput(b).value);
      }
      var document := Load();
      if Transitioning(document.Value(), b.cwd) {
        return Err(TransitionBusy);
      }
      if PendingAt(document.pendingLaunches, b.cwd) {
        return Err(ConversationError.Ambiguous);
      }
      r := BindAndSave(document, b, freshId, now);
    }

    /** The common tail of adoption and refresh. */
    method BindAndSave(document: LoadedDocument, b: BindingInput, freshId: Uuid, now: nat)
      returns (r: Result<HeadBinding, ConversationError>)
      requires Valid() && document.Value() == stored
      modifies this, document
      ensures Valid() && Committed(old(stored), Edits.BindDocument(old(stored), b, freshId, now), stored, r)
    {
      r := document.BindDocument(b, freshId, now);
      if r.Ok? {
        var saved := SaveDocument(document);
        if saved.Err? {
          return Err(saved.error);
        }
      }
    }

    method RefreshAdopted(expected: HeadBinding, b: BindingInput, freshId: Uuid, now: nat)
      returns (r: Result<HeadBinding, ConversationError>)
      requires Valid()
      modifies this
      ensures Valid() && Committed(old(stored), Edits.RefreshAdopted(old(stored), expected, b, freshId, now), stored, r)
    {
      if CheckBindingInput(b).Some? {
        return Err(CheckBindingInput(b).value);
      }
      if expected.profileId != b.profileId || expected.threadId != b.threadId || expected.cwd != b.cwd
         || expected.codexVersion != b.codexVersion
      {
        return Err(ConversationError.Ambiguous);
      }
      var document := Load();
      var current := ResolveHead(document.Value(), b.cwd);
      if current.Err? {
        return Err(current.error);
      }
      var head := current.value;
      if head.conversationId != expected.conversationId || head.generation != expected.generation
         || head.profileId != expected.profileId || head.threadId != expected.threadId
         || head.codexVersion != expected.codexVersion
      {
        return Err(ConversationError.Ambiguous);
      }
      r := BindAndSave(document, b, freshId, now);
    }

    method MarkWorkspaceAmbiguous(cwd: Cwd) returns (r: Result<(), ConversationError>)
      requires Valid()
      modifies this
      ensures Valid() && Committed(old(stored), Edits.MarkWorkspaceAmbiguous(old(stored), cwd), stored, r)
    {
      var document := Load();
      if Transitioning(document.Value(), cwd) {
        return Err(TransitionBusy);
      }
      document.MarkHeadNeedsSelection(cwd);
      r := SaveDocument(document);
    }

    method PrepareUntracked(profile: Uuid, cwd: Cwd, mode: LaunchMode, launchId: Uuid, now: nat)
      returns (r: Result<Uuid, ConversationError>)
      requires Valid()
      modifies this
      ensures Valid()
      ensures match UntrackedLaunch(profile, cwd, mode, launchId, now)
              case Err(e) => r == Err(e) && stored == old(stored)
              case Ok(launch) =>
                var (d, reply) := Transact(old(stored), Edits.PrepareUntracked(old(stored), launch));
                stored == d && r == (match reply case Err(e) => Err(e) case Ok(_) => Ok(launchId))
    {
      if !mode.Untracked() {
        return Err(RegistryInvalid);
      }
      var pending := PendingLaunch(launchId, profile, cwd, mode, None, ADAPTER_VERSION, [],
                                   PendingPhase.Prepared, now);
      var document := Load();
      if Transitioning(document.Value(), cwd) {
        return Err(TransitionBusy);
      }
      if PendingAt(document.pendingLaunches, cwd) {
        return Err(ConversationError.Ambiguous);
      }
      document.MarkHeadNeedsSelection(cwd);
      document.pendingLaunches := document.pendingLaunches + [pending];
      var saved := SaveDocument(document);
      if saved.Err? {
        return Err(saved.error);
      }
      return Ok(launchId);
    }

    // ---- handoff ------------------------------------------------------------------------------

    method PrepareHandoff(p: HandoffPreparation, transitionId: Uuid, now: nat)
      returns (r: Result<HandoffTransition, ConversationError>)
      requires Valid()
      modifies this
      ensures Valid() && Committed(old(stored), Edits.PrepareHandoff(Migrate(old(stored)), p, transitionId, now),
              stored, r)
    {
      if CheckPreparation(p).Some? {
        return Err(CheckPreparation(p).value);
      }
      var document := LoadV2();
      var expected := p.expectedSource;
      if document.activeTransition.Some? {
        return Err(TransitionBusy);
      }
      if PendingAt(document.pendingLaunches, expected.cwd) {
        return Err(ConversationError.Ambiguous);
      }
      var current := ResolveHead(document.Value(), expected.cwd);
      if current.Err? {
        return Err(current.error);
      }
      if current.value != expected {
        return Err(ConversationError.Ambiguous);
      }
      var k := FindConversation(document.conversations, expected.conversationId);
      if k == |document.conversations| {
        return Err(NotFound);
      }
      var t := document.PrepareOn(k, p, transitionId, now);
      if t.Err? {
        return Err(t.error);
      }
      r := SaveTransition(document, t.value);
    }

    method SaveTransition(document: LoadedDocument, t: HandoffTransition)
      returns (r: Result<HandoffTransition, ConversationError>)
      requires Valid()
      modifies this, document
      ensures Valid() && Committed(old(stored), Ok((old(document.Value()), t)), stored, r)
    {
      var saved := SaveDocument(document);
      return if saved.Err? then Err(saved.error) else Ok(t);
    }

    method AdvanceHandoffPhase(id: Uuid, from: HandoffPhase, next: HandoffPhase, now: nat)
      returns (r: Result<HandoffTransition, ConversationError>)
      requires Valid()
      modifies this
      ensures Valid() && Committed(old(stored), AdvancePhase(Migrate(old(stored)), id, from, next, now), stored, r)
    {
      var document := LoadV2();
      var exact := ExactTransition(document.Value(), id, from);
      if exact.Err? {
        return Err(exact.error);
      }
      var t := exact.value.(phase := next, updatedAt := now);
      document.activeTransition := Some(t);
      r := SaveTransition(document, t);
    }

    method MarkSourceStopRequested(id: Uuid, now: nat) returns (r: Result<HandoffTransition, ConversationError>)
      requires Valid()
      modifies this
      ensures Valid()
      ensures Committed(old(stored), AdvancePhase(Migrate(old(stored)), id, HandoffPhase.Prepared, SourceStopRequested,
              now),
                        stored, r)
    {
      r := AdvanceHandoffPhase(id, HandoffPhase.Prepared, SourceStopRequested, now);
    }

    method MarkSourceStopped(id: Uuid, now: nat) returns (r: Result<HandoffTransition, ConversationError>)
      requires Valid()
      modifies this
      ensures Valid()
      ensures Committed(old(stored), AdvancePhase(Migrate(old(stored)), id, SourceStopRequested, SourceStopped, now),
                        stored, r)
    {
      r := AdvanceHandoffPhase(id, SourceStopRequested, SourceStopped, now);
    }

    method RecordForkIntent(id: Uuid, baseline: seq<Uuid>, now: nat)
      returns (r: Result<HandoffTransition, ConversationError>)
      requires Valid()
      modifies this
      ensures Valid() && Committed(old(stored), Edits.RecordForkIntent(Migrate(old(stored)), id, baseline, now),
              stored, r)
    {
      if !CanonicalBaseline(baseline) {
        return Err(RegistryInvalid);
      }
      var document := LoadV2();
      var exact := ExactTransition(document.Value(), id, SourceStopped);
      if exact.Err? {
        return Err(exact.error);
      }
      var t := exact.value;
      if t.forkAttempts != 0 || t.forkRequestedAt.Some? || t.baseline != [] {
        return Err(TransitionPhaseInvalid);
      }
      t := t.(phase := ForkRequested, baseline := baseline, forkAttempts := 1, forkRequestedAt := Some(now),
              updatedAt := now);
      document.activeTransition := Some(t);
      r := SaveTransition(document, t);
    }

    method RecordBoundedForkRetry(id: Uuid, now: nat) returns (r: Result<HandoffTransition, ConversationError>)
      requires Valid()
      modifies this
      ensures Valid() && Committed(old(stored), RecordForkRetry(Migrate(old(stored)), id, now), stored, r)
    {
      var document := LoadV2();
      var exact := ExactTransition(document.Value(), id, ForkRequested);
      if exact.Err? {
        return Err(exact.error);
      }
      var t := exact.value;
      if t.forkAttempts != 1 || t.forkRequestedAt.None? || t.observed.Some? {
        return Err(TransitionPhaseInvalid);
      }
      t := t.(forkAttempts := 2, forkRequestedAt := Some(now), updatedAt := now);
      document.activeTransition := Some(t);
      r := SaveTransition(document, t);
    }

    method ObserveHandoffTarget(id: Uuid, target: HandoffTarget, now: nat)
      returns (r: Result<HandoffTransition, ConversationError>)
      requires Valid()
      modifies this
      ensures Valid() && Committed(old(stored), ObserveTarget(Migrate(old(stored)), id, target, now), stored, r)
    {
      if target.codexVersion != CODEX_VERSION {
        return Err(SessionSchemaUnsupported);
      }
      if !ValidRollout(target.rollout) {
        return Err(RegistryInvalid);
      }
      var document := LoadV2();
      var exact := ExactTransition(document.Value(), id, ForkRequested);
      if exact.Err? {
        return Err(exact.error);
      }
      var t := exact.value;
      if target.cwd != t.cwd || SameRolloutFile(target.rollout, t.sourceRollout) {
        return Err(RegistryInvalid);
      }
      var k := FindConversation(document.conversations, t.conversationId);
      if k == |document.conversations| {
        return Err(RegistryInvalid);
      }
      var source := FindGeneration(document.conversations[k].generations, t.sourceGeneration);
      if source == |document.conversations[k].generations| {
        return Err(RegistryInvalid);
      }
      if target.threadId == document.conversations[k].generations[source].threadId
         || ThreadBound(document.conversations, target.threadId)
      {
        return Err(RegistryInvalid);
      }
      var observed := ObservedTarget(target.threadId, target.cwd, target.codexVersion, ADAPTER_VERSION,
                                     target.rollout, now);
      t := t.(observed := Some(observed), phase := ForkObserved, updatedAt := now);
      document.activeTransition := Some(t);
      r := SaveTransition(document, t);
    }

    method CommitHandoff(id: Uuid, now: nat) returns (r: Result<HeadBinding, ConversationError>)
      requires Valid()
      modifies this
      ensures Valid() && Committed(old(stored), Edits.CommitHandoff(Migrate(old(stored)), id, now), stored, r)
    {
      var document := LoadV2();
      var exact := ExactTransition(document.Value(), id, ForkObserved);
      if exact.Err? {
        return Err(exact.error);
      }
      var t := exact.value;
      if t.observed.None? {
        return Err(RegistryInvalid);
      }
      var o := t.observed.value;
      if ThreadBound(document.conversations, o.threadId) {
        return Err(RegistryInvalid);
      }
      var k := FindConversation(document.conversations, t.conversationId);
      if k == |document.conversations| {
        return Err(NotFound);
      }
      var c := document.conversations[k];
      if c.activeGeneration != t.sourceGeneration || |c.generations| >= MAX_LINEAGE_GENERATIONS {
        return Err(TransitionPhaseInvalid);
      }
      c := c.(generations := c.generations + [TargetGeneration(t, o)]);
      c := c.(activeGeneration := t.targetGeneration, lifecycle := Interrupted);
      document.conversations := document.conversations[k := c];
      var h := FindHead(document.workspaceHeads, c.provider, t.cwd);
      if h == |document.workspaceHeads| {
        return Err(RegistryInvalid);
      }
      var head := document.workspaceHeads[h];
      if !head.state.Ready? || head.conversationId != Some(t.conversationId)
         || head.generation != Some(t.sourceGeneration)
      {
        return Err(TransitionPhaseInvalid);
      }
      document.workspaceHeads := document.workspaceHeads[h := head.(generation := Some(t.targetGeneration))];
      document.activeTransition := Some(t.(phase := CommittedUnattached, updatedAt := now));
      var saved := SaveDocument(document);
      if saved.Err? {
        return Err(saved.error);
      }
      return Ok(HeadBinding(t.conversationId, t.targetGeneration, t.targetProfileId, o.threadId, o.cwd,
                            o.codexVersion, Interrupted));
    }

    method FinishHandoffAttachment(id: Uuid) returns (r: Result<HeadBinding, ConversationError>)
      requires Valid()
      modifies this
      ensures Valid() && Committed(old(stored), FinishAttachment(Migrate(old(stored)), id), stored, r)
    {
      var document := LoadV2();
      var exact := ExactTransition(document.Value(), id, CommittedUnattached);
      if exact.Err? {
        return Err(exact.error);
      }
      document.activeTransition := None;
      r := ResolveHead(document.Value(), exact.value.cwd);
      if r.Ok? {
        var saved := SaveDocument(document);
        if saved.Err? {
          return Err(saved.error);
        }
      }
    }
  }
}
