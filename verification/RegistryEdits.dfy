/** What each registry operation does to a loaded document: its edit, its reply or its error. */
module RegistryEdits {
  import opened Prelude
  import Sorting
  import opened ConversationModel

  /** An edit either fails or yields the edited document with the operation's reply. */
  type Edit<+T> = Result<(Document, T), ConversationError>

  datatype LaunchResolution = Bind(binding: BindingInput) | NoThread | Unclear

  // ---- shared edits ---------------------------------------------------------------------------

  function BareHead(cwd: Cwd): WorkspaceHead {
    WorkspaceHead(Codex, cwd, NeedsSelection, None, None)
  }

  function MarkHead(d: Document, cwd: Cwd): Document {
    var k := FindHead(d.workspaceHeads, Codex, cwd);
    if k < |d.workspaceHeads|
    then d.(workspaceHeads := d.workspaceHeads[k := d.workspaceHeads[k].(state := NeedsSelection)])
    else d.(workspaceHeads := d.workspaceHeads + [BareHead(cwd)])
  }

  /** Keeps every head except the Codex heads of this directory, in order. */
  function OtherHeads(hs: seq<WorkspaceHead>, cwd: Cwd): (r: seq<WorkspaceHead>)
  {
    if hs == [] then []
    else if hs[0].provider == Codex && hs[0].cwd == cwd then OtherHeads(hs[1..], cwd)
    else [hs[0]] + OtherHeads(hs[1..], cwd)
  }

  function ReadyHead(cwd: Cwd, conversation: Uuid, generation: nat): WorkspaceHead {
    WorkspaceHead(Codex, cwd, Ready, Some(conversation), Some(generation))
  }

  function CheckBindingInput(b: BindingInput): Option<ConversationError> {
    if b.codexVersion != CODEX_VERSION then Some(SessionSchemaUnsupported)
    else if !Usable(b.lifecycle) then Some(RegistryInvalid)
    else None
  }

  function FreshConversation(b: BindingInput, id: Uuid, now: int): Conversation {
    Conversation(id, Codex,
                 [Generation(0, b.profileId, b.threadId, b.cwd, b.codexVersion, ADAPTER_VERSION, now, None, None)],
                 0, b.lifecycle)
  }

  function BindDocument(d: Document, b: BindingInput, freshId: Uuid, now: int): Edit<HeadBinding> {
    if CheckBindingInput(b).Some? then Err(CheckBindingInput(b).value)
    else if Transitioning(d, b.cwd) then Err(TransitionBusy)
    else if BoundElsewhere(d.conversations, b.profileId, b.threadId) then Err(ProfileMismatch)
    else
      var k := FindOwner(d.conversations, b.profileId, b.threadId);
      if k < |d.conversations| then
        var c := d.conversations[k];
        var g := c.generations[FindBound(c.generations, b.profileId, b.threadId)];
        if g.number != c.activeGeneration then Err(ConversationError.Ambiguous)
        else if g.cwd != b.cwd then Err(CwdMismatch)
        else Ok(InstallHead(d.(conversations := d.conversations[k := c.(lifecycle := b.lifecycle)]),
                            b, c.conversationId, g.number))
      else
        Ok(InstallHead(d.(conversations := d.conversations + [FreshConversation(b, freshId, now)]),
                       b, freshId, 0))
  }

  function InstallHead(d: Document, b: BindingInput, conversation: Uuid, generation: nat)
    : (Document, HeadBinding)
  {
    (d.(workspaceHeads := OtherHeads(d.workspaceHeads, b.cwd) + [ReadyHead(b.cwd, conversation, generation)]),
     HeadBinding(conversation, generation, b.profileId, b.threadId, b.cwd, b.codexVersion, b.lifecycle))
  }

  function ResolveHead(d: Document, cwd: Cwd): Result<HeadBinding, ConversationError> {
    if Transitioning(d, cwd) then Err(TransitionBusy)
    else if PendingAt(d.pendingLaunches, cwd) then Err(ConversationError.Ambiguous)
    else
      var k := FindHead(d.workspaceHeads, Codex, cwd);
      if k == |d.workspaceHeads| then Err(NotFound)
      else if d.workspaceHeads[k].state != Ready then Err(ConversationError.Ambiguous)
      else HeadTarget(d.conversations, d.workspaceHeads[k])
  }

  /** The binding a ready head stands for. */
  function HeadTarget(cs: seq<Conversation>, h: WorkspaceHead): Result<HeadBinding, ConversationError> {
    if h.conversationId.None? || h.generation.None? then Err(RegistryInvalid)
    else
      var c := FindConversation(cs, h.conversationId.value);
      if c == |cs| then Err(RegistryInvalid)
      else
        var g := FindGeneration(cs[c].generations, h.generation.value);
        if g == |cs[c].generations| then Err(RegistryInvalid)
        else Ok(BindingOf(cs[c], cs[c].generations[g]))
  }

  function BindingOf(c: Conversation, g: Generation): HeadBinding {
    HeadBinding(c.conversationId, g.number, g.profileId, g.threadId, g.cwd, g.codexVersion, c.lifecycle)
  }

  // ---- launches -------------------------------------------------------------------------------

  const ByThread := (a: InventoryThread, b: InventoryThread) => a.threadId <= b.threadId

  function NormalizeInventory(inv: seq<InventoryThread>): Result<seq<InventoryThread>, ConversationError> {
    if |inv| > MAX_INVENTORY_THREADS then Err(RegistryInvalid)
    else
      var sorted := Sorting.Sort(inv, ByThread);
      if CanonicalInventory(sorted) then Ok(sorted) else Err(RegistryInvalid)
  }

  /** The ownership record of a tracked launch, or why its inputs are refused. */
  function TrackedLaunch(profile: Uuid, cwd: Cwd, mode: LaunchMode, version: string,
                         inventory: seq<InventoryThread>, id: Uuid, now: int)
    : Result<PendingLaunch, ConversationError>
  {
    if mode.Untracked() then Err(RegistryInvalid)
    else if version != CODEX_VERSION then Err(SessionSchemaUnsupported)
    else match NormalizeInventory(inventory)
      case Err(e) => Err(e)
      case Ok(canonical) => Ok(PendingLaunch(id, profile, cwd, mode, Some(version), ADAPTER_VERSION, canonical,
                                             PendingPhase.Prepared, now))
  }

  function UntrackedLaunch(profile: Uuid, cwd: Cwd, mode: LaunchMode, id: Uuid, now: int)
    : Result<PendingLaunch, ConversationError>
  {
    if !mode.Untracked() then Err(RegistryInvalid)
    else Ok(PendingLaunch(id, profile, cwd, mode, None, ADAPTER_VERSION, [], PendingPhase.Prepared, now))
  }

  /** The reply says whether another launch already owned the directory. */
  function BeginLaunch(d: Document, launch: PendingLaunch): Edit<bool> {
    if Transitioning(d, launch.cwd) then Err(TransitionBusy)
    else if exists i :: 0 <= i < |d.pendingLaunches| && d.pendingLaunches[i].cwd == launch.cwd
                        && d.pendingLaunches[i].launchId != launch.launchId
    then Ok((MarkHead(d, launch.cwd), true))
    else Ok((d.(pendingLaunches := d.pendingLaunches + [launch]), false))
  }

  function SetPhase(d: Document, id: Uuid, phase: PendingPhase): Edit<()> {
    var k := FindLaunch(d.pendingLaunches, id);
    if k == |d.pendingLaunches| then Err(NotFound)
    else Ok((d.(pendingLaunches := d.pendingLaunches[k := d.pendingLaunches[k].(phase := phase)]), ()))
  }

  predicate HeadNeedsSelection(hs: seq<WorkspaceHead>, cwd: Cwd) {
    exists i :: 0 <= i < |hs| && hs[i].cwd == cwd && hs[i].state == NeedsSelection
  }

  function FinishLaunch(d: Document, id: Uuid, r: LaunchResolution, freshId: Uuid, now: nat)
    : Edit<Option<HeadBinding>>
  {
    var k := FindLaunch(d.pendingLaunches, id);
    if k == |d.pendingLaunches| then Err(NotFound)
    else
      var p := d.pendingLaunches[k];
      var rest := d.(pendingLaunches := d.pendingLaunches[..k] + d.pendingLaunches[k + 1..]);
      if p.mode.Untracked() then Ok((MarkHead(rest, p.cwd), None))
      else if HeadNeedsSelection(d.workspaceHeads, p.cwd) then Ok((rest, None))
      else match r
        case NoThread => Ok((rest, None))
        case Unclear => Ok((MarkHead(rest, p.cwd), None))
        case Bind(b) =>
          if b.profileId != p.profileId || b.cwd != p.cwd || p.codexVersion != Some(b.codexVersion)
          then Ok((MarkHead(rest, p.cwd), None))
          else match BindDocument(rest, b, freshId, now)
            case Err(e) => Err(e)
            case Ok((bound, head)) => Ok((bound, Some(head)))
  }

  function Adopt(d: Document, b: BindingInput, freshId: Uuid, now: int): Edit<HeadBinding> {
    if CheckBindingInput(b).Some? then Err(CheckBindingInput(b).value)
    else if Transitioning(d, b.cwd) then Err(TransitionBusy)
    else if PendingAt(d.pendingLaunches, b.cwd) then Err(ConversationError.Ambiguous)
    else BindDocument(d, b, freshId, now)
  }

  function RefreshAdopted(d: Document, expected: HeadBinding, b: BindingInput, freshId: Uuid, now: nat)
    : Edit<HeadBinding>
  {
    if CheckBindingInput(b).Some? then Err(CheckBindingInput(b).value)
    else if expected.profileId != b.profileId || expected.threadId != b.threadId || expected.cwd != b.cwd
            || expected.codexVersion != b.codexVersion
    then Err(ConversationError.Ambiguous)
    else match ResolveHead(d, b.cwd)
    case Err(e) => Err(e)
    case Ok(current) =>
      if current.conversationId != expected.conversationId || current.generation != expected.generation
         || current.profileId != expected.profileId || current.threadId != expected.threadId
         || current.codexVersion != expected.codexVersion
      then Err(ConversationError.Ambiguous)
      else BindDocument(d, b, freshId, now)
  }

  function MarkWorkspaceAmbiguous(d: Document, cwd: Cwd): Edit<()> {
    if Transitioning(d, cwd) then Err(TransitionBusy) else Ok((MarkHead(d, cwd), ()))
  }

  function PrepareUntracked(d: Document, launch: PendingLaunch): Edit<()> {
    if Transitioning(d, launch.cwd) then Err(TransitionBusy)
    else if PendingAt(d.pendingLaunches, launch.cwd) then Err(ConversationError.Ambiguous)
    else
      var marked := MarkHead(d, launch.cwd);
      Ok((marked.(pendingLaunches := marked.pendingLaunches + [launch]), ()))
  }

  // ---- handoff --------------------------------------------------------------------------------

  function CheckPreparation(p: HandoffPreparation): Option<ConversationError> {
    if p.expectedSource.codexVersion != CODEX_VERSION then Some(SessionSchemaUnsupported)
    else if !ValidRollout(p.sourceRollout) || p.reason == UnknownLegacy
            || p.expectedSource.profileId == p.targetProfileId then Some(RegistryInvalid)
    else None
  }

  function PrepareHandoff(d: Document, p: HandoffPreparation, transitionId: Uuid, now: int)
    : Edit<HandoffTransition>
  {
    var e := p.expectedSource;
    if CheckPreparation(p).Some? then Err(CheckPreparation(p).value)
    else if d.activeTransition.Some? then Err(TransitionBusy)
    else if PendingAt(d.pendingLaunches, e.cwd) then Err(ConversationError.Ambiguous)
    else match ResolveHead(d, e.cwd)
      case Err(x) => Err(x)
      case Ok(current) =>
        var k := FindConversation(d.conversations, e.conversationId);
        if current != e then Err(ConversationError.Ambiguous)
        else if k == |d.conversations| then Err(NotFound)
        else PrepareOn(d, k, p, transitionId, now)
  }

  function PrepareOn(d: Document, k: nat, p: HandoffPreparation, transitionId: Uuid, now: int)
    : Edit<HandoffTransition>
    requires k < |d.conversations|
  {
    var c := d.conversations[k];
    var e := p.expectedSource;
    var g := FindGeneration(c.generations, c.activeGeneration);
    if c.activeGeneration != e.generation then Err(ConversationError.Ambiguous)
    else if g == |c.generations| then Err(RegistryInvalid)
    else
      var s := c.generations[g];
      if s.profileId != e.profileId || s.threadId != e.threadId || s.cwd != e.cwd
      then Err(ConversationError.Ambiguous)
      else if !(s.trustDomainId.None? && s.rollout.None?) &&
              !(s.trustDomainId == Some(p.trustDomainId) && s.rollout == Some(p.sourceRollout))
      then Err(RegistryInvalid)
      else if s.number + 1 > U32_MAX then Err(RegistryInvalid)
      else
        var stamped := s.(trustDomainId := Some(p.trustDomainId), rollout := Some(p.sourceRollout));
        var t := NewTransition(c.conversationId, s, p, transitionId, now);
        Ok((d.(conversations := d.conversations[k := c.(generations := c.generations[g := stamped])],
               activeTransition := Some(t)), t))
  }

  function NewTransition(conversation: Uuid, s: Generation, p: HandoffPreparation, id: Uuid, now: int)
    : HandoffTransition
  {
    HandoffTransition(id, conversation, s.number, s.number + 1, s.profileId, p.targetProfileId, s.cwd,
                      p.trustDomainId, p.reason, p.sourceRollout, HandoffPhase.Prepared, [], 0, None, None,
                      now, now)
  }

  /** The active transition, when it has this id and this phase. */
  function ExactTransition(d: Document, id: Uuid, phase: HandoffPhase)
    : Result<HandoffTransition, ConversationError>
  {
    if d.activeTransition.None? || d.activeTransition.value.transitionId != id then Err(NotFound)
    else if d.activeTransition.value.phase != phase then Err(TransitionPhaseInvalid)
    else Ok(d.activeTransition.value)
  }

  function SetTransition(d: Document, t: HandoffTransition): Edit<HandoffTransition> {
    Ok((d.(activeTransition := Some(t)), t))
  }

  function AdvancePhase(d: Document, id: Uuid, from: HandoffPhase, next: HandoffPhase, now: int)
    : Edit<HandoffTransition>
  {
    match ExactTransition(d, id, from)
    case Err(e) => Err(e)
    case Ok(t) => SetTransition(d, t.(phase := next, updatedAt := now))
  }

  function RecordForkIntent(d: Document, id: Uuid, baseline: seq<Uuid>, now: int): Edit<HandoffTransition> {
    if !CanonicalBaseline(baseline) then Err(RegistryInvalid)
    else match ExactTransition(d, id, SourceStopped)
    case Err(e) => Err(e)
    case Ok(t) =>
      if t.forkAttempts != 0 || t.forkRequestedAt.Some? || t.baseline != [] then Err(TransitionPhaseInvalid)
      else SetTransition(d, t.(phase := ForkRequested, baseline := baseline, forkAttempts := 1,
                               forkRequestedAt := Some(now), updatedAt := now))
  }

  function RecordForkRetry(d: Document, id: Uuid, now: int): Edit<HandoffTransition> {
    match ExactTransition(d, id, ForkRequested)
    case Err(e) => Err(e)
    case Ok(t) =>
      if t.forkAttempts != 1 || t.forkRequestedAt.None? || t.observed.Some? then Err(TransitionPhaseInvalid)
      else SetTransition(d, t.(forkAttempts := 2, forkRequestedAt := Some(now), updatedAt := now))
  }

  function ObserveTarget(d: Document, id: Uuid, target: HandoffTarget, now: int): Edit<HandoffTransition> {
    if target.codexVersion != CODEX_VERSION then Err(SessionSchemaUnsupported)
    else if !ValidRollout(target.rollout) then Err(RegistryInvalid)
    else match ExactTransition(d, id, ForkRequested)
    case Err(e) => Err(e)
    case Ok(t) =>
      var k := FindConversation(d.conversations, t.conversationId);
      if target.cwd != t.cwd || SameRolloutFile(target.rollout, t.sourceRollout) then Err(RegistryInvalid)
      else if k == |d.conversations| then Err(RegistryInvalid)
      else if FindGeneration(d.conversations[k].generations, t.sourceGeneration)
              == |d.conversations[k].generations| then Err(RegistryInvalid)
      else if ThreadBound(d.conversations, target.threadId) then Err(RegistryInvalid)
      else SetTransition(d, t.(observed := Some(ObservedTarget(target.threadId, target.cwd, target.codexVersion,
                                                               ADAPTER_VERSION, target.rollout, now)),
                               phase := ForkObserved, updatedAt := now))
  }

  function TargetGeneration(t: HandoffTransition, o: ObservedTarget): Generation {
    Generation(t.targetGeneration, t.targetProfileId, o.threadId, o.cwd, o.codexVersion, o.adapterVersion,
               o.observedAt, Some(t.trustDomainId), Some(o.rollout))
  }

  function CommitHandoff(d: Document, id: Uuid, now: int): Edit<HeadBinding> {
    match ExactTransition(d, id, ForkObserved)
    case Err(e) => Err(e)
    case Ok(t) =>
      if t.observed.None? then Err(RegistryInvalid)
      else if ThreadBound(d.conversations, t.observed.value.threadId) then Err(RegistryInvalid)
      else
        var k := FindConversation(d.conversations, t.conversationId);
        if k == |d.conversations| then Err(NotFound)
        else if d.conversations[k].activeGeneration != t.sourceGeneration
                || |d.conversations[k].generations| >= MAX_LINEAGE_GENERATIONS then Err(TransitionPhaseInvalid)
        else CommitOn(d, k, t, t.observed.value, now)
  }

  function CommitOn(d: Document, k: nat, t: HandoffTransition, o: ObservedTarget, now: int): Edit<HeadBinding>
    requires k < |d.conversations|
  {
    var c := d.conversations[k];
    var h := FindHead(d.workspaceHeads, c.provider, t.cwd);
    if h == |d.workspaceHeads| then Err(RegistryInvalid)
    else if !CommitHeadCheck(d.workspaceHeads[h], t) then Err(TransitionPhaseInvalid)
    else
      var grown := c.(generations := c.generations + [TargetGeneration(t, o)],
                      activeGeneration := t.targetGeneration, lifecycle := Interrupted);
      Ok((d.(conversations := d.conversations[k := grown],
             workspaceHeads := d.workspaceHeads[h := d.workspaceHeads[h].(generation := Some(t.targetGeneration))],
             activeTransition := Some(t.(phase := CommittedUnattached, updatedAt := now))),
          HeadBinding(t.conversationId, t.targetGeneration, t.targetProfileId, o.threadId, o.cwd,
                      o.codexVersion, Interrupted)))
  }

  predicate CommitHeadCheck(h: WorkspaceHead, t: HandoffTransition) {
    h.state.Ready? && h.conversationId == Some(t.conversationId) && h.generation == Some(t.sourceGeneration)
  }

  function FinishAttachment(d: Document, id: Uuid): Edit<HeadBinding> {
    match ExactTransition(d, id, CommittedUnattached)
    case Err(e) => Err(e)
    case Ok(t) =>
      var cleared := d.(activeTransition := None);
      match ResolveHead(cleared, t.cwd)
      case Err(e) => Err(e)
      case Ok(head) => Ok((cleared, head))
  }

  // ---- reads ----------------------------------------------------------------------------------

  function FirstPending(ps: seq<PendingLaunch>, profile: Uuid, cwd: Cwd): (k: nat)
    ensures k <= |ps|
    ensures k < |ps| ==> ps[k].profileId == profile && ps[k].cwd == cwd
    ensures forall i :: 0 <= i < k ==> !(ps[i].profileId == profile && ps[i].cwd == cwd)
  {
    if ps == [] then 0
    else if ps[0].profileId == profile && ps[0].cwd == cwd then 0
    else 1 + FirstPending(ps[1..], profile, cwd)
  }

  /** The launch this profile owns in this directory; two of them are ambiguous. */
  function PendingFor(d: Document, profile: Uuid, cwd: Cwd): Result<Option<PendingLaunch>, ConversationError> {
    var ps := d.pendingLaunches;
    var k := FirstPending(ps, profile, cwd);
    if k == |ps| then Ok(None)
    else if FirstPending(ps[k + 1..], profile, cwd) < |ps| - k - 1 then Err(ConversationError.Ambiguous)
    else Ok(Some(ps[k]))
  }

  function FirstUntracked(ps: seq<PendingLaunch>, cwd: Cwd): (k: nat)
    ensures k <= |ps|
    ensures k < |ps| ==> ps[k].cwd == cwd && ps[k].mode.Untracked()
    ensures forall i :: 0 <= i < k ==> !(ps[i].cwd == cwd && ps[i].mode.Untracked())
  {
    if ps == [] then 0
    else if ps[0].cwd == cwd && ps[0].mode.Untracked() then 0
    else 1 + FirstUntracked(ps[1..], cwd)
  }

  function UntrackedFor(d: Document, cwd: Cwd): Option<PendingLaunch> {
    var k := FirstUntracked(d.pendingLaunches, cwd);
    if k < |d.pendingLaunches| then Some(d.pendingLaunches[k]) else None
  }

  function FirstBinding(gs: seq<Generation>, profile: Uuid, thread: Uuid, cwd: Cwd): (k: nat)
    ensures k <= |gs|
    ensures k < |gs| ==> gs[k].profileId == profile && gs[k].threadId == thread && gs[k].cwd == cwd
    ensures forall i :: 0 <= i < k ==> !(gs[i].profileId == profile && gs[i].threadId == thread && gs[i].cwd == cwd)
  {
    if gs == [] then 0
    else if gs[0].profileId == profile && gs[0].threadId == thread && gs[0].cwd == cwd then 0
    else 1 + FirstBinding(gs[1..], profile, thread, cwd)
  }

  /** The exact binding of a named thread, whatever its workspace head says. */
  function FindBoundThread(cs: seq<Conversation>, profile: Uuid, thread: Uuid, cwd: Cwd): Option<HeadBinding> {
    if cs == [] then None
    else
      var g := FirstBinding(cs[0].generations, profile, thread, cwd);
      if g < |cs[0].generations| then Some(BindingOf(cs[0], cs[0].generations[g]))
      else FindBoundThread(cs[1..], profile, thread, cwd)
  }

  // ---- transactions ---------------------------------------------------------------------------

  /** Moves a schema 1 document to schema 2, recording the digest of what it replaces. */
  function Migrate(d: Document): Document {
    if d.schemaVersion == 1
    then d.(schemaVersion := 2, preMigrationBackup := Some(PreMigrationBackup(1, d.revision, Sha256(d))))
    else d
  }

  /** The document a transaction writes: one revision on, and refused unless the validator takes it. */
  ghost function Save(d: Document): Result<Document, ConversationError> {
    var next := d.(revision := d.revision + 1);
    if next.revision > U64_MAX || !ValidDocument(next) then Err(RegistryInvalid) else Ok(next)
  }

  /** What is stored after a transaction, and what its caller receives. */
  ghost function Transact<T>(d: Document, edit: Edit<T>): (Document, Result<T, ConversationError>) {
    match edit
    case Err(e) => (d, Err(e))
    case Ok((edited, reply)) =>
      match Save(edited)
      case Err(e) => (d, Err(e))
      case Ok(stored) => (stored, Ok(reply))
  }

  ghost predicate Committed<T>(before: Document, edit: Edit<T>, after: Document, r: Result<T, ConversationError>) {
    (after, r) == Transact(before, edit)
  }

  // ---- one type for every writing operation ---------------------------------------------------

  datatype Op =
    | OpBeginLaunch(profile: Uuid, cwd: Cwd, mode: LaunchMode, version: string,
                    inventory: seq<InventoryThread>, freshId: Uuid, now: nat)
    | OpProviderStarted(id: Uuid)
    | OpCaptureFailed(id: Uuid)
    | OpFinishLaunch(id: Uuid, resolution: LaunchResolution, freshId: Uuid, now: nat)
    | OpAdopt(binding: BindingInput, freshId: Uuid, now: nat)
    | OpRefresh(expected: HeadBinding, binding: BindingInput, freshId: Uuid, now: nat)
    | OpMarkAmbiguous(cwd: Cwd)
    | OpPrepareUntracked(profile: Uuid, cwd: Cwd, mode: LaunchMode, freshId: Uuid, now: nat)
    | OpPrepareHandoff(preparation: HandoffPreparation, id: Uuid, now: nat)
    | OpStopRequested(id: Uuid, now: nat)
    | OpStopped(id: Uuid, now: nat)
    | OpForkIntent(id: Uuid, baseline: seq<Uuid>, now: nat)
    | OpForkRetry(id: Uuid, now: nat)
    | OpObserve(id: Uuid, target: HandoffTarget, now: nat)
    | OpCommit(id: Uuid, now: nat)
    | OpAttach(id: Uuid)

  /** The operations that open a schema 2 transaction. */
  predicate IsHandoffOp(op: Op) {
    op.OpPrepareHandoff? || op.OpStopRequested? || op.OpStopped? || op.OpForkIntent? || op.OpForkRetry?
    || op.OpObserve? || op.OpCommit? || op.OpAttach?
  }

  function DropReply<T>(e: Edit<T>): Result<Document, ConversationError> {
    match e
    case Err(x) => Err(x)
    case Ok((d, _)) => Ok(d)
  }

  function EditOf(d: Document, op: Op): Result<Document, ConversationError> {
    match op
    case OpBeginLaunch(profile, cwd, mode, version, inventory, newId, now) =>
      (match TrackedLaunch(profile, cwd, mode, version, inventory, newId, now)
       case Err(e) => Err(e)
       case Ok(launch) => DropReply(BeginLaunch(d, launch)))
    case OpProviderStarted(id) => DropReply(SetPhase(d, id, ProviderStarted))
    case OpCaptureFailed(id) => DropReply(SetPhase(d, id, CaptureFailed))
    case OpFinishLaunch(id, r, newId, now) => DropReply(FinishLaunch(d, id, r, newId, now))
    case OpAdopt(b, newId, now) => DropReply(Adopt(d, b, newId, now))
    case OpRefresh(x, b, newId, now) => DropReply(RefreshAdopted(d, x, b, newId, now))
    case OpMarkAmbiguous(cwd) => DropReply(MarkWorkspaceAmbiguous(d, cwd))
    case OpPrepareUntracked(profile, cwd, mode, newId, now) =>
      (match UntrackedLaunch(profile, cwd, mode, newId, now)
       case Err(e) => Err(e)
       case Ok(launch) => DropReply(PrepareUntracked(d, launch)))
    case OpPrepareHandoff(p, id, now) => DropReply(PrepareHandoff(Migrate(d), p, id, now))
    case OpStopRequested(id, now) =>
      DropReply(AdvancePhase(Migrate(d), id, HandoffPhase.Prepared, SourceStopRequested, now))
    case OpStopped(id, now) => DropReply(AdvancePhase(Migrate(d), id, SourceStopRequested, SourceStopped, now))
    case OpForkIntent(id, baseline, now) => DropReply(RecordForkIntent(Migrate(d), id, baseline, now))
    case OpForkRetry(id, now) => DropReply(RecordForkRetry(Migrate(d), id, now))
    case OpObserve(id, target, now) => DropReply(ObserveTarget(Migrate(d), id, target, now))
    case OpCommit(id, now) => DropReply(CommitHandoff(Migrate(d), id, now))
    case OpAttach(id) => DropReply(FinishAttachment(Migrate(d), id))
  }

  /** The stored document after one operation: unchanged when the operation fails. */
  ghost function Next(d: Document, op: Op): Document {
    match EditOf(d, op)
    case Err(_) => d
    case Ok(edited) => match Save(edited) case Err(_) => d case Ok(stored) => stored
  }

  ghost function RunOps(d: Document, ops: seq<Op>): Document
    decreases |ops|
  {
    if ops == [] then d else RunOps(Next(d, ops[0]), ops[1..])
  }
}
