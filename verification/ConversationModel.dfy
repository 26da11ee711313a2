/** The conversation registry document and the invariant its validator enforces. */
module ConversationModel {
  import opened Prelude
  import Slashes

  // Identifiers and canonical directories are opaque; only their order and equality matter.
  type Uuid = nat
  type Cwd = nat

  const CODEX_VERSION := "0.144.4"
  const MAX_INVENTORY_THREADS := 1600
  const MAX_LINEAGE_GENERATIONS := 256
  const MAX_ROLLOUT_RELATIVE_BYTES := 512
  const MAX_ROLLOUT_COMPONENTS := 8
  const MAX_ROLLOUT_BYTES := 64 * 1024 * 1024

  datatype ConversationError =
    | NotFound | Ambiguous | ProfileMismatch | CwdMismatch | RolloutMissing | Archived
    | RegistryInvalid | CommitUncertain | TransitionBusy | TransitionPhaseInvalid
    | CodexVersionUnsupported | SessionSchemaUnsupported | ThreadProtocolInvalid
    | ThreadMetadataUnavailable

  datatype Lifecycle = Clean | Interrupted | UnknownCrash | Missing | Archived | Incompatible | Ambiguous

  predicate Usable(l: Lifecycle) {
    l.Clean? || l.Interrupted? || l.UnknownCrash?
  }

  datatype LaunchMode = Run | ResumeLast | RunUntracked | ResumeLastUntracked {
    predicate Untracked() { RunUntracked? || ResumeLastUntracked? }
  }

  datatype PendingPhase = Prepared | ProviderStarted | CaptureFailed

  datatype InventoryThread = InventoryThread(
    threadId: Uuid, updatedAt: int, recencyAt: Option<int>, archived: bool,
    rolloutDevice: nat, rolloutInode: nat, rolloutLength: nat,
    modifiedSeconds: int, modifiedNanoseconds: int, changedSeconds: int, changedNanoseconds: int)

  datatype PendingLaunch = PendingLaunch(
    launchId: Uuid, profileId: Uuid, cwd: Cwd, mode: LaunchMode, codexVersion: Option<string>,
    adapterVersion: string, preInventory: seq<InventoryThread>, phase: PendingPhase, startedAt: int)

  datatype BindingInput = BindingInput(
    profileId: Uuid, threadId: Uuid, cwd: Cwd, codexVersion: string, lifecycle: Lifecycle)

  datatype HeadBinding = HeadBinding(
    conversationId: Uuid, generation: nat, profileId: Uuid, threadId: Uuid, cwd: Cwd,
    codexVersion: string, lifecycle: Lifecycle)

  datatype RolloutRoot = Sessions | ArchivedSessions

  datatype RolloutFingerprint = RolloutFingerprint(
    device: nat, inode: nat, length: nat, mode: nat, owner: nat, linkCount: nat,
    modifiedSeconds: int, modifiedNanoseconds: int, changedSeconds: int, changedNanoseconds: int,
    sha256: string)

  datatype GenerationRollout = GenerationRollout(
    root: RolloutRoot, relativePath: string, fingerprint: RolloutFingerprint)

  datatype HandoffPhase =
    | Prepared | SourceStopRequested | SourceStopped | ForkRequested | ForkObserved | CommittedUnattached

  datatype HandoffReason = ConfirmedUsageExhaustion | ExplicitRecovery | UnknownLegacy

  datatype HandoffPreparation = HandoffPreparation(
    expectedSource: HeadBinding, targetProfileId: Uuid, trustDomainId: Uuid,
    reason: HandoffReason, sourceRollout: GenerationRollout)

  datatype HandoffTarget = HandoffTarget(
    threadId: Uuid, cwd: Cwd, codexVersion: string, rollout: GenerationRollout)

  datatype ObservedTarget = ObservedTarget(
    threadId: Uuid, cwd: Cwd, codexVersion: string, adapterVersion: string,
    rollout: GenerationRollout, observedAt: int)

  datatype HandoffTransition = HandoffTransition(
    transitionId: Uuid, conversationId: Uuid, sourceGeneration: nat, targetGeneration: nat,
    sourceProfileId: Uuid, targetProfileId: Uuid, cwd: Cwd, trustDomainId: Uuid,
    reason: HandoffReason, sourceRollout: GenerationRollout, phase: HandoffPhase,
    baseline: seq<Uuid>, forkAttempts: nat, forkRequestedAt: Option<int>,
    observed: Option<ObservedTarget>, preparedAt: int, updatedAt: int)

  datatype Generation = Generation(
    number: nat, profileId: Uuid, threadId: Uuid, cwd: Cwd, codexVersion: string,
    adapterVersion: string, boundAt: int, trustDomainId: Option<Uuid>,
    rollout: Option<GenerationRollout>)

  datatype Conversation = Conversation(
    conversationId: Uuid, provider: Provider, generations: seq<Generation>,
    activeGeneration: nat, lifecycle: Lifecycle)

  datatype HeadState = Ready | NeedsSelection

  datatype WorkspaceHead = WorkspaceHead(
    provider: Provider, cwd: Cwd, state: HeadState, conversationId: Option<Uuid>,
    generation: Option<nat>)

  // The digest of a serialized document: injective, and always well formed.
  datatype Digest = Sha256(of: Document)

  datatype PreMigrationBackup = PreMigrationBackup(schemaVersion: nat, revision: nat, sha256: Digest)

  datatype Document = Document(
    schemaVersion: nat, revision: nat, conversations: seq<Conversation>,
    workspaceHeads: seq<WorkspaceHead>, pendingLaunches: seq<PendingLaunch>,
    preMigrationBackup: Option<PreMigrationBackup>, activeTransition: Option<HandoffTransition>)

  const EmptyDocument := Document(1, 0, [], [], [], None, None)

  // ---- searches -------------------------------------------------------------------------------

  /** The first conversation with this id, or the length when there is none. */
  function FindConversation(cs: seq<Conversation>, id: Uuid): (k: nat)
    ensures k <= |cs|
    ensures k < |cs| ==> cs[k].conversationId == id
    ensures forall i :: 0 <= i < k ==> cs[i].conversationId != id
  {
    if cs == [] then 0
    else if cs[0].conversationId == id then 0
    else 1 + FindConversation(cs[1..], id)
  }

  function FindGeneration(gs: seq<Generation>, n: nat): (k: nat)
    ensures k <= |gs|
    ensures k < |gs| ==> gs[k].number == n
    ensures forall i :: 0 <= i < k ==> gs[i].number != n
  {
    if gs == [] then 0
    else if gs[0].number == n then 0
    else 1 + FindGeneration(gs[1..], n)
  }

  /** The first generation of this profile and thread. */
  function FindBound(gs: seq<Generation>, profile: Uuid, thread: Uuid): (k: nat)
    ensures k <= |gs|
    ensures k < |gs| ==> gs[k].profileId == profile && gs[k].threadId == thread
    ensures forall i :: 0 <= i < k ==> !(gs[i].profileId == profile && gs[i].threadId == thread)
  {
    if gs == [] then 0
    else if gs[0].profileId == profile && gs[0].threadId == thread then 0
    else 1 + FindBound(gs[1..], profile, thread)
  }

  /** The first conversation holding a generation of this profile and thread. */
  function FindOwner(cs: seq<Conversation>, profile: Uuid, thread: Uuid): (k: nat)
    ensures k <= |cs|
    ensures k < |cs| ==> FindBound(cs[k].generations, profile, thread) < |cs[k].generations|
    ensures forall i :: 0 <= i < k ==>
                          FindBound(cs[i].generations, profile, thread) == |cs[i].generations|
  {
    if cs == [] then 0
    else if FindBound(cs[0].generations, profile, thread) < |cs[0].generations| then 0
    else 1 + FindOwner(cs[1..], profile, thread)
  }

  function FindHead(hs: seq<WorkspaceHead>, p: Provider, cwd: Cwd): (k: nat)
    ensures k <= |hs|
    ensures k < |hs| ==> hs[k].provider == p && hs[k].cwd == cwd
    ensures forall i :: 0 <= i < k ==> !(hs[i].provider == p && hs[i].cwd == cwd)
  {
    if hs == [] then 0
    else if hs[0].provider == p && hs[0].cwd == cwd then 0
    else 1 + FindHead(hs[1..], p, cwd)
  }

  function FindLaunch(ps: seq<PendingLaunch>, id: Uuid): (k: nat)
    ensures k <= |ps|
    ensures k < |ps| ==> ps[k].launchId == id
    ensures forall i :: 0 <= i < k ==> ps[i].launchId != id
  {
    if ps == [] then 0
    else if ps[0].launchId == id then 0
    else 1 + FindLaunch(ps[1..], id)
  }

  predicate PendingAt(ps: seq<PendingLaunch>, cwd: Cwd) {
    exists i :: 0 <= i < |ps| && ps[i].cwd == cwd
  }

  predicate HasThread(c: Conversation, thread: Uuid) {
    exists g :: 0 <= g < |c.generations| && c.generations[g].threadId == thread
  }

  predicate ThreadBound(cs: seq<Conversation>, thread: Uuid) {
    exists i :: 0 <= i < |cs| && HasThread(cs[i], thread)
  }

  predicate BoundElsewhere(cs: seq<Conversation>, profile: Uuid, thread: Uuid) {
    exists i, g :: 0 <= i < |cs| && 0 <= g < |cs[i].generations| &&
                   cs[i].generations[g].threadId == thread && cs[i].generations[g].profileId != profile
  }

  predicate Transitioning(d: Document, cwd: Cwd) {
    d.activeTransition.Some? && d.activeTransition.value.cwd == cwd
  }

  // ---- the validated invariant ----------------------------------------------------------------

  predicate AdapterVersionOk(v: string) {
    0 < |v| <= 64 && forall i :: 0 <= i < |v| ==> v[i] as int < 128
  }

  predicate PathCharacter(c: char) {
    'a' <= c <= 'z' || 'A' <= c <= 'Z' || '0' <= c <= '9' || c == '.' || c == '_' || c == '-'
  }

  predicate PathComponent(s: string) {
    s != "" && s != "." && s != ".." && forall i :: 0 <= i < |s| ==> PathCharacter(s[i])
  }

  predicate HexDigest(s: string) {
    |s| == 64 && forall i :: 0 <= i < |s| ==> '0' <= s[i] <= '9' || 'a' <= s[i] <= 'f'
  }

  predicate ValidRollout(r: GenerationRollout) {
    var parts := Slashes.Split(r.relativePath);
    var f := r.fingerprint;
    && 0 < |r.relativePath| <= MAX_ROLLOUT_RELATIVE_BYTES
    && |parts| <= MAX_ROLLOUT_COMPONENTS
    && (forall i :: 0 <= i < |parts| ==> PathComponent(parts[i]))
    && f.inode != 0 && f.length <= MAX_ROLLOUT_BYTES && f.linkCount == 1
    && f.modifiedSeconds >= 0 && f.changedSeconds >= 0
    && 0 <= f.modifiedNanoseconds < 1_000_000_000 && 0 <= f.changedNanoseconds < 1_000_000_000
    && HexDigest(f.sha256)
  }

  /** Two rollouts name one file exactly when device and inode agree. */
  predicate SameRolloutFile(a: GenerationRollout, b: GenerationRollout) {
    a.fingerprint.device == b.fingerprint.device && a.fingerprint.inode == b.fingerprint.inode
  }

  predicate ThreadRecordOk(t: InventoryThread) {
    && t.updatedAt >= 0 && (t.recencyAt.Some? ==> t.recencyAt.value >= 0)
    && t.rolloutLength <= MAX_ROLLOUT_BYTES
    && 0 <= t.modifiedNanoseconds < 1_000_000_000 && 0 <= t.changedNanoseconds < 1_000_000_000
  }

  predicate CanonicalInventory(inv: seq<InventoryThread>) {
    && |inv| <= MAX_INVENTORY_THREADS
    && (forall i :: 0 <= i < |inv| ==> ThreadRecordOk(inv[i]))
    && (forall i, j :: 0 <= i < j < |inv| ==> inv[i].threadId < inv[j].threadId)
  }

  predicate CanonicalBaseline(ids: seq<Uuid>) {
    && |ids| <= MAX_INVENTORY_THREADS
    && (forall i, j :: 0 <= i < j < |ids| ==> ids[i] < ids[j])
  }

  predicate ValidGeneration(c: Conversation, k: nat, v1: bool)
    requires k < |c.generations|
  {
    var g := c.generations[k];
    && g.number == k
    && g.codexVersion == CODEX_VERSION && AdapterVersionOk(g.adapterVersion) && g.boundAt >= 0
    && g.cwd == c.generations[0].cwd
    && (g.trustDomainId.Some? <==> g.rollout.Some?)
    && (g.rollout.Some? ==> !v1 && ValidRollout(g.rollout.value))
    && (!v1 && |c.generations| > 1 ==> g.rollout.Some?)
  }

  ghost predicate OneTrustDomain(gs: seq<Generation>) {
    forall i, j :: 0 <= i < |gs| && 0 <= j < |gs| && gs[i].trustDomainId.Some? && gs[j].trustDomainId.Some?
                   ==> gs[i].trustDomainId == gs[j].trustDomainId
  }

  ghost predicate ValidConversation(c: Conversation, v1: bool) {
    && c.provider == Codex
    && 1 <= |c.generations| <= MAX_LINEAGE_GENERATIONS
    && (v1 ==> |c.generations| == 1)
    && Usable(c.lifecycle)
    && c.activeGeneration == |c.generations| - 1
    && (forall k :: 0 <= k < |c.generations| ==> ValidGeneration(c, k, v1))
    && OneTrustDomain(c.generations)
  }

  ghost predicate DistinctIds(cs: seq<Conversation>) {
    forall i, j :: 0 <= i < j < |cs| ==> cs[i].conversationId != cs[j].conversationId
  }

  ghost predicate OwnThreadsDistinct(c: Conversation) {
    forall g, h :: 0 <= g < h < |c.generations| ==> c.generations[g].threadId != c.generations[h].threadId
  }

  ghost predicate ThreadsApart(c: Conversation, e: Conversation) {
    forall g :: 0 <= g < |c.generations| ==> !HasThread(e, c.generations[g].threadId)
  }

  /** No thread is bound twice, within one lineage or across lineages. */
  ghost predicate DistinctThreads(cs: seq<Conversation>) {
    && (forall i :: 0 <= i < |cs| ==> OwnThreadsDistinct(cs[i]))
    && (forall i, j :: 0 <= i < j < |cs| ==> ThreadsApart(cs[i], cs[j]))
  }

  ghost predicate ValidConversations(cs: seq<Conversation>, v1: bool) {
    && (forall i :: 0 <= i < |cs| ==> ValidConversation(cs[i], v1))
    && DistinctIds(cs)
    && DistinctThreads(cs)
  }

  /** A ready head names the active generation of a known conversation in its own directory. */
  ghost predicate ReadyHeadOk(cs: seq<Conversation>, h: WorkspaceHead) {
    && h.conversationId.Some? && h.generation.Some?
    && var k := FindConversation(cs, h.conversationId.value);
       && k < |cs|
       && cs[k].provider == h.provider
       && h.generation.value == cs[k].activeGeneration
       && cs[k].activeGeneration < |cs[k].generations|
       && cs[k].generations[cs[k].activeGeneration].cwd == h.cwd
  }

  ghost predicate ValidHead(cs: seq<Conversation>, h: WorkspaceHead) {
    match h.state
    case Ready => ReadyHeadOk(cs, h)
    case NeedsSelection => h.conversationId.Some? <==> h.generation.Some?
  }

  ghost predicate DistinctHeads(hs: seq<WorkspaceHead>) {
    forall i, j :: 0 <= i < j < |hs| ==> !(hs[i].provider == hs[j].provider && hs[i].cwd == hs[j].cwd)
  }

  ghost predicate ValidHeads(cs: seq<Conversation>, hs: seq<WorkspaceHead>) {
    && (forall i :: 0 <= i < |hs| ==> ValidHead(cs, hs[i]))
    && DistinctHeads(hs)
  }

  predicate ValidPending(p: PendingLaunch) {
    && AdapterVersionOk(p.adapterVersion) && p.startedAt >= 0
    && CanonicalInventory(p.preInventory)
    && (if p.mode.Untracked() then p.codexVersion.None? && p.preInventory == []
        else p.codexVersion == Some(CODEX_VERSION))
  }

  ghost predicate DistinctPendings(ps: seq<PendingLaunch>) {
    forall i, j :: 0 <= i < j < |ps| ==> ps[i].launchId != ps[j].launchId && ps[i].cwd != ps[j].cwd
  }

  ghost predicate ValidPendings(ps: seq<PendingLaunch>) {
    && (forall i :: 0 <= i < |ps| ==> ValidPending(ps[i]))
    && DistinctPendings(ps)
  }

  predicate ForkStarted(p: HandoffPhase) {
    p.ForkRequested? || p.ForkObserved? || p.CommittedUnattached?
  }

  predicate TargetObserved(p: HandoffPhase) {
    p.ForkObserved? || p.CommittedUnattached?
  }

  /** What a transition records about itself: profiles, generation numbers, clock and fork intent. */
  predicate TransitionIntentOk(t: HandoffTransition) {
    && ValidRollout(t.sourceRollout)
    && t.sourceProfileId != t.targetProfileId
    && t.targetGeneration == t.sourceGeneration + 1 && t.targetGeneration <= U32_MAX
    && 0 <= t.preparedAt <= t.updatedAt
    && CanonicalBaseline(t.baseline)
    && (if ForkStarted(t.phase)
        then t.forkRequestedAt.Some? && 1 <= t.forkAttempts <= 2
             && t.preparedAt <= t.forkRequestedAt.value <= t.updatedAt
        else t.forkAttempts == 0 && t.forkRequestedAt.None? && t.baseline == [])
  }

  predicate TransitionRecordOk(t: HandoffTransition) {
    TransitionIntentOk(t) && (t.observed.Some? <==> TargetObserved(t.phase))
  }

  predicate ObservedOk(t: HandoffTransition, sourceThread: Uuid)
    requires t.observed.Some?
  {
    var o := t.observed.value;
    && o.codexVersion == CODEX_VERSION && AdapterVersionOk(o.adapterVersion) && ValidRollout(o.rollout)
    && o.cwd == t.cwd && o.threadId != sourceThread
    && !SameRolloutFile(o.rollout, t.sourceRollout)
    && t.preparedAt <= o.observedAt <= t.updatedAt
    && (t.forkRequestedAt.Some? ==> t.forkRequestedAt.value <= o.observedAt)
  }

  function ExpectedActive(t: HandoffTransition): nat {
    if t.phase.CommittedUnattached? then t.targetGeneration else t.sourceGeneration
  }

  /** The lineage a transition works on: its source generation, and its target once committed. */
  predicate TransitionLineageOk(c: Conversation, t: HandoffTransition) {
    && t.sourceGeneration < |c.generations|
    && var s := c.generations[t.sourceGeneration];
       && s.profileId == t.sourceProfileId && s.cwd == t.cwd
       && s.trustDomainId == Some(t.trustDomainId) && s.rollout == Some(t.sourceRollout)
       && (t.observed.Some? ==> ObservedOk(t, s.threadId))
       && c.activeGeneration == ExpectedActive(t)
       && (if t.phase.CommittedUnattached?
           then t.observed.Some? && t.targetGeneration < |c.generations| &&
                CommittedTargetOk(c.generations[t.targetGeneration], t)
           else |c.generations| == t.targetGeneration)
  }

  predicate CommittedTargetOk(g: Generation, t: HandoffTransition)
    requires t.observed.Some?
  {
    var o := t.observed.value;
    && g.profileId == t.targetProfileId && g.threadId == o.threadId && g.cwd == o.cwd
    && g.codexVersion == o.codexVersion && g.adapterVersion == o.adapterVersion
    && g.trustDomainId == Some(t.trustDomainId) && g.rollout == Some(o.rollout)
  }

  /** The frozen workspace: its Codex head is ready and names the transitioning lineage. */
  predicate TransitionHeadOk(hs: seq<WorkspaceHead>, t: HandoffTransition) {
    var k := FindHead(hs, Codex, t.cwd);
    && k < |hs|
    && hs[k].state.Ready?
    && hs[k].conversationId == Some(t.conversationId)
    && hs[k].generation == Some(ExpectedActive(t))
  }

  predicate ValidTransition(d: Document, t: HandoffTransition) {
    && TransitionRecordOk(t)
    && var k := FindConversation(d.conversations, t.conversationId);
       && k < |d.conversations|
       && TransitionLineageOk(d.conversations[k], t)
       && TransitionHeadOk(d.workspaceHeads, t)
       && !PendingAt(d.pendingLaunches, t.cwd)
  }

  ghost predicate ValidContents(d: Document, v1: bool) {
    && ValidConversations(d.conversations, v1)
    && ValidHeads(d.conversations, d.workspaceHeads)
    && ValidPendings(d.pendingLaunches)
  }

  predicate BackupRecordOk(d: Document) {
    && d.preMigrationBackup.Some?
    && d.preMigrationBackup.value.schemaVersion == 1
    && d.preMigrationBackup.value.revision <= d.revision
  }

  ghost predicate ValidDocument(d: Document) {
    && (d.schemaVersion == 1 || d.schemaVersion == 2)
    && ValidContents(d, d.schemaVersion == 1)
    && (d.schemaVersion == 1 ==> d.preMigrationBackup.None? && d.activeTransition.None?)
    && (d.schemaVersion == 2 ==>
          BackupRecordOk(d) && (d.activeTransition.Some? ==> ValidTransition(d, d.activeTransition.value)))
  }
}
