/** Where a handoff stops: a clock that runs backwards, a target another workspace adopted, a full lineage. */
module HandoffExample {
  import opened Prelude
  import opened ConversationModel
  import opened RegistryEdits
  import opened RegistryValidity
  import opened RegistryRuns
  import Slashes

  // ---- every prepared handoff can be driven to an observed target -----------------------------

  /** The steps from an idle workspace to an observed target, all at one time. */
  function ToObserved(p: HandoffPreparation, id: Uuid, target: HandoffTarget, now: nat): seq<Op> {
    [OpPrepareHandoff(p, id, now), OpStopRequested(id, now), OpStopped(id, now), OpForkIntent(id, [], now),
     OpObserve(id, target, now)]
  }

  /** A thread bound nowhere, in the source's directory and in another file than the source. */
  predicate FreshTarget(d: Document, p: HandoffPreparation, target: HandoffTarget) {
    && target.codexVersion == CODEX_VERSION && ValidRollout(target.rollout)
    && target.cwd == p.expectedSource.cwd && !SameRolloutFile(target.rollout, p.sourceRollout)
    && !ThreadBound(d.conversations, target.threadId)
  }

  /** The transition started at this time is in this phase, and nothing but it and the revision changed since. */
  ghost predicate Underway(d: Document, e: Document, p: HandoffPreparation, id: Uuid, phase: HandoffPhase, now: nat) {
    && ValidDocument(e) && e.schemaVersion == 2 && e.activeTransition.Some?
    && e.conversations == d.conversations && e.workspaceHeads == d.workspaceHeads
    && e.pendingLaunches == d.pendingLaunches
    && var t := e.activeTransition.value;
       && t.transitionId == id && t.phase == phase && t.preparedAt == now
       && t.conversationId == p.expectedSource.conversationId && t.cwd == p.expectedSource.cwd
       && t.sourceRollout == p.sourceRollout && (t.forkRequestedAt.Some? ==> t.forkRequestedAt.value == now)
  }

  lemma Prepares(d: Document, p: HandoffPreparation, id: Uuid, now: nat)
    requires ValidDocument(d) && PrepareHandoff(Migrate(d), p, id, now).Ok? && d.revision < U64_MAX
    ensures
      var e := Next(d, OpPrepareHandoff(p, id, now));
      && Underway(PrepareHandoff(Migrate(d), p, id, now).value.0, e, p, id, HandoffPhase.Prepared, now)
      && e.revision == d.revision + 1 && e.workspaceHeads == d.workspaceHeads
      && e.pendingLaunches == d.pendingLaunches
  {
    hide PrepareHandoff;
    MigrateKeepsValid(d);
    PrepareShape(Migrate(d), p, id, now);
    HonestEditSaved(d, OpPrepareHandoff(p, id, now));
  }

  lemma Advances(c: Document, d: Document, p: HandoffPreparation, id: Uuid, now: nat)
    requires Underway(c, d, p, id, HandoffPhase.Prepared, now) && d.revision < U64_MAX
    ensures
      var e := Next(d, OpStopRequested(id, now));
      Underway(c, e, p, id, SourceStopRequested, now) && e.revision == d.revision + 1
  {
    hide ValidDocument;
    HonestEditSaved(d, OpStopRequested(id, now));
  }

  lemma Stops(c: Document, d: Document, p: HandoffPreparation, id: Uuid, now: nat)
    requires Underway(c, d, p, id, SourceStopRequested, now) && d.revision < U64_MAX
    ensures
      var e := Next(d, OpStopped(id, now));
      Underway(c, e, p, id, SourceStopped, now) && e.revision == d.revision + 1
  {
    hide ValidDocument;
    HonestEditSaved(d, OpStopped(id, now));
  }

  lemma Forks(c: Document, d: Document, p: HandoffPreparation, id: Uuid, now: nat)
    requires Underway(c, d, p, id, SourceStopped, now) && d.revision < U64_MAX
    ensures
      var e := Next(d, OpForkIntent(id, [], now));
      Underway(c, e, p, id, ForkRequested, now) && e.revision == d.revision + 1
  {
    assert TransitionRecordOk(d.activeTransition.value);
    hide ValidDocument;
    HonestEditSaved(d, OpForkIntent(id, [], now));
  }

  /** A frozen lineage holds the source generation of its transition. */
  lemma SourceIsThere(d: Document)
    requires ValidDocument(d) && d.activeTransition.Some?
    ensures
      var t := d.activeTransition.value;
      var k := FindConversation(d.conversations, t.conversationId);
      && k < |d.conversations|
      && FindGeneration(d.conversations[k].generations, t.sourceGeneration) < |d.conversations[k].generations|
  {
    var t := d.activeTransition.value;
    var k := FindConversation(d.conversations, t.conversationId);
    FindGenerationIs(d.conversations[k], false, t.sourceGeneration);
  }

  lemma Observes(c: Document, d: Document, p: HandoffPreparation, id: Uuid, target: HandoffTarget, now: nat)
    requires Underway(c, d, p, id, ForkRequested, now) && d.revision < U64_MAX && FreshTarget(c, p, target)
    ensures
      var e := Next(d, OpObserve(id, target, now));
      && Underway(c, e, p, id, ForkObserved, now) && e.revision == d.revision + 1
      && e.activeTransition.value.observed.Some?
      && e.activeTransition.value.observed.value.threadId == target.threadId
  {
    SourceIsThere(d);
    hide ValidDocument, ValidRollout, ThreadBound;
    HonestEditSaved(d, OpObserve(id, target, now));
  }

  lemma RunOpsFirst(d: Document, op: Op, ops: seq<Op>)
    ensures RunOps(d, [op] + ops) == RunOps(Next(d, op), ops)
  {
    hide Next;
    assert ([op] + ops)[1..] == ops;
  }

  lemma RunOpsFive(d: Document, p: HandoffPreparation, id: Uuid, target: HandoffTarget, now: nat)
    ensures
      var d1 := Next(d, OpPrepareHandoff(p, id, now));
      var d2 := Next(d1, OpStopRequested(id, now));
      var d3 := Next(d2, OpStopped(id, now));
      var d4 := Next(d3, OpForkIntent(id, [], now));
      RunOps(d, ToObserved(p, id, target, now)) == Next(d4, OpObserve(id, target, now))
  {
    hide Next;
    var ops := ToObserved(p, id, target, now);
    var d1 := Next(d, ops[0]);
    var d2 := Next(d1, ops[1]);
    var d3 := Next(d2, ops[2]);
    var d4 := Next(d3, ops[3]);
    assert ops == [ops[0]] + ops[1..] && ops[1..] == [ops[1]] + ops[2..] && ops[2..] == [ops[2]] + ops[3..];
    assert ops[3..] == [ops[3]] + ops[4..] && ops[4..] == [ops[4]] + [];
    RunOpsFirst(d, ops[0], ops[1..]);
    RunOpsFirst(d1, ops[1], ops[2..]);
    RunOpsFirst(d2, ops[2], ops[3..]);
    RunOpsFirst(d3, ops[3], ops[4..]);
    RunOpsFirst(d4, ops[4], []);
  }

  /** Preparing binds and frees no thread, and keeps the length of the lineage. */
  lemma PrepareKeepsThreads(d: Document, p: HandoffPreparation, id: Uuid, now: nat, thread: Uuid)
    requires ValidDocument(d) && PrepareHandoff(Migrate(d), p, id, now).Ok?
    ensures
      var e := PrepareHandoff(Migrate(d), p, id, now).value.0;
      var c := p.expectedSource.conversationId;
      && (ThreadBound(e.conversations, thread) ==> ThreadBound(d.conversations, thread))
      && ConversationAt(d, c).Some? && ConversationAt(e, c).Some?
      && |ConversationAt(e, c).value.generations| == |ConversationAt(d, c).value.generations|
  {
    hide PrepareHandoff, ValidDocument;
    MigrateKeepsValid(d);
    PrepareShape(Migrate(d), p, id, now);
    var e := PrepareHandoff(Migrate(d), p, id, now).value.0;
    var k := FindConversation(d.conversations, p.expectedSource.conversationId);
    FindAfterUpdate(d.conversations, k, e.conversations[k], p.expectedSource.conversationId);
    if ThreadBound(e.conversations, thread) {
      var i, g :| 0 <= i < |e.conversations| && 0 <= g < |e.conversations[i].generations| &&
                  e.conversations[i].generations[g].threadId == thread;
      assert d.conversations[i].generations[g].threadId == thread;
      assert HasThread(d.conversations[i], thread);
    }
  }

  /** A handoff that can be prepared can be driven to any fresh target: no step after the first is refused. */
  lemma HandoffReachesObserved(d: Document, p: HandoffPreparation, id: Uuid, target: HandoffTarget, now: nat)
    requires ValidDocument(d) && PrepareHandoff(Migrate(d), p, id, now).Ok? && d.revision + 5 <= U64_MAX
    requires FreshTarget(d, p, target)
    ensures
      var c := PrepareHandoff(Migrate(d), p, id, now).value.0;
      var e := RunOps(d, ToObserved(p, id, target, now));
      && Underway(c, e, p, id, ForkObserved, now) && e.revision == d.revision + 5
      && e.activeTransition.value.observed.Some?
      && e.activeTransition.value.observed.value.threadId == target.threadId
      && e.workspaceHeads == d.workspaceHeads && e.pendingLaunches == d.pendingLaunches
      && !ThreadBound(e.conversations, target.threadId)
  {
    hide ValidDocument, Next, PrepareHandoff, RunOps, ThreadBound, ValidRollout;
    var c := PrepareHandoff(Migrate(d), p, id, now).value.0;
    PrepareKeepsThreads(d, p, id, now, target.threadId);
    Prepares(d, p, id, now);
    var d1 := Next(d, OpPrepareHandoff(p, id, now));
    Advances(c, d1, p, id, now);
    var d2 := Next(d1, OpStopRequested(id, now));
    Stops(c, d2, p, id, now);
    var d3 := Next(d2, OpStopped(id, now));
    Forks(c, d3, p, id, now);
    var d4 := Next(d3, OpForkIntent(id, [], now));
    Observes(c, d4, p, id, target, now);
    RunOpsFive(d, p, id, target, now);
  }

  // ---- two ways the commit is refused ---------------------------------------------------------

  /** A lineage of full length can be prepared, stopped, forked and observed, and is then never committed. */
  lemma FullLineageIsNeverCommitted(d: Document, p: HandoffPreparation, id: Uuid, target: HandoffTarget, now: nat,
                                    commitAt: nat)
    requires ValidDocument(d) && PrepareHandoff(Migrate(d), p, id, now).Ok? && d.revision + 5 <= U64_MAX
    requires FreshTarget(d, p, target)
    requires ConversationAt(d, p.expectedSource.conversationId).Some?
    requires |ConversationAt(d, p.expectedSource.conversationId).value.generations| == MAX_LINEAGE_GENERATIONS
    ensures
      var e := RunOps(d, ToObserved(p, id, target, now));
      ExactTransition(e, id, ForkObserved).Ok? && CommitHandoff(e, id, commitAt).Err?
  {
    hide ValidDocument, PrepareHandoff, RunOps, CommitHandoff, ThreadBound, FreshTarget;
    HandoffReachesObserved(d, p, id, target, now);
    PrepareKeepsThreads(d, p, id, now, target.threadId);
    CommitRefusesOnly(RunOps(d, ToObserved(p, id, target, now)), id, commitAt);
  }

  /** Any other idle workspace can adopt the observed target; the commit is then refused. */
  lemma AdoptedTargetIsNotCommitted(d: Document, id: Uuid, b: BindingInput, newId: Uuid, now: nat, commitAt: nat)
    requires ValidDocument(d) && ExactTransition(d, id, ForkObserved).Ok? && d.revision < U64_MAX
    requires
      var t := d.activeTransition.value;
      t.observed.Some? && b.threadId == t.observed.value.threadId && b.cwd != t.cwd
    requires CheckBindingInput(b).None? && !PendingAt(d.pendingLaunches, b.cwd)
    requires !ThreadBound(d.conversations, b.threadId)
    requires FindConversation(d.conversations, newId) == |d.conversations|
    ensures
      var e := Next(d, OpAdopt(b, newId, now));
      e != d && ExactTransition(e, id, ForkObserved).Ok? && CommitHandoff(e, id, commitAt) == Err(RegistryInvalid)
  {
    UnboundIsAdopted(d, b, newId, now);
    hide ValidDocument, ThreadBound, PendingAt;
    HonestEditSaved(d, OpAdopt(b, newId, now));
  }

  lemma UnboundIsAdopted(d: Document, b: BindingInput, newId: Uuid, now: nat)
    requires CheckBindingInput(b).None? && !PendingAt(d.pendingLaunches, b.cwd)
    requires !ThreadBound(d.conversations, b.threadId)
    requires !Transitioning(d, b.cwd)
    ensures Adopt(d, b, newId, now).Ok?
    ensures
      var e := Adopt(d, b, newId, now).value.0;
      && e == d.(conversations := d.conversations + [FreshConversation(b, newId, now)],
                 workspaceHeads := OtherHeads(d.workspaceHeads, b.cwd) + [ReadyHead(b.cwd, newId, 0)])
      && ThreadBound(e.conversations, b.threadId)
  {
    var k := FindOwner(d.conversations, b.profileId, b.threadId);
    forall i, g | 0 <= i < |d.conversations| && 0 <= g < |d.conversations[i].generations|
      ensures d.conversations[i].generations[g].threadId != b.threadId
    {
      assert HasThread(d.conversations[i], d.conversations[i].generations[g].threadId);
    }
    var e := Adopt(d, b, newId, now).value.0;
    assert e.conversations[|d.conversations|].generations[0].threadId == b.threadId;
    assert HasThread(e.conversations[|d.conversations|], b.threadId);
  }

  // ---- the runs -------------------------------------------------------------------------------

  const HOLDER: Uuid := 1
  const RECEIVER: Uuid := 2
  const DOMAIN: Uuid := 3
  const HERE: Cwd := 1
  const ELSEWHERE: Cwd := 2
  const LINEAGE: Uuid := 9
  const HANDOFF: Uuid := 8
  const FORKED: Uuid := 1000

  function ZeroDigits(n: nat): (s: string)
    ensures |s| == n && forall i :: 0 <= i < n ==> s[i] == '0'
  {
    if n == 0 then "" else "0" + ZeroDigits(n - 1)
  }

  function RolloutOf(inode: nat): GenerationRollout {
    GenerationRollout(Sessions, "rollout", RolloutFingerprint(1, inode, 0, 0, 0, 1, 0, 0, 0, 0, ZeroDigits(64)))
  }

  lemma RolloutIsValid(inode: nat)
    requires inode != 0
    ensures ValidRollout(RolloutOf(inode))
  {
    var path := "rollout";
    assert forall i :: 0 <= i < |path| ==> path[i] != '/' && PathCharacter(path[i]);
    Slashes.NoSlashSplits(path);
    assert |path| == 7;
  }

  const Forked := HandoffTarget(FORKED, HERE, CODEX_VERSION, RolloutOf(1000))

  /** Hands the lineage of this many generations to the receiver. */
  function Giving(n: nat): HandoffPreparation
    requires n > 0
  {
    HandoffPreparation(HeadBinding(LINEAGE, n - 1, HOLDER, n - 1, HERE, CODEX_VERSION, Clean), RECEIVER, DOMAIN,
                       ConfirmedUsageExhaustion, RolloutOf(n))
  }

  const Own := BindingInput(HOLDER, 0, HERE, CODEX_VERSION, Clean)
  const Adoption := OpAdopt(Own, LINEAGE, 0)
  const Adopted := Document(1, 1, [FreshConversation(Own, LINEAGE, 0)], [ReadyHead(HERE, LINEAGE, 0)], [], None, None)

  lemma EmptyIsValid()
    ensures ValidDocument(EmptyDocument)
  {
  }

  lemma AdoptionEdit()
    ensures EditOf(EmptyDocument, Adoption) == Ok(Adopted.(revision := 0))
  {
    hide FreshConversation, Adopt;
    UnboundIsAdopted(EmptyDocument, Own, LINEAGE, 0);
    var c, h := FreshConversation(Own, LINEAGE, 0), ReadyHead(HERE, LINEAGE, 0);
    assert EmptyDocument.conversations + [c] == [c] && OtherHeads(EmptyDocument.workspaceHeads, HERE) + [h] == [h];
  }

  lemma AdoptsFirst()
    ensures ValidDocument(Adopted) && Next(EmptyDocument, Adoption) == Adopted
  {
    hide ValidDocument, EditOf, FreshConversation;
    AdoptionEdit();
    EmptyIsValid();
    HonestEditSaved(EmptyDocument, Adoption);
    NextIsValid(EmptyDocument, Adoption);
  }

  lemma CanBeGiven(d: Document, n: nat, now: nat)
    requires n > 0 && d.activeTransition.None? && d.pendingLaunches == []
    requires d.workspaceHeads == [ReadyHead(HERE, LINEAGE, n - 1)]
    requires |d.conversations| == 1
    requires
      var c := d.conversations[0];
      && c.conversationId == LINEAGE && c.activeGeneration == n - 1 && |c.generations| == n <= MAX_LINEAGE_GENERATIONS
      && c.lifecycle == Clean
      && (forall k :: 0 <= k < n ==> c.generations[k].number == k)
      && var s := c.generations[n - 1];
         && s.profileId == HOLDER && s.threadId == n - 1 && s.cwd == HERE && s.codexVersion == CODEX_VERSION
         && ((s.trustDomainId.None? && s.rollout.None?)
             || (s.trustDomainId == Some(DOMAIN) && s.rollout == Some(RolloutOf(n))))
    ensures PrepareHandoff(d, Giving(n), HANDOFF, now).Ok?
  {
    RolloutIsValid(n);
    hide ValidRollout;
  }

  lemma ForkedIsFresh(d: Document, n: nat)
    requires 0 < n <= MAX_LINEAGE_GENERATIONS && !ThreadBound(d.conversations, FORKED)
    ensures FreshTarget(d, Giving(n), Forked)
  {
    RolloutIsValid(1000);
  }

  /** A step whose clock is behind the preparation is refused by the validator alone: the edit itself succeeds, and the
      same step at the time of the preparation is stored. */
  lemma BackwardClockIsRefused()
    ensures
      var d := RunOps(EmptyDocument, [Adoption, OpPrepareHandoff(Giving(1), HANDOFF, 10)]);
      && EditOf(d, OpStopRequested(HANDOFF, 5)).Ok? && Next(d, OpStopRequested(HANDOFF, 5)) == d
      && Next(d, OpStopRequested(HANDOFF, 10)) != d
  {
    hide ValidDocument, RolloutOf, PrepareHandoff;
    var prepare := OpPrepareHandoff(Giving(1), HANDOFF, 10);
    AdoptsFirst();
    CanBeGiven(Migrate(Adopted), 1, 10);
    Prepares(Adopted, Giving(1), HANDOFF, 10);
    var d := Next(Adopted, prepare);
    hide Next;
    RunOpsFirst(EmptyDocument, Adoption, [prepare]);
    RunOpsFirst(Adopted, prepare, []);
    assert [Adoption] + [prepare] == [Adoption, prepare] && [prepare] + [] == [prepare];
    Advances(PrepareHandoff(Migrate(Adopted), Giving(1), HANDOFF, 10).value.0, d, Giving(1), HANDOFF, 10);
    HonestEditAccepted(d, OpStopRequested(HANDOFF, 5));
    RefusedIsUnchanged(d, OpStopRequested(HANDOFF, 5));
  }

  /** A late stop is refused whenever the edit itself is not valid: the next revision does not repair it. */
  lemma RefusedIsUnchanged(d: Document, op: Op)
    requires ValidDocument(d) && op.OpStopRequested? && d.schemaVersion == 2
    requires EditOf(d, op).Ok? && !ValidDocument(EditOf(d, op).value)
    ensures Next(d, op) == d
  {
    var e := EditOf(d, op).value;
    var next := e.(revision := e.revision + 1);
    if ValidDocument(next) {
      FrozenKeepsTransition(next, e, e.activeTransition.value);
    }
  }

  // ---- a lineage of full length ---------------------------------------------------------------

  function FullGeneration(k: nat): Generation {
    Generation(k, HOLDER, k, HERE, CODEX_VERSION, ADAPTER_VERSION, 0, Some(DOMAIN), Some(RolloutOf(k + 1)))
  }

  function FullGenerations(n: nat): (gs: seq<Generation>)
    ensures |gs| == n && forall k :: 0 <= k < n ==> gs[k] == FullGeneration(k)
  {
    if n == 0 then [] else FullGenerations(n - 1) + [FullGeneration(n - 1)]
  }

  function Lineage(n: nat): Conversation
    requires n > 0
  {
    Conversation(LINEAGE, Codex, FullGenerations(n), n - 1, Clean)
  }

  /** One conversation of this many generations, ready in its directory. */
  function Grown(n: nat): Document
    requires n > 0
  {
    Document(2, 1, [Lineage(n)], [ReadyHead(HERE, LINEAGE, n - 1)], [],
             Some(PreMigrationBackup(1, 0, Sha256(EmptyDocument))), None)
  }

  lemma GenerationIsValid(n: nat, k: nat)
    requires k < n <= MAX_LINEAGE_GENERATIONS
    ensures ValidGeneration(Lineage(n), k, false)
  {
    hide RolloutOf, ValidRollout;
    RolloutIsValid(k + 1);
  }

  lemma LineageIsValid(n: nat)
    requires 0 < n <= MAX_LINEAGE_GENERATIONS
    ensures ValidConversation(Lineage(n), false)
  {
    hide ValidGeneration, RolloutOf;
    forall k | 0 <= k < n
      ensures ValidGeneration(Lineage(n), k, false)
    {
      GenerationIsValid(n, k);
    }
  }

  lemma LineageThreads(n: nat)
    requires 0 < n <= MAX_LINEAGE_GENERATIONS
    ensures OwnThreadsDistinct(Lineage(n)) && !HasThread(Lineage(n), FORKED)
  {
    hide RolloutOf;
  }

  lemma GrownIsValid(n: nat)
    requires 0 < n <= MAX_LINEAGE_GENERATIONS
    ensures ValidDocument(Grown(n)) && !ThreadBound(Grown(n).conversations, FORKED)
  {
    LineageIsValid(n);
    LineageThreads(n);
    hide ValidConversation, OwnThreadsDistinct, HasThread, ThreadsApart, RolloutOf;
    assert ReadyHeadOk([Lineage(n)], ReadyHead(HERE, LINEAGE, n - 1));
  }

  /** The lineage of 256 generations is prepared, stopped, forked and observed, and its commit is refused. */
  lemma FullLineageStops(n: nat)
    requires n == MAX_LINEAGE_GENERATIONS
    ensures
      var e := RunOps(Grown(n), ToObserved(Giving(n), HANDOFF, Forked, 10));
      && ValidDocument(Grown(n)) && Next(Grown(n), OpPrepareHandoff(Giving(n), HANDOFF, 10)) != Grown(n)
      && ExactTransition(e, HANDOFF, ForkObserved).Ok? && CommitHandoff(e, HANDOFF, 10).Err?
  {
    hide ValidDocument, Next, RunOps, PrepareHandoff, CommitHandoff, RolloutOf, ThreadBound, FreshTarget;
    GrownIsValid(n);
    CanBeGiven(Grown(n), n, 10);
    ForkedIsFresh(Grown(n), n);
    Prepares(Grown(n), Giving(n), HANDOFF, 10);
    FullLineageIsNeverCommitted(Grown(n), Giving(n), HANDOFF, Forked, 10, 10);
  }

  // ---- a stolen target ------------------------------------------------------------------------

  const Theft := BindingInput(RECEIVER, FORKED, ELSEWHERE, CODEX_VERSION, Clean)

  /** The same run can be committed, and no longer once another workspace has adopted the observed target. */
  lemma StolenTargetStops()
    ensures
      var d := RunOps(EmptyDocument, [Adoption] + ToObserved(Giving(1), HANDOFF, Forked, 10));
      var e := Next(d, OpAdopt(Theft, 11, 10));
      && ExactTransition(d, HANDOFF, ForkObserved).Ok? && CommitHandoff(d, HANDOFF, 10).Ok?
      && e != d && ExactTransition(e, HANDOFF, ForkObserved).Ok?
      && CommitHandoff(e, HANDOFF, 10) == Err(RegistryInvalid)
  {
    hide ValidDocument, Next, RunOps, PrepareHandoff, CommitHandoff, RolloutOf, FreshTarget, ThreadBound;
    AdoptsFirst();
    RunOpsFirst(EmptyDocument, Adoption, ToObserved(Giving(1), HANDOFF, Forked, 10));
    CanBeGiven(Migrate(Adopted), 1, 10);
    ForkedIsUnbound();
    ForkedIsFresh(Adopted, 1);
    HandoffReachesObserved(Adopted, Giving(1), HANDOFF, Forked, 10);
    PrepareKeepsThreads(Adopted, Giving(1), HANDOFF, 10, FORKED);
    var d := RunOps(Adopted, ToObserved(Giving(1), HANDOFF, Forked, 10));
    CommitRefusesOnly(d, HANDOFF, 10);
    OnlyLineage(11);
    AdoptedTargetIsNotCommitted(d, HANDOFF, Theft, 11, 10, 10);
  }

  lemma ForkedIsUnbound()
    ensures !ThreadBound(Adopted.conversations, FORKED)
  {
  }

  lemma OnlyLineage(other: Uuid)
    requires other != LINEAGE && PrepareHandoff(Migrate(Adopted), Giving(1), HANDOFF, 10).Ok?
    ensures
      var cs := PrepareHandoff(Migrate(Adopted), Giving(1), HANDOFF, 10).value.0.conversations;
      FindConversation(cs, other) == |cs|
  {
    hide PrepareHandoff, RolloutOf;
    AdoptsFirst();
    MigrateKeepsValid(Adopted);
    PrepareShape(Migrate(Adopted), Giving(1), HANDOFF, 10);
  }
}
