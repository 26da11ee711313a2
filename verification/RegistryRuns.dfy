/** What holds over every run of registry operations: history, frozen handoffs and sticky selection. */
module RegistryRuns {
  import opened Prelude
  import opened ConversationModel
  import opened RegistryEdits
  import opened RegistryValidity

  // ---- history --------------------------------------------------------------------------------

  /** A generation afterwards: unchanged, or its absent handoff metadata now present. */
  predicate GenerationKept(g: Generation, h: Generation) {
    || h == g
    || (g.trustDomainId.None? && g.rollout.None? && h.trustDomainId.Some? && h.rollout.Some?
        && h == g.(trustDomainId := h.trustDomainId, rollout := h.rollout))
  }

  predicate LineageKept(c: Conversation, e: Conversation) {
    && e.conversationId == c.conversationId && e.provider == c.provider
    && |c.generations| <= |e.generations|
    && forall g :: 0 <= g < |c.generations| ==> GenerationKept(c.generations[g], e.generations[g])
  }

  /** No conversation is removed, and every lineage keeps its generations and grows only at its tail. */
  predicate HistoryKept(cs: seq<Conversation>, es: seq<Conversation>) {
    && |cs| <= |es|
    && forall i :: 0 <= i < |cs| ==> LineageKept(cs[i], es[i])
  }

  lemma UnchangedHistory(cs: seq<Conversation>)
    ensures HistoryKept(cs, cs)
  {
    forall i | 0 <= i < |cs| ensures LineageKept(cs[i], cs[i]) {
      assert forall g :: 0 <= g < |cs[i].generations| ==> GenerationKept(cs[i].generations[g], cs[i].generations[g]);
    }
  }

  lemma HistoryChains(a: seq<Conversation>, b: seq<Conversation>, c: seq<Conversation>)
    requires HistoryKept(a, b) && HistoryKept(b, c)
    ensures HistoryKept(a, c)
  {
    forall i | 0 <= i < |a| ensures LineageKept(a[i], c[i]) {
      assert LineageKept(a[i], b[i]) && LineageKept(b[i], c[i]);
      forall g | 0 <= g < |a[i].generations|
        ensures GenerationKept(a[i].generations[g], c[i].generations[g])
      {
        assert GenerationKept(a[i].generations[g], b[i].generations[g]);
        assert GenerationKept(b[i].generations[g], c[i].generations[g]);
      }
    }
  }

  // ---- what an ordinary operation leaves alone ------------------------------------------------

  ghost predicate OrdinaryFrame(d: Document, e: Document) {
    && e.schemaVersion == d.schemaVersion && e.activeTransition == d.activeTransition
    && HistoryKept(d.conversations, e.conversations)
    && (d.activeTransition.Some? ==> SameFrozen(d, e, d.activeTransition.value))
  }

  lemma FrameChains(d: Document, e: Document, f: Document)
    requires OrdinaryFrame(d, e) && OrdinaryFrame(e, f)
    ensures OrdinaryFrame(d, f)
  {
    HistoryChains(d.conversations, e.conversations, f.conversations);
  }

  lemma MarkFrames(d: Document, cwd: Cwd)
    requires ValidDocument(d) && !Transitioning(d, cwd)
    ensures OrdinaryFrame(d, MarkHead(d, cwd))
  {
    UnchangedHistory(d.conversations);
    if d.activeTransition.Some? { MarkFrame(d, cwd, Codex, d.activeTransition.value.cwd); }
  }

  /** Binding replaces the head of its own directory only, and touches no transitioning lineage. */
  lemma BindFrames(d: Document, b: BindingInput, freshId: Uuid, now: nat)
    requires ValidDocument(d) && BindDocument(d, b, freshId, now).Ok?
    ensures OrdinaryFrame(d, BindDocument(d, b, freshId, now).value.0)
  {
    hide ValidPendings, TransitionLineageOk, TransitionRecordOk;
    var cs := d.conversations;
    var k := FindOwner(cs, b.profileId, b.threadId);
    if d.activeTransition.Some? {
      var t := d.activeTransition.value;
      BindHeads(d, b, freshId, now, t.cwd);
      if k < |cs| {
        var n := FindBound(cs[k].generations, b.profileId, b.threadId);
        BoundIsNotFrozen(d, k, cs[k].(lifecycle := b.lifecycle), n, b.cwd);
      } else {
        FindAfterPush(cs, FreshConversation(b, freshId, now), t.conversationId);
      }
    }
    UnchangedHistory(cs);
    assert k < |cs| ==> LineageKept(cs[k], cs[k].(lifecycle := b.lifecycle));
  }

  lemma BindHeads(d: Document, b: BindingInput, freshId: Uuid, now: nat, cwd: Cwd)
    requires DistinctHeads(d.workspaceHeads) && BindDocument(d, b, freshId, now).Ok? && cwd != b.cwd
    ensures HeadAt(BindDocument(d, b, freshId, now).value.0.workspaceHeads, Codex, cwd)
            == HeadAt(d.workspaceHeads, Codex, cwd)
  {
    var k := FindOwner(d.conversations, b.profileId, b.threadId);
    if k < |d.conversations| {
      var c := d.conversations[k];
      var n := FindBound(c.generations, b.profileId, b.threadId);
      InstallFrame(d.workspaceHeads, ReadyHead(b.cwd, c.conversationId, c.generations[n].number), Codex, cwd);
    } else {
      InstallFrame(d.workspaceHeads, ReadyHead(b.cwd, freshId, 0), Codex, cwd);
    }
  }

  lemma FinishFrames(d: Document, id: Uuid, r: LaunchResolution, freshId: Uuid, now: nat)
    requires ValidDocument(d) && FinishLaunch(d, id, r, freshId, now).Ok?
    ensures OrdinaryFrame(d, FinishLaunch(d, id, r, freshId, now).value.0)
  {
    FinishShape(d, id, r, freshId, now);
    var k := FindLaunch(d.pendingLaunches, id);
    var rest, e := WithoutLaunch(d, k), FinishLaunch(d, id, r, freshId, now).value.0;
    RemoveIsOrdinary(d, k);
    OrdinaryIsValid(d, rest);
    assert OrdinaryFrame(d, rest);
    if e != rest {
      if e == MarkHead(rest, d.pendingLaunches[k].cwd) {
        MarkFrames(rest, d.pendingLaunches[k].cwd);
      } else {
        BindFrames(rest, r.binding, freshId, now);
      }
      FrameChains(d, rest, e);
    }
  }

  lemma OrdinaryOpFrames(d: Document, op: Op)
    requires ValidDocument(d) && !IsHandoffOp(op) && EditOf(d, op).Ok?
    ensures OrdinaryFrame(d, EditOf(d, op).value)
  {
    hide ValidDocument, BindDocument, MarkHead, FinishLaunch;
    match op
    case OpBeginLaunch(_, cwd, _, _, _, _, _) => if !Transitioning(d, cwd) { MarkFrames(d, cwd); }
    case OpFinishLaunch(id, r, newId, now) => FinishFrames(d, id, r, newId, now);
    case OpAdopt(b, newId, now) => BindFrames(d, b, newId, now);
    case OpRefresh(_, b, newId, now) => BindFrames(d, b, newId, now);
    case OpMarkAmbiguous(cwd) => MarkFrames(d, cwd);
    case OpPrepareUntracked(_, cwd, _, _, _) => MarkFrames(d, cwd);
    case OpProviderStarted(id) => SetPhaseIsOrdinary(d, id, ProviderStarted);
    case OpCaptureFailed(id) => SetPhaseIsOrdinary(d, id, CaptureFailed);
    case _ =>
  }

  /** A saved operation is its edit with the next revision. */
  lemma NextIs(d: Document, op: Op)
    ensures Next(d, op) == d ||
            (EditOf(d, op).Ok? && var e := EditOf(d, op).value; Next(d, op) == e.(revision := e.revision + 1)
                                                                 && ValidDocument(Next(d, op)))
  {
  }

  lemma NextIsValid(d: Document, op: Op)
    requires ValidDocument(d)
    ensures ValidDocument(Next(d, op))
  {
  }

  lemma {:induction false} RunIsValid(d: Document, ops: seq<Op>)
    requires ValidDocument(d)
    ensures ValidDocument(RunOps(d, ops))
    decreases |ops|
  {
    if ops != [] { RunIsValid(Next(d, ops[0]), ops[1..]); }
  }

  /** In this run every operation of the kind is refused: it leaves the stored document as it was. */
  ghost predicate AllRefused(d: Document, ops: seq<Op>, kind: Op -> bool)
    decreases |ops|
  {
    ops != [] ==> (kind(ops[0]) ==> Next(d, ops[0]) == d) && AllRefused(Next(d, ops[0]), ops[1..], kind)
  }

  const Preparation := (op: Op) => op.OpPrepareHandoff?
  const Attachment := (op: Op) => op.OpAttach?
  const CommitOrAttachment := (op: Op) => op.OpCommit? || op.OpAttach?

  function AdoptionIn(cwd: Cwd): Op -> bool {
    (op: Op) => op.OpAdopt? && op.binding.cwd == cwd
  }

  // ---- one handoff step -----------------------------------------------------------------------

  /** The only successor a handoff step may give a transition. */
  predicate Successor(t: HandoffTransition, u: HandoffTransition) {
    && t.transitionId == u.transitionId && t.conversationId == u.conversationId && t.cwd == u.cwd
    && t.sourceGeneration == u.sourceGeneration && t.targetGeneration == u.targetGeneration
    && t.sourceProfileId == u.sourceProfileId && t.targetProfileId == u.targetProfileId
    && t.preparedAt == u.preparedAt
    && match t.phase
       case Prepared => u.phase.SourceStopRequested?
       case SourceStopRequested => u.phase.SourceStopped?
       case SourceStopped => u.phase.ForkRequested? && u.forkAttempts == 1
       case ForkRequested =>
         || (u.phase.ForkRequested? && t.forkAttempts == 1 && u.forkAttempts == 2)
         || (u.phase.ForkObserved? && u.forkAttempts == t.forkAttempts && u.observed.Some?)
       case ForkObserved => u.phase.CommittedUnattached? && u.observed == t.observed
       case CommittedUnattached => false
  }

  /** Steps still possible before attachment, falling with the phase and then with the fork attempts left. */
  function StepsLeft(t: Option<HandoffTransition>): nat {
    if t.None? then 0
    else match t.value.phase
      case Prepared => 7
      case SourceStopRequested => 6
      case SourceStopped => 5
      case ForkRequested => if t.value.forkAttempts == 1 then 4 else 3
      case ForkObserved => 2
      case CommittedUnattached => 1
  }

  lemma UpdateKeepsHistory(cs: seq<Conversation>, k: nat, c: Conversation)
    requires k < |cs| && LineageKept(cs[k], c)
    ensures HistoryKept(cs, cs[k := c])
  {
    forall i | 0 <= i < |cs| ensures LineageKept(cs[i], cs[k := c][i]) {
      assert forall g :: 0 <= g < |cs[i].generations| ==> GenerationKept(cs[i].generations[g], cs[i].generations[g]);
    }
  }

  lemma PrepareMoves(d: Document, p: HandoffPreparation, id: Uuid, now: nat)
    requires ValidDocument(d) && PrepareHandoff(d, p, id, now).Ok?
    ensures var e := PrepareHandoff(d, p, id, now).value.0;
            && d.activeTransition.None? && e.activeTransition.Some?
            && e.activeTransition.value.phase == HandoffPhase.Prepared
            && HistoryKept(d.conversations, e.conversations) && e.workspaceHeads == d.workspaceHeads
            && e.schemaVersion == d.schemaVersion
  {
    PrepareShape(d, p, id, now);
    var k := FindConversation(d.conversations, p.expectedSource.conversationId);
    var c := d.conversations[k];
    assert ValidConversation(c, d.schemaVersion == 1);
    assert ValidGeneration(c, c.activeGeneration, d.schemaVersion == 1);
    UpdateKeepsHistory(d.conversations, k, Stamped(c, p.trustDomainId, p.sourceRollout));
  }

  lemma CommitMoves(d: Document, id: Uuid, now: nat)
    requires ValidDocument(d) && CommitHandoff(d, id, now).Ok?
    ensures var e := CommitHandoff(d, id, now).value.0;
            && d.activeTransition.Some? && e.activeTransition.Some?
            && Successor(d.activeTransition.value, e.activeTransition.value)
            && HistoryKept(d.conversations, e.conversations)
  {
    var k := FindConversation(d.conversations, d.activeTransition.value.conversationId);
    UpdateKeepsHistory(d.conversations, k, CommitHandoff(d, id, now).value.0.conversations[k]);
  }

  /** The steps that change nothing but the transition. */
  lemma RecordMoves(d: Document, op: Op)
    requires ValidDocument(d) && IsHandoffOp(op) && !op.OpPrepareHandoff? && !op.OpCommit? && EditOf(d, op).Ok?
    ensures d.schemaVersion == 2 && d.activeTransition.Some?
    ensures EditOf(d, op).value.(activeTransition := d.activeTransition) == d
    ensures var u := EditOf(d, op).value.activeTransition;
            if op.OpAttach? then d.activeTransition.value.phase.CommittedUnattached? && u.None?
            else u.Some? && Successor(d.activeTransition.value, u.value)
  {
    hide ValidContents, TransitionLineageOk, TransitionHeadOk, ValidRollout;
  }

  /** Every saved step moves the transition: preparation starts it, attachment ends it, the rest succeed it. */
  lemma HandoffOpMoves(d: Document, op: Op)
    requires ValidDocument(d) && IsHandoffOp(op) && Next(d, op) != d
    ensures var t, u := d.activeTransition, Next(d, op).activeTransition;
            if op.OpPrepareHandoff? then t.None? && u.Some? && u.value.phase == HandoffPhase.Prepared
            else if op.OpAttach? then t.Some? && t.value.phase.CommittedUnattached? && u.None?
            else t.Some? && u.Some? && Successor(t.value, u.value)
    ensures (op.OpPrepareHandoff? || d.schemaVersion == 2) && Next(d, op).schemaVersion == 2
    ensures HistoryKept(d.conversations, Next(d, op).conversations)
    ensures !op.OpPrepareHandoff? && !op.OpCommit? ==>
              Next(d, op).conversations == d.conversations && Next(d, op).workspaceHeads == d.workspaceHeads
  {
    NextIs(d, op);
    MigrateKeepsValid(d);
    if op.OpPrepareHandoff? {
      PrepareMoves(Migrate(d), op.preparation, op.id, op.now);
    } else if op.OpCommit? {
      CommitMoves(Migrate(d), op.id, op.now);
    } else {
      RecordMoves(d, op);
      UnchangedHistory(d.conversations);
    }
  }

  /** Handoff steps fall a measure of at most seven; all other operations leave the transition alone. */
  lemma TransitionMoves(d: Document, op: Op)
    requires ValidDocument(d) && !op.OpPrepareHandoff?
    ensures StepsLeft(Next(d, op).activeTransition) <= StepsLeft(d.activeTransition)
    ensures IsHandoffOp(op) && Next(d, op) != d ==>
              StepsLeft(Next(d, op).activeTransition) < StepsLeft(d.activeTransition)
    ensures !IsHandoffOp(op) ==> Next(d, op).activeTransition == d.activeTransition
    ensures Next(d, op).schemaVersion == d.schemaVersion
  {
    hide ValidDocument, EditOf;
    NextIs(d, op);
    if Next(d, op) != d {
      if IsHandoffOp(op) { HandoffOpMoves(d, op); } else { OrdinaryOpFrames(d, op); }
    }
  }

  /** How many handoff steps of a run were saved. */
  ghost function HandoffSteps(d: Document, ops: seq<Op>): nat
    decreases |ops|
  {
    if ops == [] then 0
    else (if IsHandoffOp(ops[0]) && Next(d, ops[0]) != d then 1 else 0) + HandoffSteps(Next(d, ops[0]), ops[1..])
  }

  /** At most seven steps follow a stored preparation, whatever crashes, restarts and other launches interleave. */
  lemma {:induction false} AtMostSevenSteps(d: Document, ops: seq<Op>)
    requires ValidDocument(d) && AllRefused(d, ops, Preparation)
    ensures HandoffSteps(d, ops) + StepsLeft(RunOps(d, ops).activeTransition) <= StepsLeft(d.activeTransition) <= 7
    ensures RunOps(d, ops).schemaVersion == d.schemaVersion
    decreases |ops|
  {
    hide ValidDocument;
    if ops != [] {
      if !ops[0].OpPrepareHandoff? { TransitionMoves(d, ops[0]); }
      NextIsValid(d, ops[0]);
      AtMostSevenSteps(Next(d, ops[0]), ops[1..]);
    }
  }

  // ---- history over runs ----------------------------------------------------------------------

  lemma StepKeepsHistory(d: Document, op: Op)
    requires ValidDocument(d)
    ensures HistoryKept(d.conversations, Next(d, op).conversations)
  {
    hide ValidDocument, EditOf;
    NextIs(d, op);
    if Next(d, op) != d {
      if IsHandoffOp(op) { HandoffOpMoves(d, op); } else { OrdinaryOpFrames(d, op); }
    }
  }

  /** Lineages are append-only over every run, and no thread is ever bound twice. */
  lemma {:induction false} RunKeepsHistory(d: Document, ops: seq<Op>)
    requires ValidDocument(d)
    ensures HistoryKept(d.conversations, RunOps(d, ops).conversations)
    ensures DistinctThreads(RunOps(d, ops).conversations)
    decreases |ops|
  {
    if ops != [] {
      StepKeepsHistory(d, ops[0]);
      RunKeepsHistory(Next(d, ops[0]), ops[1..]);
      HistoryChains(d.conversations, Next(d, ops[0]).conversations, RunOps(d, ops).conversations);
    }
  }

  // ---- the frozen workspace -------------------------------------------------------------------

  /** The same handoff, at this phase or a later one. */
  predicate SameHandoff(t: HandoffTransition, u: HandoffTransition) {
    && t.transitionId == u.transitionId && t.conversationId == u.conversationId && t.cwd == u.cwd
    && t.sourceGeneration == u.sourceGeneration && t.targetGeneration == u.targetGeneration
    && t.targetProfileId == u.targetProfileId
    && StepsLeft(Some(u)) <= StepsLeft(Some(t))
  }

  lemma StepFreezes(d: Document, op: Op)
    requires ValidDocument(d) && d.activeTransition.Some? && !op.OpAttach?
    ensures var t, e := d.activeTransition.value, Next(d, op);
            && e.activeTransition.Some? && SameHandoff(t, e.activeTransition.value)
            && (!op.OpCommit? ==> ConversationAt(e, t.conversationId) == ConversationAt(d, t.conversationId))
            && (!op.OpCommit? ==> HeadAt(e.workspaceHeads, Codex, t.cwd) == HeadAt(d.workspaceHeads, Codex, t.cwd))
            && (t.phase.CommittedUnattached? ==> SameFrozen(d, e, t) && e.activeTransition == d.activeTransition)
  {
    hide ValidDocument, EditOf;
    NextIs(d, op);
    if Next(d, op) != d {
      if IsHandoffOp(op) { HandoffOpMoves(d, op); } else { OrdinaryOpFrames(d, op); }
    }
  }

  /** Until a stored attachment, the transitioning head is its source, or its target once committed, in every run. */
  lemma {:induction false} WorkspaceStaysFrozen(d: Document, ops: seq<Op>)
    requires ValidDocument(d) && d.activeTransition.Some? && AllRefused(d, ops, Attachment)
    ensures var t, e := d.activeTransition.value, RunOps(d, ops);
            && e.activeTransition.Some? && SameHandoff(t, e.activeTransition.value)
            && HeadAt(e.workspaceHeads, Codex, t.cwd)
               == Some(ReadyHead(t.cwd, t.conversationId, ExpectedActive(e.activeTransition.value)))
            && !PendingAt(e.pendingLaunches, t.cwd)
    decreases |ops|
  {
    if ops != [] {
      if Next(d, ops[0]) != d { StepFreezes(d, ops[0]); }
      WorkspaceStaysFrozen(Next(d, ops[0]), ops[1..]);
    }
  }

  /** Without a stored commit the whole lineage of the workspace stays as it was when the handoff was prepared. */
  lemma {:induction false} OnlyCommitMovesHead(d: Document, ops: seq<Op>)
    requires ValidDocument(d) && d.activeTransition.Some? && AllRefused(d, ops, CommitOrAttachment)
    ensures var t, e := d.activeTransition.value, RunOps(d, ops);
            && ConversationAt(e, t.conversationId) == ConversationAt(d, t.conversationId)
            && HeadAt(e.workspaceHeads, Codex, t.cwd) == HeadAt(d.workspaceHeads, Codex, t.cwd)
    decreases |ops|
  {
    if ops != [] {
      if Next(d, ops[0]) != d { StepFreezes(d, ops[0]); }
      NextIsValid(d, ops[0]);
      OnlyCommitMovesHead(Next(d, ops[0]), ops[1..]);
    }
  }

  /** At the commit point only a stolen thread or a full lineage refuses; the head check always passes. */
  lemma CommitRefusesOnly(d: Document, id: Uuid, now: nat)
    requires ValidDocument(d) && ExactTransition(d, id, ForkObserved).Ok?
    ensures var t := d.activeTransition.value;
            var c := ConversationAt(d, t.conversationId);
            && c.Some? && t.observed.Some?
            && (CommitHandoff(d, id, now).Ok? <==>
                  !ThreadBound(d.conversations, t.observed.value.threadId)
                  && |c.value.generations| < MAX_LINEAGE_GENERATIONS)
            && HeadAt(d.workspaceHeads, Codex, t.cwd).Some?
            && CommitHeadCheck(HeadAt(d.workspaceHeads, Codex, t.cwd).value, t)
  {
    var k := FindConversation(d.conversations, d.activeTransition.value.conversationId);
    assert ValidConversation(d.conversations[k], false);
  }

  lemma {:induction false} CommittedStays(d: Document, ops: seq<Op>)
    requires ValidDocument(d) && d.activeTransition.Some?
    requires d.activeTransition.value.phase.CommittedUnattached? && AllRefused(d, ops, Attachment)
    ensures var t, e := d.activeTransition.value, RunOps(d, ops);
            e.activeTransition == d.activeTransition && SameFrozen(d, e, t)
    decreases |ops|
  {
    if ops != [] {
      if Next(d, ops[0]) != d { StepFreezes(d, ops[0]); }
      CommittedStays(Next(d, ops[0]), ops[1..]);
    }
  }

  /** What attaching resolves to is fixed by the committed transition and its lineage. */
  lemma AttachResolves(d: Document, id: Uuid)
    requires ValidDocument(d) && ExactTransition(d, id, CommittedUnattached).Ok?
    ensures var t := d.activeTransition.value;
            var c := ConversationAt(d, t.conversationId).value;
            && ConversationAt(d, t.conversationId).Some? && t.targetGeneration < |c.generations|
            && FinishAttachment(d, id)
               == Ok((d.(activeTransition := None), BindingOf(c, c.generations[t.targetGeneration])))
            && c.generations[t.targetGeneration].number == t.targetGeneration
  {
    var t := d.activeTransition.value;
    var c := d.conversations[FindConversation(d.conversations, t.conversationId)];
    assert ValidConversation(c, false);
    FindGenerationIs(c, false, t.targetGeneration);
  }

  /** Attachment after any interleaving succeeds and hands back exactly what commit handed back. */
  lemma AttachReturnsCommit(d: Document, id: Uuid, now: nat, ops: seq<Op>)
    requires ValidDocument(d) && d.schemaVersion == 2
    requires CommitHandoff(d, id, now).Ok? && Save(CommitHandoff(d, id, now).value.0).Ok?
    requires AllRefused(Save(CommitHandoff(d, id, now).value.0).value, ops, Attachment)
    ensures var committed := Save(CommitHandoff(d, id, now).value.0).value;
            var e := RunOps(committed, ops);
            && FinishAttachment(e, id).Ok?
            && FinishAttachment(e, id).value.1 == CommitHandoff(d, id, now).value.1
            && ValidDocument(FinishAttachment(e, id).value.0)
  {
    var committed := Save(CommitHandoff(d, id, now).value.0).value;
    var e := RunOps(committed, ops);
    CommitInstalls(d, id, now);
    CommittedStays(committed, ops);
    RunIsValid(committed, ops);
    AttachResolves(e, id);
    AttachIsValid(e, id);
  }

  /** What commit hands back is the binding of the generation it appended. */
  lemma CommitInstalls(d: Document, id: Uuid, now: nat)
    requires ValidDocument(d) && CommitHandoff(d, id, now).Ok?
    ensures var (e, head) := CommitHandoff(d, id, now).value;
            var u := e.activeTransition.value;
            var c := ConversationAt(e, u.conversationId);
            && e.activeTransition.Some? && u.transitionId == id && u.phase.CommittedUnattached?
            && c.Some? && u.targetGeneration < |c.value.generations|
            && BindingOf(c.value, c.value.generations[u.targetGeneration]) == head
  {
    var t := d.activeTransition.value;
    var k := FindConversation(d.conversations, t.conversationId);
    FindAfterUpdate(d.conversations, k, CommitHandoff(d, id, now).value.0.conversations[k], t.conversationId);
  }

  // ---- sticky selection -----------------------------------------------------------------------

  predicate NeedsChoice(d: Document, cwd: Cwd) {
    HeadAt(d.workspaceHeads, Codex, cwd).Some? && HeadAt(d.workspaceHeads, Codex, cwd).value.state == NeedsSelection
  }

  lemma MarkSticks(d: Document, marked: Cwd, cwd: Cwd)
    requires ValidDocument(d) && NeedsChoice(d, cwd)
    ensures NeedsChoice(MarkHead(d, marked), cwd)
  {
    MarkFrame(d, marked, Codex, cwd);
  }

  lemma FinishSticks(d: Document, id: Uuid, r: LaunchResolution, freshId: Uuid, now: nat, cwd: Cwd)
    requires ValidDocument(d) && NeedsChoice(d, cwd) && FinishLaunch(d, id, r, freshId, now).Ok?
    ensures NeedsChoice(FinishLaunch(d, id, r, freshId, now).value.0, cwd)
  {
    FinishShape(d, id, r, freshId, now);
    var k := FindLaunch(d.pendingLaunches, id);
    var rest, e := WithoutLaunch(d, k), FinishLaunch(d, id, r, freshId, now).value.0;
    RemoveIsOrdinary(d, k);
    OrdinaryIsValid(d, rest);
    if e == rest {
    } else if e == MarkHead(rest, d.pendingLaunches[k].cwd) {
      MarkSticks(rest, d.pendingLaunches[k].cwd, cwd);
    } else {
      var h := d.workspaceHeads[FindHead(d.workspaceHeads, Codex, cwd)];
      assert h.cwd == cwd && h.state == NeedsSelection;
      assert d.pendingLaunches[k].cwd != cwd;
      BindHeads(rest, r.binding, freshId, now, cwd);
    }
  }

  lemma AdoptSticks(d: Document, b: BindingInput, freshId: Uuid, now: nat, cwd: Cwd)
    requires ValidDocument(d) && NeedsChoice(d, cwd) && Adopt(d, b, freshId, now).Ok? && b.cwd != cwd
    ensures NeedsChoice(Adopt(d, b, freshId, now).value.0, cwd)
  {
    BindHeads(d, b, freshId, now, cwd);
  }

  lemma RefreshSticks(d: Document, x: HeadBinding, b: BindingInput, freshId: Uuid, now: nat, cwd: Cwd)
    requires ValidDocument(d) && NeedsChoice(d, cwd) && RefreshAdopted(d, x, b, freshId, now).Ok?
    ensures b.cwd != cwd && NeedsChoice(RefreshAdopted(d, x, b, freshId, now).value.0, cwd)
  {
    assert ResolveHead(d, cwd).Err?;
    BindHeads(d, b, freshId, now, cwd);
  }

  lemma OrdinarySticks(d: Document, op: Op, cwd: Cwd)
    requires ValidDocument(d) && NeedsChoice(d, cwd) && !IsHandoffOp(op) && EditOf(d, op).Ok?
    requires op.OpAdopt? ==> op.binding.cwd != cwd
    ensures NeedsChoice(EditOf(d, op).value, cwd)
  {
    hide ValidDocument, BindDocument, MarkHead, FinishLaunch;
    match op
    case OpBeginLaunch(_, at, _, _, _, _, _) => MarkSticks(d, at, cwd);
    case OpFinishLaunch(id, r, newId, now) => FinishSticks(d, id, r, newId, now, cwd);
    case OpAdopt(b, newId, now) => AdoptSticks(d, b, newId, now, cwd);
    case OpRefresh(x, b, newId, now) => RefreshSticks(d, x, b, newId, now, cwd);
    case OpMarkAmbiguous(at) => MarkSticks(d, at, cwd);
    case OpPrepareUntracked(_, at, _, _, _) => MarkSticks(d, at, cwd);
    case _ =>
  }

  lemma StepSticks(d: Document, op: Op, cwd: Cwd)
    requires ValidDocument(d) && NeedsChoice(d, cwd)
    requires op.OpAdopt? ==> op.binding.cwd != cwd
    ensures NeedsChoice(Next(d, op), cwd)
  {
    if Next(d, op) != d {
      NextIs(d, op);
      if IsHandoffOp(op) { HandoffSticks(d, op, cwd); } else { OrdinarySticks(d, op, cwd); }
    }
  }

  lemma HandoffSticks(d: Document, op: Op, cwd: Cwd)
    requires ValidDocument(d) && NeedsChoice(d, cwd) && IsHandoffOp(op) && Next(d, op) != d
    ensures NeedsChoice(Next(d, op), cwd)
  {
    hide ValidDocument, PrepareHandoff, CommitHandoff;
    NextIs(d, op);
    if op.OpPrepareHandoff? {
      MigrateKeepsValid(d);
      PrepareMoves(Migrate(d), op.preparation, op.id, op.now);
    } else if op.OpCommit? {
      MigrateKeepsValid(d);
      CommitSticks(Migrate(d), op.id, op.now, cwd);
    } else {
      RecordMoves(d, op);
    }
  }

  lemma CommitSticks(d: Document, id: Uuid, now: nat, cwd: Cwd)
    requires ValidDocument(d) && NeedsChoice(d, cwd) && CommitHandoff(d, id, now).Ok?
    ensures NeedsChoice(CommitHandoff(d, id, now).value.0, cwd)
  {
    var hs, hs' := d.workspaceHeads, CommitHandoff(d, id, now).value.0.workspaceHeads;
    var n := FindHead(hs, Codex, cwd);
    assert hs'[n] == hs[n] && hs'[n] in hs';
    HeadAtMember(hs', hs[n]);
  }

  /** A head that needs selection stays so over every run without a stored adoption in its directory. */
  lemma {:induction false} SelectionSticks(d: Document, ops: seq<Op>, cwd: Cwd)
    requires ValidDocument(d) && NeedsChoice(d, cwd) && AllRefused(d, ops, AdoptionIn(cwd))
    ensures NeedsChoice(RunOps(d, ops), cwd)
    decreases |ops|
  {
    if ops != [] {
      if Next(d, ops[0]) != d { StepSticks(d, ops[0], cwd); }
      SelectionSticks(Next(d, ops[0]), ops[1..], cwd);
    }
  }
}
