/** What one registry operation does to lineages and launches, and what the holder of a profile lease can rely on. */
module CaptureRely {
  import opened Prelude
  import opened ConversationModel
  import opened RegistryEdits
  import opened RegistryValidity
  import opened RegistryRuns

  // ---- the effect of one operation on the lineages --------------------------------------------

  function BindingOfOp(op: Op): Option<BindingInput> {
    if op.OpFinishLaunch? && op.resolution.Bind? then Some(op.resolution.binding)
    else if op.OpAdopt? || op.OpRefresh? then Some(op.binding)
    else None
  }

  /** The conversation's active generation is this thread of this profile in this directory. */
  predicate ActiveIs(c: Conversation, profile: Uuid, thread: Uuid, cwd: Cwd) {
    && c.activeGeneration < |c.generations|
    && var g := c.generations[c.activeGeneration];
    && g.profileId == profile && g.threadId == thread && g.cwd == cwd
  }

  /** A binding gives one active lineage its lifecycle, or starts a lineage of its own profile. */
  ghost predicate Rebound(cs: seq<Conversation>, es: seq<Conversation>, b: BindingInput) {
    || es == cs
    || (exists k :: 0 <= k < |cs| && ActiveIs(cs[k], b.profileId, b.threadId, b.cwd)
                    && es == cs[k := cs[k].(lifecycle := b.lifecycle)])
    || (exists c: Conversation :: es == cs + [c] && ActiveIs(c, b.profileId, b.threadId, b.cwd)
                                  && c.lifecycle == b.lifecycle)
  }

  lemma BindRebinds(d: Document, b: BindingInput, freshId: Uuid, now: nat)
    requires ValidConversations(d.conversations, d.schemaVersion == 1) && BindDocument(d, b, freshId, now).Ok?
    ensures Rebound(d.conversations, BindDocument(d, b, freshId, now).value.0.conversations, b)
  {
    var cs := d.conversations;
    var k := FindOwner(cs, b.profileId, b.threadId);
    if k < |cs| {
      var n := FindBound(cs[k].generations, b.profileId, b.threadId);
      assert ValidConversation(cs[k], d.schemaVersion == 1) && ValidGeneration(cs[k], n, d.schemaVersion == 1);
      assert ActiveIs(cs[k], b.profileId, b.threadId, b.cwd);
    } else {
      assert ActiveIs(FreshConversation(b, freshId, now), b.profileId, b.threadId, b.cwd);
    }
  }

  lemma FinishRebinds(d: Document, id: Uuid, r: LaunchResolution, freshId: Uuid, now: nat)
    requires ValidDocument(d) && FinishLaunch(d, id, r, freshId, now).Ok?
    ensures
      var k, e := FindLaunch(d.pendingLaunches, id), FinishLaunch(d, id, r, freshId, now).value.0;
      k < |d.pendingLaunches|
      && (e.conversations == d.conversations
          || (r.Bind? && r.binding.profileId == d.pendingLaunches[k].profileId
              && Rebound(d.conversations, e.conversations, r.binding)))
  {
    hide BindDocument, Rebound;
    var k := FindLaunch(d.pendingLaunches, id);
    if r.Bind? && BindDocument(WithoutLaunch(d, k), r.binding, freshId, now).Ok? {
      BindRebinds(WithoutLaunch(d, k), r.binding, freshId, now);
    }
  }

  /** Without a binding an ordinary operation changes no lineage; with one it only rebinds. */
  lemma OrdinaryRebinds(d: Document, op: Op)
    requires ValidDocument(d) && !IsHandoffOp(op) && EditOf(d, op).Ok?
    ensures
      var es := EditOf(d, op).value.conversations;
      es == d.conversations || (BindingOfOp(op).Some? && Rebound(d.conversations, es, BindingOfOp(op).value))
    ensures EditOf(d, op).value.conversations != d.conversations && op.OpFinishLaunch? ==>
              LaunchOwner(d, op.id) == Some(BindingOfOp(op).value.profileId)
  {
    hide BindDocument, Rebound, FinishLaunch, ValidDocument;
    match op
    case OpFinishLaunch(id, r, newId, now) => FinishRebinds(d, id, r, newId, now);
    case OpAdopt(b, newId, now) => BindOfValid(d, b, newId, now);
    case OpRefresh(_, b, newId, now) => BindOfValid(d, b, newId, now);
    case _ =>
  }

  lemma BindOfValid(d: Document, b: BindingInput, freshId: Uuid, now: nat)
    requires ValidDocument(d) && BindDocument(d, b, freshId, now).Ok?
    ensures Rebound(d.conversations, BindDocument(d, b, freshId, now).value.0.conversations, b)
  {
    hide Rebound, BindDocument;
    BindRebinds(d, b, freshId, now);
  }

  function LaunchOwner(d: Document, id: Uuid): Option<Uuid> {
    var k := FindLaunch(d.pendingLaunches, id);
    if k < |d.pendingLaunches| then Some(d.pendingLaunches[k].profileId) else None
  }

  // ---- handoff operations ---------------------------------------------------------------------

  /** The lifecycle and the active thread are the same. */
  predicate SameActive(c: Conversation, e: Conversation) {
    && e.lifecycle == c.lifecycle && e.activeGeneration == c.activeGeneration && |e.generations| == |c.generations|
    && forall g :: 0 <= g < |c.generations| ==> GenerationKept(c.generations[g], e.generations[g])
  }

  /** A commit leaves a lineage as it is, or interrupted with a generation of the target profile active. */
  predicate Handed(c: Conversation, e: Conversation, target: Uuid) {
    || SameActive(c, e)
    || (e.lifecycle == Interrupted && e.activeGeneration < |e.generations|
        && e.generations[e.activeGeneration].profileId == target)
  }

  lemma PrepareHands(d: Document, p: HandoffPreparation, id: Uuid, now: nat, i: nat)
    requires ValidDocument(d) && PrepareHandoff(d, p, id, now).Ok? && i < |d.conversations|
    ensures
      var es := PrepareHandoff(d, p, id, now).value.0.conversations;
      |es| == |d.conversations| && SameActive(d.conversations[i], es[i])
  {
    PrepareShape(d, p, id, now);
    var k := FindConversation(d.conversations, p.expectedSource.conversationId);
    var c := d.conversations[k];
    assert ValidConversation(c, d.schemaVersion == 1);
    assert ValidGeneration(c, c.activeGeneration, d.schemaVersion == 1);
  }

  lemma CommitHands(d: Document, id: Uuid, now: nat, i: nat)
    requires ValidDocument(d) && CommitHandoff(d, id, now).Ok? && i < |d.conversations|
    ensures
      var es := CommitHandoff(d, id, now).value.0.conversations;
      d.activeTransition.Some? && |es| == |d.conversations|
      && Handed(d.conversations[i], es[i], d.activeTransition.value.targetProfileId)
  {
    var t := d.activeTransition.value;
    var k := FindConversation(d.conversations, t.conversationId);
    assert ValidConversation(d.conversations[k], d.schemaVersion == 1);
    assert t.sourceGeneration == |d.conversations[k].generations| - 1;
  }

  lemma HandoffHands(d: Document, op: Op, i: nat)
    requires ValidDocument(d) && IsHandoffOp(op) && Next(d, op) != d && i < |d.conversations|
    ensures |Next(d, op).conversations| == |d.conversations|
    ensures op.OpCommit? ==>
              d.activeTransition.Some?
              && Handed(d.conversations[i], Next(d, op).conversations[i], d.activeTransition.value.targetProfileId)
    ensures !op.OpCommit? ==> SameActive(d.conversations[i], Next(d, op).conversations[i])
  {
    hide PrepareHandoff, CommitHandoff, ValidDocument;
    NextIs(d, op);
    MigrateKeepsValid(d);
    HandoffOpMoves(d, op);
    if op.OpPrepareHandoff? {
      PrepareHands(Migrate(d), op.preparation, op.id, op.now, i);
    } else if op.OpCommit? {
      CommitHands(Migrate(d), op.id, op.now, i);
    }
  }

  // ---- clearing uncertainty -------------------------------------------------------------------

  predicate Uncertain(l: Lifecycle) {
    l == Interrupted || l == UnknownCrash
  }

  /** Some lineage goes from interrupted or unknown crash to clean. */
  ghost predicate Clears(cs: seq<Conversation>, es: seq<Conversation>) {
    exists i :: 0 <= i < |cs| && i < |es| && Uncertain(cs[i].lifecycle) && es[i].lifecycle == Clean
  }

  /** No uncertain lineage has this thread as its active generation. */
  ghost predicate SafeToClean(cs: seq<Conversation>, profile: Uuid, thread: Uuid, cwd: Cwd) {
    forall i :: 0 <= i < |cs| && ActiveIs(cs[i], profile, thread, cwd) ==> !Uncertain(cs[i].lifecycle)
  }

  lemma ReboundClears(cs: seq<Conversation>, es: seq<Conversation>, b: BindingInput)
    requires Rebound(cs, es, b) && Clears(cs, es)
    ensures b.lifecycle == Clean && !SafeToClean(cs, b.profileId, b.threadId, b.cwd)
  {
  }

  /** Uncertainty is cleared only by binding the uncertain lineage's own active thread as clean. */
  lemma OnlyCleanBindingClears(d: Document, op: Op)
    requires ValidDocument(d) && Clears(d.conversations, Next(d, op).conversations)
    ensures BindingOfOp(op).Some? && BindingOfOp(op).value.lifecycle == Clean
    ensures
      var b := BindingOfOp(op).value;
      !SafeToClean(d.conversations, b.profileId, b.threadId, b.cwd)
  {
    hide ValidDocument, EditOf, Rebound, SafeToClean;
    NextIs(d, op);
    if IsHandoffOp(op) {
      var i :| 0 <= i < |d.conversations| && i < |Next(d, op).conversations|
               && Uncertain(d.conversations[i].lifecycle) && Next(d, op).conversations[i].lifecycle == Clean;
      HandoffHands(d, op, i);
    } else {
      OrdinaryRebinds(d, op);
      if BindingOfOp(op).Some? && Rebound(d.conversations, Next(d, op).conversations, BindingOfOp(op).value) {
        ReboundClears(d.conversations, Next(d, op).conversations, BindingOfOp(op).value);
      }
    }
  }

  // ---- operations of processes that do not hold the lease -------------------------------------

  /** An operation by a process without this profile's lease: it touches no launch of the profile, binds no thread of
      it and commits no handoff to it. */
  predicate OtherOp(d: Document, op: Op, profile: Uuid) {
    match op
    case OpBeginLaunch(p, _, _, _, _, _, _) => p != profile
    case OpPrepareUntracked(p, _, _, _, _) => p != profile
    case OpProviderStarted(id) => LaunchOwner(d, id) != Some(profile)
    case OpCaptureFailed(id) => LaunchOwner(d, id) != Some(profile)
    case OpFinishLaunch(id, _, _, _) => LaunchOwner(d, id) != Some(profile)
    case OpAdopt(b, _, _) => b.profileId != profile
    case OpRefresh(_, b, _, _) => b.profileId != profile
    case OpCommit(_, _) => d.activeTransition.Some? ==> d.activeTransition.value.targetProfileId != profile
    case _ => true
  }

  /** Others' operations in turn. What the lease excludes does not happen. */
  ghost function RunOthers(d: Document, ops: seq<Op>, profile: Uuid): Document
    decreases |ops|
  {
    if ops == [] then d
    else RunOthers(if OtherOp(d, ops[0], profile) then Next(d, ops[0]) else d, ops[1..], profile)
  }

  lemma ReboundKeepsSafe(cs: seq<Conversation>, es: seq<Conversation>, b: BindingInput, profile: Uuid, thread: Uuid,
                         cwd: Cwd)
    requires Rebound(cs, es, b) && SafeToClean(cs, profile, thread, cwd)
    requires b.profileId != profile || b.lifecycle == Clean
    ensures SafeToClean(es, profile, thread, cwd)
  {
    forall i | 0 <= i < |es| && ActiveIs(es[i], profile, thread, cwd) ensures !Uncertain(es[i].lifecycle) {
      assert i < |cs| && es[i] == cs[i] ==> !Uncertain(cs[i].lifecycle);
    }
  }

  lemma OtherKeepsSafe(d: Document, op: Op, profile: Uuid, thread: Uuid, cwd: Cwd)
    requires ValidDocument(d) && OtherOp(d, op, profile) && SafeToClean(d.conversations, profile, thread, cwd)
    ensures SafeToClean(Next(d, op).conversations, profile, thread, cwd)
  {
    hide ValidDocument, EditOf, Rebound, LaunchOwner;
    NextIs(d, op);
    var cs, es := d.conversations, Next(d, op).conversations;
    if Next(d, op) != d {
      if IsHandoffOp(op) {
        forall i | 0 <= i < |es| && ActiveIs(es[i], profile, thread, cwd) ensures !Uncertain(es[i].lifecycle) {
          if |cs| == 0 { HandoffOpMoves(d, op); HandoffCount(d, op); }
          if i < |cs| { HandoffHands(d, op, i); } else { HandoffCount(d, op); }
        }
      } else {
        OrdinaryRebinds(d, op);
        if es != cs {
          ReboundKeepsSafe(cs, es, BindingOfOp(op).value, profile, thread, cwd);
        }
      }
    }
  }

  lemma {:induction false} OthersKeepSafe(d: Document, ops: seq<Op>, profile: Uuid, thread: Uuid, cwd: Cwd)
    requires ValidDocument(d) && SafeToClean(d.conversations, profile, thread, cwd)
    ensures SafeToClean(RunOthers(d, ops, profile).conversations, profile, thread, cwd)
    decreases |ops|
  {
    hide ValidDocument, Next, OtherOp;
    if ops != [] {
      if OtherOp(d, ops[0], profile) {
        OtherKeepsSafe(d, ops[0], profile, thread, cwd);
        NextIsValid(d, ops[0]);
        OthersKeepSafe(Next(d, ops[0]), ops[1..], profile, thread, cwd);
      } else {
        OthersKeepSafe(d, ops[1..], profile, thread, cwd);
      }
    }
  }

  lemma {:induction false} OthersKeepValid(d: Document, ops: seq<Op>, profile: Uuid)
    requires ValidDocument(d)
    ensures ValidDocument(RunOthers(d, ops, profile))
    decreases |ops|
  {
    hide ValidDocument, Next, OtherOp;
    if ops != [] {
      NextIsValid(d, ops[0]);
      OthersKeepValid(if OtherOp(d, ops[0], profile) then Next(d, ops[0]) else d, ops[1..], profile);
    }
  }

  lemma HandoffCount(d: Document, op: Op)
    requires ValidDocument(d) && IsHandoffOp(op) && Next(d, op) != d
    ensures |Next(d, op).conversations| == |d.conversations|
  {
    hide PrepareHandoff, CommitHandoff, ValidDocument;
    NextIs(d, op);
    MigrateKeepsValid(d);
    if op.OpPrepareHandoff? {
      PrepareCount(Migrate(d), op.preparation, op.id, op.now);
    } else if op.OpCommit? {
      CommitCount(Migrate(d), op.id, op.now);
    } else {
      HandoffOpMoves(d, op);
    }
  }

  lemma PrepareCount(d: Document, p: HandoffPreparation, id: Uuid, now: nat)
    requires PrepareHandoff(d, p, id, now).Ok?
    ensures |PrepareHandoff(d, p, id, now).value.0.conversations| == |d.conversations|
  {
  }

  lemma CommitCount(d: Document, id: Uuid, now: nat)
    requires CommitHandoff(d, id, now).Ok?
    ensures |CommitHandoff(d, id, now).value.0.conversations| == |d.conversations|
  {
  }

  // ---- launches -------------------------------------------------------------------------------

  /** The same launches of this profile are pending. */
  ghost predicate SameLaunches(d: Document, e: Document, profile: Uuid) {
    forall p: PendingLaunch :: p.profileId == profile ==> (p in d.pendingLaunches <==> p in e.pendingLaunches)
  }

  lemma OnlyLaunch(d: Document, id: Uuid, p: PendingLaunch)
    requires ValidPendings(d.pendingLaunches) && p in d.pendingLaunches && p.launchId == id
    ensures FindLaunch(d.pendingLaunches, id) < |d.pendingLaunches|
    ensures d.pendingLaunches[FindLaunch(d.pendingLaunches, id)] == p
  {
    var i :| 0 <= i < |d.pendingLaunches| && d.pendingLaunches[i] == p;
  }

  /** An operation on one launch keeps every other launch. */
  lemma LaunchEditKeeps(d: Document, k: nat, q: PendingLaunch, p: PendingLaunch)
    requires k < |d.pendingLaunches| && d.pendingLaunches[k].profileId != p.profileId && q.profileId != p.profileId
    ensures
      var ps := d.pendingLaunches;
      && (p in ps <==> p in ps[k := q]) && (p in ps <==> p in ps[..k] + ps[k + 1..])
  {
    var ps := d.pendingLaunches;
    if p in ps {
      var i :| 0 <= i < |ps| && ps[i] == p;
      assert ps[k := q][i] == p;
      assert if i < k then (ps[..k] + ps[k + 1..])[i] == p else (ps[..k] + ps[k + 1..])[i - 1] == p;
    }
  }

  lemma FinishLaunches(d: Document, id: Uuid, r: LaunchResolution, freshId: Uuid, now: nat)
    requires FinishLaunch(d, id, r, freshId, now).Ok?
    ensures
      var k := FindLaunch(d.pendingLaunches, id);
      k < |d.pendingLaunches|
      && FinishLaunch(d, id, r, freshId, now).value.0.pendingLaunches == WithoutLaunch(d, k).pendingLaunches
  {
    hide FinishLaunch, BindDocument;
    FinishShape(d, id, r, freshId, now);
    if r.Bind? { BindKeepsLaunches(WithoutLaunch(d, FindLaunch(d.pendingLaunches, id)), r.binding, freshId, now); }
  }

  lemma OtherKeepsLaunches(d: Document, op: Op, profile: Uuid)
    requires OtherOp(d, op, profile)
    ensures SameLaunches(d, Next(d, op), profile)
  {
    hide FinishLaunch, BindDocument, MarkHead, PrepareHandoff, CommitHandoff, ObserveTarget, ValidDocument;
    NextIs(d, op);
    if Next(d, op) != d {
      forall p: PendingLaunch | p.profileId == profile
        ensures p in d.pendingLaunches <==> p in Next(d, op).pendingLaunches
      {
        OtherKeepsLaunch(d, op, profile, p);
      }
    }
  }

  lemma OtherKeepsLaunch(d: Document, op: Op, profile: Uuid, p: PendingLaunch)
    requires OtherOp(d, op, profile) && EditOf(d, op).Ok? && p.profileId == profile
    ensures p in d.pendingLaunches <==> p in EditOf(d, op).value.pendingLaunches
  {
    hide FinishLaunch, BindDocument, PrepareHandoff, CommitHandoff, ObserveTarget, RecordForkIntent, RecordForkRetry,
         FinishAttachment, NormalizeInventory;
    match op
    case OpFinishLaunch(id, r, newId, now) =>
      FinishLaunches(d, id, r, newId, now);
      var k := FindLaunch(d.pendingLaunches, id);
      LaunchEditKeeps(d, k, d.pendingLaunches[k], p);
    case OpProviderStarted(id) =>
      var k := FindLaunch(d.pendingLaunches, id);
      LaunchEditKeeps(d, k, d.pendingLaunches[k].(phase := ProviderStarted), p);
    case OpCaptureFailed(id) =>
      var k := FindLaunch(d.pendingLaunches, id);
      LaunchEditKeeps(d, k, d.pendingLaunches[k].(phase := CaptureFailed), p);
    case OpAdopt(b, newId, now) => BindKeepsLaunches(d, b, newId, now);
    case OpRefresh(_, b, newId, now) => BindKeepsLaunches(d, b, newId, now);
    case _ => if IsHandoffOp(op) { HandoffKeepsLaunches(d, op); }
  }

  lemma HandoffKeepsLaunches(d: Document, op: Op)
    requires IsHandoffOp(op) && EditOf(d, op).Ok?
    ensures EditOf(d, op).value.pendingLaunches == d.pendingLaunches
  {
    hide ValidRollout, FindConversation, FindGeneration, FindHead, ThreadBound, CanonicalBaseline,
         ResolveHead, ExactTransition;
  }

  lemma BindKeepsLaunches(d: Document, b: BindingInput, freshId: Uuid, now: nat)
    ensures BindDocument(d, b, freshId, now).Ok? ==>
              BindDocument(d, b, freshId, now).value.0.pendingLaunches == d.pendingLaunches
  {
  }

  lemma {:induction false} OthersKeepLaunches(d: Document, ops: seq<Op>, profile: Uuid)
    ensures SameLaunches(d, RunOthers(d, ops, profile), profile)
    decreases |ops|
  {
    hide Next, OtherOp;
    if ops != [] {
      var e := if OtherOp(d, ops[0], profile) then Next(d, ops[0]) else d;
      if OtherOp(d, ops[0], profile) { OtherKeepsLaunches(d, ops[0], profile); }
      OthersKeepLaunches(e, ops[1..], profile);
    }
  }
}
