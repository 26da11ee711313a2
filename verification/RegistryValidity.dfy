/** Every edit the registry makes to a valid document passes the validator that guards saving it. */
module RegistryValidity {
  import opened Prelude
  import Sorting
  import opened ConversationModel
  import opened RegistryEdits

  // ---- conversations --------------------------------------------------------------------------

  predicate SameThreads(a: seq<Generation>, b: seq<Generation>) {
    |a| == |b| && forall g :: 0 <= g < |a| ==> a[g].threadId == b[g].threadId
  }

  lemma FindAfterUpdate(cs: seq<Conversation>, k: nat, c: Conversation, id: Uuid)
    requires k < |cs| && c.conversationId == cs[k].conversationId
    ensures FindConversation(cs[k := c], id) == FindConversation(cs, id)
  {
    assert forall i :: 0 <= i < |cs| ==> cs[k := c][i].conversationId == cs[i].conversationId;
  }

  lemma FindAfterPush(cs: seq<Conversation>, c: Conversation, id: Uuid)
    ensures FindConversation(cs, id) < |cs| ==> FindConversation(cs + [c], id) == FindConversation(cs, id)
    ensures FindConversation(cs, id) == |cs| && c.conversationId == id ==> FindConversation(cs + [c], id) == |cs|
  {
    var a, b := FindConversation(cs + [c], id), FindConversation(cs, id);
    if b < |cs| { assert (cs + [c])[b].conversationId == id; }
    if c.conversationId == id { assert (cs + [c])[|cs|].conversationId == id; }
  }

  lemma FindOfDistinct(cs: seq<Conversation>, k: nat)
    requires DistinctIds(cs) && k < |cs|
    ensures FindConversation(cs, cs[k].conversationId) == k
  {
  }

  lemma FindGenerationIs(c: Conversation, v1: bool, n: nat)
    requires ValidConversation(c, v1)
    ensures FindGeneration(c.generations, n) == if n < |c.generations| then n else |c.generations|
  {
    forall k | 0 <= k < |c.generations| ensures c.generations[k].number == k {
      assert ValidGeneration(c, k, v1);
    }
    if n < |c.generations| { assert c.generations[n].number == n; }
  }

  lemma SameThreadsApart(a: Conversation, b: Conversation, other: Conversation)
    requires SameThreads(a.generations, b.generations)
    ensures ThreadsApart(a, other) ==> ThreadsApart(b, other)
    ensures ThreadsApart(other, a) ==> ThreadsApart(other, b)
  {
    forall t ensures HasThread(a, t) == HasThread(b, t) {
      if HasThread(a, t) {
        var g :| 0 <= g < |a.generations| && a.generations[g].threadId == t;
        assert b.generations[g].threadId == t;
      }
      if HasThread(b, t) {
        var g :| 0 <= g < |b.generations| && b.generations[g].threadId == t;
        assert a.generations[g].threadId == t;
      }
    }
  }

  lemma UpdateKeepsConversations(cs: seq<Conversation>, k: nat, c: Conversation, v1: bool)
    requires ValidConversations(cs, v1) && k < |cs|
    requires ValidConversation(c, v1) && c.conversationId == cs[k].conversationId
    requires SameThreads(c.generations, cs[k].generations)
    ensures ValidConversations(cs[k := c], v1)
  {
    var cs' := cs[k := c];
    forall i, j | 0 <= i < j < |cs| ensures ThreadsApart(cs'[i], cs'[j]) {
      assert ThreadsApart(cs[i], cs[j]);
      SameThreadsApart(cs[k], c, cs[if i == k then j else i]);
    }
  }

  lemma PushKeepsConversations(cs: seq<Conversation>, c: Conversation, v1: bool)
    requires ValidConversations(cs, v1) && ValidConversation(c, v1)
    requires |c.generations| == 1 && !ThreadBound(cs, c.generations[0].threadId)
    requires FindConversation(cs, c.conversationId) == |cs|
    ensures ValidConversations(cs + [c], v1)
  {
    hide ValidConversation;
    forall i | 0 <= i < |cs| ensures ThreadsApart(cs[i], c) {
      assert !HasThread(cs[i], c.generations[0].threadId);
      OneThread(c, cs[i]);
    }
    assert OwnThreadsDistinct(c);
    PushKeepsThreads(cs, c);
  }

  lemma OneThread(c: Conversation, e: Conversation)
    requires |c.generations| == 1 && !HasThread(e, c.generations[0].threadId)
    ensures ThreadsApart(e, c)
  {
  }

  lemma PushKeepsThreads(cs: seq<Conversation>, c: Conversation)
    requires DistinctThreads(cs) && OwnThreadsDistinct(c)
    requires forall i :: 0 <= i < |cs| ==> ThreadsApart(cs[i], c)
    ensures DistinctThreads(cs + [c])
  {
    hide ThreadsApart, OwnThreadsDistinct;
  }

  /** Growing one lineage by a thread bound nowhere keeps all threads distinct. */
  lemma GrowKeepsConversations(cs: seq<Conversation>, k: nat, c: Conversation, v1: bool)
    requires ValidConversations(cs, v1) && k < |cs|
    requires ValidConversation(c, v1) && c.conversationId == cs[k].conversationId
    requires |c.generations| == |cs[k].generations| + 1 && c.generations[..|cs[k].generations|] == cs[k].generations
    requires !ThreadBound(cs, c.generations[|c.generations| - 1].threadId)
    ensures ValidConversations(cs[k := c], v1)
  {
    var cs' := cs[k := c];
    var last := |c.generations| - 1;
    var thread := c.generations[last].threadId;
    forall g | 0 <= g < last ensures c.generations[g] == cs[k].generations[g] {
      assert c.generations[..last][g] == cs[k].generations[g];
    }
    assert !HasThread(cs[k], thread);
    forall t ensures HasThread(c, t) == (HasThread(cs[k], t) || t == thread) {
      if HasThread(cs[k], t) {
        var g :| 0 <= g < last && cs[k].generations[g].threadId == t;
        assert c.generations[g].threadId == t;
      }
    }
    forall i, j | 0 <= i < j < |cs| ensures ThreadsApart(cs'[i], cs'[j]) {
      assert ThreadsApart(cs[i], cs[j]);
      assert !HasThread(cs[i], thread) && !HasThread(cs[j], thread);
    }
  }

  // ---- heads ----------------------------------------------------------------------------------

  /** A change of one conversation that no ready head can notice. */
  predicate SameTarget(a: Conversation, b: Conversation) {
    && a.conversationId == b.conversationId && a.provider == b.provider
    && a.activeGeneration == b.activeGeneration
    && (a.activeGeneration < |a.generations| ==>
          b.activeGeneration < |b.generations| &&
          a.generations[a.activeGeneration].cwd == b.generations[b.activeGeneration].cwd)
  }

  lemma UpdateKeepsHeads(cs: seq<Conversation>, k: nat, c: Conversation, hs: seq<WorkspaceHead>)
    requires ValidHeads(cs, hs) && k < |cs| && SameTarget(cs[k], c)
    ensures ValidHeads(cs[k := c], hs)
  {
    forall i | 0 <= i < |hs| ensures ValidHead(cs[k := c], hs[i]) {
      if hs[i].state.Ready? && hs[i].conversationId.Some? {
        FindAfterUpdate(cs, k, c, hs[i].conversationId.value);
      }
    }
  }

  lemma PushKeepsHeads(cs: seq<Conversation>, c: Conversation, hs: seq<WorkspaceHead>)
    requires ValidHeads(cs, hs)
    ensures ValidHeads(cs + [c], hs)
  {
    forall i | 0 <= i < |hs| ensures ValidHead(cs + [c], hs[i]) {
      if hs[i].state.Ready? && hs[i].conversationId.Some? {
        FindAfterPush(cs, c, hs[i].conversationId.value);
      }
    }
  }

  lemma {:induction false} OtherHeadsAre(hs: seq<WorkspaceHead>, cwd: Cwd)
    requires DistinctHeads(hs)
    ensures DistinctHeads(OtherHeads(hs, cwd))
    ensures forall h :: h in OtherHeads(hs, cwd) <==> h in hs && !(h.provider == Codex && h.cwd == cwd)
  {
    if hs != [] {
      OtherHeadsAre(hs[1..], cwd);
      assert hs == [hs[0]] + hs[1..];
      var rest := OtherHeads(hs[1..], cwd);
      forall i | 0 <= i < |rest| ensures !(rest[i].provider == hs[0].provider && rest[i].cwd == hs[0].cwd) {
        assert rest[i] in rest;
        var j :| 0 <= j < |hs[1..]| && hs[1..][j] == rest[i];
        assert hs[j + 1] == rest[i];
      }
    }
  }

  /** The head found for a directory, as a value. */
  function HeadAt(hs: seq<WorkspaceHead>, p: Provider, cwd: Cwd): Option<WorkspaceHead> {
    var k := FindHead(hs, p, cwd);
    if k < |hs| then Some(hs[k]) else None
  }

  lemma HeadAtMember(hs: seq<WorkspaceHead>, h: WorkspaceHead)
    requires DistinctHeads(hs) && h in hs
    ensures HeadAt(hs, h.provider, h.cwd) == Some(h)
  {
  }

  lemma InstallDistinct(hs: seq<WorkspaceHead>, h: WorkspaceHead)
    requires DistinctHeads(hs) && h.provider == Codex
    ensures DistinctHeads(OtherHeads(hs, h.cwd) + [h])
  {
    OtherHeadsAre(hs, h.cwd);
    var rest := OtherHeads(hs, h.cwd);
    forall i | 0 <= i < |rest| ensures !(rest[i].provider == Codex && rest[i].cwd == h.cwd) {
      assert rest[i] in rest;
    }
  }

  /** Installing a head changes what is found for its own directory and nothing else. */
  lemma InstallFrame(hs: seq<WorkspaceHead>, h: WorkspaceHead, p: Provider, c: Cwd)
    requires DistinctHeads(hs) && h.provider == Codex
    ensures HeadAt(OtherHeads(hs, h.cwd) + [h], p, c)
            == if p == Codex && c == h.cwd then Some(h) else HeadAt(hs, p, c)
  {
    InstallDistinct(hs, h);
    OtherHeadsAre(hs, h.cwd);
    var rest := OtherHeads(hs, h.cwd);
    var hs' := rest + [h];
    assert h in hs';
    HeadAtMember(hs', h);
    if !(p == Codex && c == h.cwd) {
      if HeadAt(hs, p, c).Some? {
        var x := HeadAt(hs, p, c).value;
        assert x in hs && x in rest && x in hs';
        HeadAtMember(hs', x);
      }
      if HeadAt(hs', p, c).Some? {
        var x := HeadAt(hs', p, c).value;
        assert x in rest && x in hs;
        HeadAtMember(hs, x);
      }
    }
  }

  lemma InstallKeepsHeads(cs: seq<Conversation>, hs: seq<WorkspaceHead>, h: WorkspaceHead)
    requires ValidHeads(cs, hs) && ValidHead(cs, h) && h.provider == Codex
    ensures ValidHeads(cs, OtherHeads(hs, h.cwd) + [h])
  {
    OtherHeadsAre(hs, h.cwd);
    InstallDistinct(hs, h);
    var rest := OtherHeads(hs, h.cwd);
    forall i | 0 <= i < |rest| ensures ValidHead(cs, rest[i]) {
      assert rest[i] in rest;
    }
  }

  lemma MarkKeepsHeads(d: Document, cwd: Cwd)
    requires ValidHeads(d.conversations, d.workspaceHeads)
    ensures ValidHeads(d.conversations, MarkHead(d, cwd).workspaceHeads)
  {
  }

  lemma MarkFrame(d: Document, cwd: Cwd, p: Provider, c: Cwd)
    requires DistinctHeads(d.workspaceHeads)
    ensures p == Codex && c == cwd ==>
              var marked := HeadAt(MarkHead(d, cwd).workspaceHeads, p, c);
              marked.Some? && marked.value.state == NeedsSelection
    ensures !(p == Codex && c == cwd) ==>
              HeadAt(MarkHead(d, cwd).workspaceHeads, p, c) == HeadAt(d.workspaceHeads, p, c)
  {
    var hs, hs' := d.workspaceHeads, MarkHead(d, cwd).workspaceHeads;
    var k := FindHead(hs, Codex, cwd);
    assert DistinctHeads(hs');
    assert hs'[k] in hs';
    HeadAtMember(hs', hs'[k]);
    if !(p == Codex && c == cwd) {
      var n, m := FindHead(hs, p, c), FindHead(hs', p, c);
      if n < |hs| {
        assert hs'[n] == hs[n] && hs'[n] in hs';
        HeadAtMember(hs', hs[n]);
      }
      if m < |hs'| {
        assert m != k && m < |hs| && hs'[m] == hs[m] && hs[m] in hs;
        HeadAtMember(hs, hs[m]);
      }
    }
  }

  // ---- frozen workspaces ----------------------------------------------------------------------

  function ConversationAt(d: Document, id: Uuid): Option<Conversation> {
    var k := FindConversation(d.conversations, id);
    if k < |d.conversations| then Some(d.conversations[k]) else None
  }

  /** What a transition depends on: its lineage, its head and the absence of launches. */
  predicate SameFrozen(d: Document, e: Document, t: HandoffTransition) {
    && ConversationAt(d, t.conversationId) == ConversationAt(e, t.conversationId)
    && HeadAt(d.workspaceHeads, Codex, t.cwd) == HeadAt(e.workspaceHeads, Codex, t.cwd)
    && (PendingAt(e.pendingLaunches, t.cwd) ==> PendingAt(d.pendingLaunches, t.cwd))
  }

  lemma FrozenKeepsTransition(d: Document, e: Document, t: HandoffTransition)
    requires ValidTransition(d, t) && SameFrozen(d, e, t)
    ensures ValidTransition(e, t)
  {
  }

  /** An ordinary edit: same schema and transition, valid parts, and any transition left frozen. */
  ghost predicate OrdinaryEdit(d: Document, e: Document) {
    && e.schemaVersion == d.schemaVersion && e.revision == d.revision
    && e.preMigrationBackup == d.preMigrationBackup && e.activeTransition == d.activeTransition
    && ValidContents(e, d.schemaVersion == 1)
    && (d.activeTransition.Some? ==> SameFrozen(d, e, d.activeTransition.value))
  }

  lemma OrdinaryIsValid(d: Document, e: Document)
    requires ValidDocument(d) && OrdinaryEdit(d, e)
    ensures ValidDocument(e)
  {
    if d.activeTransition.Some? { FrozenKeepsTransition(d, e, d.activeTransition.value); }
  }

  lemma MarkIsOrdinary(d: Document, cwd: Cwd)
    requires ValidDocument(d) && !Transitioning(d, cwd)
    ensures OrdinaryEdit(d, MarkHead(d, cwd))
  {
    MarkKeepsHeads(d, cwd);
    if d.activeTransition.Some? { MarkFrame(d, cwd, Codex, d.activeTransition.value.cwd); }
  }

  // ---- binding --------------------------------------------------------------------------------

  lemma OwnerIsUnbound(cs: seq<Conversation>, profile: Uuid, thread: Uuid)
    requires FindOwner(cs, profile, thread) == |cs| && !BoundElsewhere(cs, profile, thread)
    ensures !ThreadBound(cs, thread)
  {
    forall i, g | 0 <= i < |cs| && 0 <= g < |cs[i].generations|
      ensures cs[i].generations[g].threadId != thread
    {
      assert FindBound(cs[i].generations, profile, thread) == |cs[i].generations|;
    }
  }

  lemma RebindIsOrdinary(d: Document, k: nat, n: nat, b: BindingInput)
    requires ValidDocument(d) && k < |d.conversations| && n < |d.conversations[k].generations|
    requires n == d.conversations[k].activeGeneration && d.conversations[k].generations[n].cwd == b.cwd
    requires Usable(b.lifecycle) && !Transitioning(d, b.cwd)
    ensures OrdinaryEdit(d, InstallHead(d.(conversations := d.conversations[k := d.conversations[k].(lifecycle := b.lifecycle)]),
                                        b, d.conversations[k].conversationId, n).0)
  {
    var v1, cs, c := d.schemaVersion == 1, d.conversations, d.conversations[k];
    var c' := c.(lifecycle := b.lifecycle);
    assert ValidConversation(c, v1);
    forall g | 0 <= g < |c.generations| ensures ValidGeneration(c', g, v1) {
      assert ValidGeneration(c, g, v1);
    }
    UpdateKeepsConversations(cs, k, c', v1);
    UpdateKeepsHeads(cs, k, c', d.workspaceHeads);
    FindOfDistinct(cs[k := c'], k);
    InstallKeepsHeads(cs[k := c'], d.workspaceHeads, ReadyHead(b.cwd, c.conversationId, n));
    if d.activeTransition.Some? {
      BoundIsNotFrozen(d, k, c', n, b.cwd);
      InstallFrame(d.workspaceHeads, ReadyHead(b.cwd, c.conversationId, n), Codex, d.activeTransition.value.cwd);
    }
  }

  lemma FirstBindIsOrdinary(d: Document, b: BindingInput, freshId: Uuid, now: nat)
    requires ValidDocument(d) && !ThreadBound(d.conversations, b.threadId)
    requires CheckBindingInput(b).None? && !Transitioning(d, b.cwd)
    requires FindConversation(d.conversations, freshId) == |d.conversations|
    ensures OrdinaryEdit(d, InstallHead(d.(conversations := d.conversations + [FreshConversation(b, freshId, now)]),
                                        b, freshId, 0).0)
  {
    hide ValidPendings, HasThread, TransitionLineageOk, TransitionRecordOk, TransitionHeadOk, ObservedOk, ValidRollout;
    var v1, cs, c := d.schemaVersion == 1, d.conversations, FreshConversation(b, freshId, now);
    assert ValidGeneration(c, 0, v1);
    PushKeepsConversations(cs, c, v1);
    PushKeepsHeads(cs, c, d.workspaceHeads);
    FindAfterPush(cs, c, freshId);
    InstallKeepsHeads(cs + [c], d.workspaceHeads, ReadyHead(b.cwd, freshId, 0));
    if d.activeTransition.Some? {
      FindAfterPush(cs, c, d.activeTransition.value.conversationId);
      InstallFrame(d.workspaceHeads, ReadyHead(b.cwd, freshId, 0), Codex, d.activeTransition.value.cwd);
    }
  }

  /** The id given for a lineage is not in use, unless no lineage has to be started. */
  predicate LineageFresh(d: Document, b: BindingInput, id: Uuid) {
    ThreadBound(d.conversations, b.threadId) || FindConversation(d.conversations, id) == |d.conversations|
  }

  lemma BindIsOrdinary(d: Document, b: BindingInput, freshId: Uuid, now: nat)
    requires ValidDocument(d) && BindDocument(d, b, freshId, now).Ok? && LineageFresh(d, b, freshId)
    ensures OrdinaryEdit(d, BindDocument(d, b, freshId, now).value.0)
  {
    var k := FindOwner(d.conversations, b.profileId, b.threadId);
    if k < |d.conversations| {
      var c := d.conversations[k];
      var n := FindBound(c.generations, b.profileId, b.threadId);
      assert ValidConversation(c, d.schemaVersion == 1) && ValidGeneration(c, n, d.schemaVersion == 1);
      RebindIsOrdinary(d, k, n, b);
    } else {
      OwnerIsUnbound(d.conversations, b.profileId, b.threadId);
      FirstBindIsOrdinary(d, b, freshId, now);
    }
  }

  /** A lineage rooted in another directory is never the transitioning one. */
  lemma BoundIsNotFrozen(d: Document, k: nat, c: Conversation, n: nat, cwd: Cwd)
    requires ValidDocument(d) && d.activeTransition.Some? && k < |d.conversations|
    requires c.conversationId == d.conversations[k].conversationId
    requires n < |d.conversations[k].generations| && d.conversations[k].generations[n].cwd == cwd
    requires d.activeTransition.value.cwd != cwd
    ensures ConversationAt(d.(conversations := d.conversations[k := c]), d.activeTransition.value.conversationId)
            == ConversationAt(d, d.activeTransition.value.conversationId)
  {
    var t := d.activeTransition.value;
    FindAfterUpdate(d.conversations, k, c, t.conversationId);
    var m := FindConversation(d.conversations, t.conversationId);
    LineageCwd(d.conversations[m], false);
    LineageCwd(d.conversations[k], d.schemaVersion == 1);
  }

  lemma LineageCwd(c: Conversation, v1: bool)
    requires ValidConversation(c, v1)
    ensures forall g, h :: 0 <= g < |c.generations| && 0 <= h < |c.generations|
                           ==> c.generations[g].cwd == c.generations[h].cwd
  {
    forall g | 0 <= g < |c.generations| ensures c.generations[g].cwd == c.generations[0].cwd {
      assert ValidGeneration(c, g, v1);
    }
  }

  // ---- launches -------------------------------------------------------------------------------

  lemma NormalizedIsCanonical(inv: seq<InventoryThread>)
    requires NormalizeInventory(inv).Ok?
    ensures CanonicalInventory(NormalizeInventory(inv).value)
    ensures multiset(NormalizeInventory(inv).value) == multiset(inv)
  {
    Sorting.SortIsPermutation(inv, ByThread);
  }

  lemma BeginIsOrdinary(d: Document, p: PendingLaunch)
    requires ValidDocument(d) && BeginLaunch(d, p).Ok? && ValidPending(p)
    requires FindLaunch(d.pendingLaunches, p.launchId) == |d.pendingLaunches|
    ensures OrdinaryEdit(d, BeginLaunch(d, p).value.0)
  {
    MarkIsOrdinary(d, p.cwd);
  }

  lemma PrepareUntrackedIsOrdinary(d: Document, p: PendingLaunch)
    requires ValidDocument(d) && PrepareUntracked(d, p).Ok? && ValidPending(p)
    requires FindLaunch(d.pendingLaunches, p.launchId) == |d.pendingLaunches|
    ensures OrdinaryEdit(d, PrepareUntracked(d, p).value.0)
  {
    MarkIsOrdinary(d, p.cwd);
  }

  lemma SetPhaseIsOrdinary(d: Document, id: Uuid, phase: PendingPhase)
    requires ValidDocument(d) && SetPhase(d, id, phase).Ok?
    ensures OrdinaryEdit(d, SetPhase(d, id, phase).value.0)
  {
    var k := FindLaunch(d.pendingLaunches, id);
    var ps := SetPhase(d, id, phase).value.0.pendingLaunches;
    assert forall i :: 0 <= i < |ps| ==> ps[i].cwd == d.pendingLaunches[i].cwd;
    assert forall i :: 0 <= i < |ps| ==> ValidPending(d.pendingLaunches[i]) ==> ValidPending(ps[i]);
  }

  lemma RemoveIsOrdinary(d: Document, k: nat)
    requires ValidDocument(d) && k < |d.pendingLaunches|
    ensures OrdinaryEdit(d, WithoutLaunch(d, k))
    ensures !Transitioning(d, d.pendingLaunches[k].cwd)
  {
    var ps := d.pendingLaunches[..k] + d.pendingLaunches[k + 1..];
    assert forall i :: 0 <= i < |ps| ==> ps[i] == d.pendingLaunches[if i < k then i else i + 1];
  }

  lemma OrdinaryChains(d: Document, e: Document, f: Document)
    requires OrdinaryEdit(d, e) && OrdinaryEdit(e, f)
    ensures OrdinaryEdit(d, f)
  {
  }

  function WithoutLaunch(d: Document, k: nat): Document
    requires k < |d.pendingLaunches|
  {
    d.(pendingLaunches := d.pendingLaunches[..k] + d.pendingLaunches[k + 1..])
  }

  /** Finishing drops the launch, and then at most marks its head or binds its thread. */
  lemma FinishShape(d: Document, id: Uuid, r: LaunchResolution, freshId: Uuid, now: nat)
    requires FinishLaunch(d, id, r, freshId, now).Ok?
    ensures var k := FindLaunch(d.pendingLaunches, id);
            k < |d.pendingLaunches| &&
            var rest, e := WithoutLaunch(d, k), FinishLaunch(d, id, r, freshId, now).value.0;
            || e == rest
            || e == MarkHead(rest, d.pendingLaunches[k].cwd)
            || (r.Bind? && var bound := BindDocument(rest, r.binding, freshId, now);
                           bound.Ok? && e == bound.value.0)
  {
  }

  lemma FinishIsOrdinary(d: Document, id: Uuid, r: LaunchResolution, freshId: Uuid, now: nat)
    requires ValidDocument(d) && FinishLaunch(d, id, r, freshId, now).Ok?
    requires r.Bind? ==> LineageFresh(d, r.binding, freshId)
    ensures OrdinaryEdit(d, FinishLaunch(d, id, r, freshId, now).value.0)
  {
    FinishShape(d, id, r, freshId, now);
    var k := FindLaunch(d.pendingLaunches, id);
    var rest, e := WithoutLaunch(d, k), FinishLaunch(d, id, r, freshId, now).value.0;
    RemoveIsOrdinary(d, k);
    OrdinaryIsValid(d, rest);
    if e != rest {
      if e == MarkHead(rest, d.pendingLaunches[k].cwd) {
        MarkIsOrdinary(rest, d.pendingLaunches[k].cwd);
      } else {
        BindIsOrdinary(rest, r.binding, freshId, now);
      }
      OrdinaryChains(d, rest, e);
    }
  }

  // ---- handoff --------------------------------------------------------------------------------

  lemma MigrateKeepsValid(d: Document)
    requires ValidDocument(d)
    ensures ValidDocument(Migrate(d)) && Migrate(d).schemaVersion == 2
  {
    forall i | 0 <= i < |d.conversations| ensures ValidConversation(d.conversations[i], false) {
      var c := d.conversations[i];
      assert ValidConversation(c, d.schemaVersion == 1);
      forall g | 0 <= g < |c.generations| ensures ValidGeneration(c, g, false) {
        assert ValidGeneration(c, g, d.schemaVersion == 1);
      }
    }
  }

  function Stamped(c: Conversation, domain: Uuid, rollout: GenerationRollout): Conversation
    requires c.activeGeneration < |c.generations|
  {
    var a := c.activeGeneration;
    c.(generations := c.generations[a := c.generations[a].(trustDomainId := Some(domain), rollout := Some(rollout))])
  }

  /** Preparing stamps the active generation the ready head names, and records the transition. */
  lemma PrepareShape(d: Document, p: HandoffPreparation, id: Uuid, now: nat)
    requires ValidDocument(d) && PrepareHandoff(d, p, id, now).Ok?
    ensures var k := FindConversation(d.conversations, p.expectedSource.conversationId);
            && k < |d.conversations|
            && var c := d.conversations[k];
               && c.activeGeneration < |c.generations|
               && var s := c.generations[c.activeGeneration];
                  && s.number == c.activeGeneration && s.cwd == p.expectedSource.cwd
                  && (s.rollout.None? || (s.trustDomainId == Some(p.trustDomainId)
                     && s.rollout == Some(p.sourceRollout)))
                  && PrepareHandoff(d, p, id, now).value.0
                     == d.(conversations := d.conversations[k := Stamped(c, p.trustDomainId, p.sourceRollout)],
                           activeTransition := Some(NewTransition(c.conversationId, s, p, id, now)))
                  && NewTransition(c.conversationId, s, p, id, now).sourceProfileId != p.targetProfileId
    ensures HeadAt(d.workspaceHeads, Codex, p.expectedSource.cwd)
            == Some(ReadyHead(p.expectedSource.cwd, p.expectedSource.conversationId, p.expectedSource.generation))
    ensures p.expectedSource.generation
            == d.conversations[FindConversation(d.conversations, p.expectedSource.conversationId)].activeGeneration
    ensures !PendingAt(d.pendingLaunches, p.expectedSource.cwd)
  {
    var k := FindConversation(d.conversations, p.expectedSource.conversationId);
    var c := d.conversations[k];
    var v1 := d.schemaVersion == 1;
    assert ValidConversation(c, v1);
    FindGenerationIs(c, v1, c.activeGeneration);
    assert ValidGeneration(c, c.activeGeneration, v1);
    var h := d.workspaceHeads[FindHead(d.workspaceHeads, Codex, p.expectedSource.cwd)];
    var hc := d.conversations[FindConversation(d.conversations, h.conversationId.value)];
    assert ValidConversation(hc, v1);
    FindGenerationIs(hc, v1, h.generation.value);
  }

  lemma PrepareIsValid(d: Document, p: HandoffPreparation, id: Uuid, now: nat)
    requires ValidDocument(d) && d.schemaVersion == 2 && PrepareHandoff(d, p, id, now).Ok?
    ensures ValidDocument(PrepareHandoff(d, p, id, now).value.0)
  {
    PrepareShape(d, p, id, now);
    var k := FindConversation(d.conversations, p.expectedSource.conversationId);
    var c := d.conversations[k];
    var c' := Stamped(c, p.trustDomainId, p.sourceRollout);
    var e := PrepareHandoff(d, p, id, now).value.0;
    assert ValidConversation(c, false);
    StampKeepsConversation(c, p.trustDomainId, p.sourceRollout);
    UpdateKeepsConversations(d.conversations, k, c', false);
    UpdateKeepsHeads(d.conversations, k, c', d.workspaceHeads);
    FindAfterUpdate(d.conversations, k, c', c.conversationId);
    assert ValidContents(e, false);
    var t := e.activeTransition.value;
    assert TransitionLineageOk(c', t);
    assert ValidTransition(e, t);
  }

  /** Stamping the active generation keeps its lineage valid, unless it already carries other metadata. */
  lemma StampKeepsConversation(c: Conversation, domain: Uuid, rollout: GenerationRollout)
    requires ValidConversation(c, false) && ValidRollout(rollout)
    requires var s := c.generations[c.activeGeneration];
             s.rollout.None? || (s.trustDomainId == Some(domain) && s.rollout == Some(rollout))
    ensures ValidConversation(Stamped(c, domain, rollout), false)
  {
    var a, c' := c.activeGeneration, Stamped(c, domain, rollout);
    forall g | 0 <= g < |c.generations| ensures ValidGeneration(c', g, false) {
      assert ValidGeneration(c, g, false) && ValidGeneration(c, a, false);
    }
    assert ValidGeneration(c, a, false);
    if c.generations[a].rollout.Some? { assert c'.generations == c.generations; }
  }

  /** The timestamps already recorded that the clock must have reached for a handoff step to be saved. */
  function ClockFloor(d: Document, op: Op): int {
    if d.activeTransition.None? then 0
    else
      var t := d.activeTransition.value;
      match op
      case OpObserve(_, _, _) => if t.forkRequestedAt.Some? then t.forkRequestedAt.value else 0
      case OpCommit(_, _) => if t.observed.Some? then t.observed.value.observedAt else 0
      case OpStopRequested(_, _) => t.preparedAt
      case OpStopped(_, _) => t.preparedAt
      case OpForkIntent(_, _, _) => t.preparedAt
      case OpForkRetry(_, _) => t.preparedAt
      case _ => 0
  }

  lemma SetTransitionIsValid(d: Document, t: HandoffTransition)
    requires ValidDocument(d) && d.schemaVersion == 2 && d.activeTransition.Some?
    requires var u := d.activeTransition.value;
             && t.conversationId == u.conversationId && t.sourceGeneration == u.sourceGeneration
             && t.targetGeneration == u.targetGeneration && t.sourceProfileId == u.sourceProfileId
             && t.cwd == u.cwd && t.trustDomainId == u.trustDomainId && t.sourceRollout == u.sourceRollout
             && !u.phase.CommittedUnattached? && !t.phase.CommittedUnattached?
    requires t.observed.Some? ==>
               var c := d.conversations[FindConversation(d.conversations, t.conversationId)];
               ObservedOk(t, c.generations[t.sourceGeneration].threadId)
    ensures ValidDocument(d.(activeTransition := Some(t))) <==> TransitionRecordOk(t)
  {
  }

  lemma ObservedIsNotSource(d: Document, t: HandoffTransition, thread: Uuid)
    requires ValidDocument(d) && d.activeTransition == Some(t) && !ThreadBound(d.conversations, thread)
    ensures d.conversations[FindConversation(d.conversations, t.conversationId)]
            .generations[t.sourceGeneration].threadId != thread
  {
  }

  lemma AdvanceIsValid(d: Document, id: Uuid, from: HandoffPhase, next: HandoffPhase, now: nat)
    requires ValidDocument(d) && d.schemaVersion == 2 && AdvancePhase(d, id, from, next, now).Ok?
    requires !ForkStarted(from) && !ForkStarted(next)
    ensures ValidDocument(AdvancePhase(d, id, from, next, now).value.0)
            <==> now >= d.activeTransition.value.preparedAt
  {
    SetTransitionIsValid(d, d.activeTransition.value.(phase := next, updatedAt := now));
  }

  lemma ForkIntentIsValid(d: Document, id: Uuid, baseline: seq<Uuid>, now: nat)
    requires ValidDocument(d) && d.schemaVersion == 2 && RecordForkIntent(d, id, baseline, now).Ok?
    ensures ValidDocument(RecordForkIntent(d, id, baseline, now).value.0)
            <==> now >= d.activeTransition.value.preparedAt
  {
    SetTransitionIsValid(d, RecordForkIntent(d, id, baseline, now).value.1);
  }

  lemma ForkRetryIsValid(d: Document, id: Uuid, now: nat)
    requires ValidDocument(d) && d.schemaVersion == 2 && RecordForkRetry(d, id, now).Ok?
    ensures ValidDocument(RecordForkRetry(d, id, now).value.0) <==> now >= d.activeTransition.value.preparedAt
  {
    SetTransitionIsValid(d, RecordForkRetry(d, id, now).value.1);
  }

  lemma ObserveIsValid(d: Document, id: Uuid, target: HandoffTarget, now: nat)
    requires ValidDocument(d) && d.schemaVersion == 2 && ObserveTarget(d, id, target, now).Ok?
    ensures d.activeTransition.value.forkRequestedAt.Some?
    ensures ValidDocument(ObserveTarget(d, id, target, now).value.0)
            <==> now >= d.activeTransition.value.forkRequestedAt.value
  {
    hide ValidConversations, ValidHeads, ValidPendings;
    var t := d.activeTransition.value;
    var u := ObserveTarget(d, id, target, now).value.1;
    ObservedIsNotSource(d, t, target.threadId);
    if now >= t.forkRequestedAt.value {
      SetTransitionIsValid(d, u);
    } else {
      assert !TransitionRecordOk(u);
    }
  }

  lemma CommitKeepsContents(d: Document, id: Uuid, now: nat)
    requires ValidDocument(d) && d.schemaVersion == 2 && CommitHandoff(d, id, now).Ok?
    ensures ValidContents(CommitHandoff(d, id, now).value.0, false)
  {
    var t := d.activeTransition.value;
    var k := FindConversation(d.conversations, t.conversationId);
    var e := CommitHandoff(d, id, now).value.0;
    assert ValidConversation(d.conversations[k], false);
    GrownLineageIsValid(d.conversations[k], t, t.observed.value);
    GrowKeepsConversations(d.conversations, k, e.conversations[k], false);
    CommitKeepsHeads(d, k, e.conversations[k], FindHead(d.workspaceHeads, Codex, t.cwd), t);
  }

  /** The committed transition, its grown lineage and its moved head. */
  lemma CommitShape(d: Document, id: Uuid, now: nat)
    requires ValidDocument(d) && d.schemaVersion == 2 && CommitHandoff(d, id, now).Ok?
    ensures d.activeTransition.Some? && d.activeTransition.value.observed.Some?
    ensures
      var t, e := d.activeTransition.value, CommitHandoff(d, id, now).value.0;
      var k, h := FindConversation(d.conversations, t.conversationId), FindHead(d.workspaceHeads, Codex, t.cwd);
      && k < |d.conversations| && h < |d.workspaceHeads| && t.phase == ForkObserved
      && e == d.(conversations := d.conversations[k := e.conversations[k]], workspaceHeads := e.workspaceHeads,
                 activeTransition := Some(t.(phase := CommittedUnattached, updatedAt := now)))
      && e.conversations[k].conversationId == t.conversationId
      && e.conversations[k].generations == d.conversations[k].generations + [TargetGeneration(t, t.observed.value)]
      && e.conversations[k].activeGeneration == t.targetGeneration
      && e.workspaceHeads == d.workspaceHeads[h := ReadyHead(t.cwd, t.conversationId, t.targetGeneration)]
  {
    assert ValidConversation(d.conversations[FindConversation(d.conversations,
        d.activeTransition.value.conversationId)], false);
    hide ValidRollout, CanonicalBaseline, AdapterVersionOk, ThreadBound, ValidConversation, ValidPendings;
  }

  /** The committed record is in order exactly when its clock is not behind the observation. */
  lemma CommittedRecord(c: Conversation, e: Conversation, t: HandoffTransition, now: nat)
    requires TransitionRecordOk(t) && TransitionLineageOk(c, t) && t.phase == ForkObserved && t.observed.Some?
    requires e.generations == c.generations + [TargetGeneration(t, t.observed.value)]
    requires e.activeGeneration == t.targetGeneration
    ensures
      var u := t.(phase := CommittedUnattached, updatedAt := now);
      TransitionRecordOk(u) && TransitionLineageOk(e, u) <==> now >= t.observed.value.observedAt
  {
    hide ValidRollout, CanonicalBaseline, AdapterVersionOk;
    assert e.generations[t.sourceGeneration] == c.generations[t.sourceGeneration];
  }

  lemma CommitIsValid(d: Document, id: Uuid, now: nat)
    requires ValidDocument(d) && d.schemaVersion == 2 && CommitHandoff(d, id, now).Ok?
    ensures ValidDocument(CommitHandoff(d, id, now).value.0) <==> now >= ClockFloor(d, OpCommit(id, now))
  {
    hide CommitHandoff, ValidContents, TransitionLineageOk, TransitionRecordOk;
    CommitKeepsContents(d, id, now);
    CommitShape(d, id, now);
    var t, e := d.activeTransition.value, CommitHandoff(d, id, now).value.0;
    var k, h := FindConversation(d.conversations, t.conversationId), FindHead(d.workspaceHeads, Codex, t.cwd);
    CommittedRecord(d.conversations[k], e.conversations[k], t, now);
    FindAfterUpdate(d.conversations, k, e.conversations[k], t.conversationId);
    CommittedHead(e, h, t);
  }

  lemma CommittedHead(e: Document, h: nat, t: HandoffTransition)
    requires ValidContents(e, false) && h < |e.workspaceHeads|
    requires e.workspaceHeads[h] == ReadyHead(t.cwd, t.conversationId, t.targetGeneration)
    ensures FindHead(e.workspaceHeads, Codex, t.cwd) == h
  {
  }

  lemma GrownLineageIsValid(c: Conversation, t: HandoffTransition, o: ObservedTarget)
    requires ValidConversation(c, false) && |c.generations| < MAX_LINEAGE_GENERATIONS
    requires TransitionLineageOk(c, t) && t.observed == Some(o) && t.phase == ForkObserved && 0 <= t.preparedAt
    ensures ValidConversation(c.(generations := c.generations + [TargetGeneration(t, o)],
                                 activeGeneration := t.targetGeneration, lifecycle := Interrupted), false)
  {
    var c' := c.(generations := c.generations + [TargetGeneration(t, o)],
                 activeGeneration := t.targetGeneration, lifecycle := Interrupted);
    LineageCwd(c, false);
    forall g | 0 <= g < |c'.generations| ensures ValidGeneration(c', g, false) {
      if g < |c.generations| { assert ValidGeneration(c, g, false); }
    }
  }

  function ActiveCwd(c: Conversation): Option<Cwd> {
    if c.activeGeneration < |c.generations| then Some(c.generations[c.activeGeneration].cwd) else None
  }

  /** Only the transitioning head can name the growing lineage, so moving that head keeps all heads valid. */
  lemma CommitKeepsHeads(d: Document, k: nat, c: Conversation, h: nat, t: HandoffTransition)
    requires ValidDocument(d) && k < |d.conversations| && h < |d.workspaceHeads|
    requires d.workspaceHeads[h].provider == Codex && d.workspaceHeads[h].cwd == t.cwd
    requires d.workspaceHeads[h].state.Ready? && d.workspaceHeads[h].conversationId == Some(t.conversationId)
    requires FindConversation(d.conversations, t.conversationId) == k
    requires c.conversationId == t.conversationId && c.provider == Codex
    requires c.activeGeneration == t.targetGeneration < |c.generations|
    requires c.generations[c.activeGeneration].cwd == t.cwd
    requires d.conversations[k].provider == Codex && ActiveCwd(d.conversations[k]) == Some(t.cwd)
    ensures ValidHeads(d.conversations[k := c],
                       d.workspaceHeads[h := d.workspaceHeads[h].(generation := Some(t.targetGeneration))])
  {
    var hs := d.workspaceHeads[h := d.workspaceHeads[h].(generation := Some(t.targetGeneration))];
    forall i | 0 <= i < |hs| ensures ValidHead(d.conversations[k := c], hs[i]) {
      assert ValidHead(d.conversations, d.workspaceHeads[i]);
      if hs[i].state.Ready? && hs[i].conversationId.Some? {
        FindAfterUpdate(d.conversations, k, c, hs[i].conversationId.value);
      }
    }
  }

  lemma AttachIsValid(d: Document, id: Uuid)
    requires ValidDocument(d) && d.schemaVersion == 2 && FinishAttachment(d, id).Ok?
    ensures ValidDocument(FinishAttachment(d, id).value.0)
  {
  }

  // ---- the theorem ----------------------------------------------------------------------------

  /** Identifiers minted for this operation are not in use. */
  predicate MintedFresh(d: Document, op: Op) {
    match op
    case OpBeginLaunch(_, _, _, _, _, id, _) => FindLaunch(d.pendingLaunches, id) == |d.pendingLaunches|
    case OpPrepareUntracked(_, _, _, id, _) => FindLaunch(d.pendingLaunches, id) == |d.pendingLaunches|
    case OpFinishLaunch(_, r, id, _) => r.Bind? ==> LineageFresh(d, r.binding, id)
    case OpAdopt(b, id, _) => LineageFresh(d, b, id)
    case OpRefresh(_, b, id, _) => LineageFresh(d, b, id)
    case _ => true
  }

  function ClockOf(op: Op): nat {
    match op
    case OpStopRequested(_, now) => now
    case OpStopped(_, now) => now
    case OpForkIntent(_, _, now) => now
    case OpForkRetry(_, now) => now
    case OpObserve(_, _, now) => now
    case OpCommit(_, now) => now
    case _ => 0
  }

  lemma OrdinaryOpIsOrdinary(d: Document, op: Op)
    requires ValidDocument(d) && MintedFresh(d, op) && EditOf(d, op).Ok? && !IsHandoffOp(op)
    ensures OrdinaryEdit(d, EditOf(d, op).value)
  {
    hide ValidDocument, OrdinaryEdit, BindDocument, MarkHead;
    match op
    case OpBeginLaunch(profile, cwd, mode, version, inventory, id, now) =>
      NormalizedIsCanonical(inventory);
      BeginIsOrdinary(d, TrackedLaunch(profile, cwd, mode, version, inventory, id, now).value);
    case OpProviderStarted(id) => SetPhaseIsOrdinary(d, id, ProviderStarted);
    case OpCaptureFailed(id) => SetPhaseIsOrdinary(d, id, CaptureFailed);
    case OpFinishLaunch(id, r, newId, now) => FinishIsOrdinary(d, id, r, newId, now);
    case OpAdopt(b, newId, now) => BindIsOrdinary(d, b, newId, now);
    case OpRefresh(_, b, newId, now) => BindIsOrdinary(d, b, newId, now);
    case OpMarkAmbiguous(cwd) => MarkIsOrdinary(d, cwd);
    case OpPrepareUntracked(profile, cwd, mode, id, now) =>
      PrepareUntrackedIsOrdinary(d, UntrackedLaunch(profile, cwd, mode, id, now).value);
    case _ =>
  }

  lemma HandoffOpAccepted(d: Document, op: Op)
    requires ValidDocument(d) && d.schemaVersion == 2 && IsHandoffOp(op) && EditOf(d, op).Ok?
    ensures ValidDocument(EditOf(d, op).value) <==> ClockOf(op) >= ClockFloor(d, op)
  {
    hide ValidDocument, PrepareOn, CommitOn;
    match op
    case OpPrepareHandoff(p, id, now) => PrepareIsValid(d, p, id, now);
    case OpStopRequested(id, now) => AdvanceIsValid(d, id, HandoffPhase.Prepared, SourceStopRequested, now);
    case OpStopped(id, now) => AdvanceIsValid(d, id, SourceStopRequested, SourceStopped, now);
    case OpForkIntent(id, baseline, now) => ForkIntentIsValid(d, id, baseline, now);
    case OpForkRetry(id, now) => ForkRetryIsValid(d, id, now);
    case OpObserve(id, target, now) => ObserveIsValid(d, id, target, now);
    case OpCommit(id, now) => CommitIsValid(d, id, now);
    case OpAttach(id) => AttachIsValid(d, id);
  }

  /** The validator accepts an edit of a valid document exactly when the clock has not run backwards. */
  lemma HonestEditAccepted(d: Document, op: Op)
    requires ValidDocument(d) && MintedFresh(d, op) && EditOf(d, op).Ok?
    ensures ValidDocument(EditOf(d, op).value) <==> ClockOf(op) >= ClockFloor(d, op)
  {
    if IsHandoffOp(op) {
      MigrateKeepsValid(d);
      MigrateFirst(d, op);
      HandoffOpAccepted(Migrate(d), op);
    } else {
      OrdinaryOpIsOrdinary(d, op);
      OrdinaryIsValid(d, EditOf(d, op).value);
      assert ClockOf(op) == 0 == ClockFloor(d, op);
    }
  }

  lemma MigrateFirst(d: Document, op: Op)
    requires IsHandoffOp(op)
    ensures EditOf(d, op) == EditOf(Migrate(d), op) && ClockFloor(d, op) == ClockFloor(Migrate(d), op)
  {
    assert Migrate(Migrate(d)) == Migrate(d);
  }

  lemma RevisionKeepsValid(d: Document)
    requires ValidDocument(d)
    ensures ValidDocument(d.(revision := d.revision + 1))
  {
    var e := d.(revision := d.revision + 1);
    if d.activeTransition.Some? { FrozenKeepsTransition(d, e, d.activeTransition.value); }
  }

  /** Saving succeeds for every honest edit while revisions remain. */
  lemma HonestEditSaved(d: Document, op: Op)
    requires ValidDocument(d) && MintedFresh(d, op) && EditOf(d, op).Ok?
    requires EditOf(d, op).value.revision < U64_MAX && ClockOf(op) >= ClockFloor(d, op)
    ensures Save(EditOf(d, op).value).Ok? && Next(d, op) == Save(EditOf(d, op).value).value
  {
    HonestEditAccepted(d, op);
    RevisionKeepsValid(EditOf(d, op).value);
  }
}
