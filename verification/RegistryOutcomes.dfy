/** What each accepted registry operation makes of heads, lineages and launches, told by lookups. */
module RegistryOutcomes {
  import opened Prelude
  import Sorting
  import opened ConversationModel
  import opened RegistryEdits
  import opened RegistryValidity
  import opened RegistryRuns
  import opened CaptureRely

  // ---- heads ----------------------------------------------------------------------------------

  /** Every head but the Codex head of this directory is found as before. */
  ghost predicate OtherHeadsKept(d: Document, e: Document, cwd: Cwd) {
    forall p, c :: !(p == Codex && c == cwd) ==> HeadAt(e.workspaceHeads, p, c) == HeadAt(d.workspaceHeads, p, c)
  }

  /** The head of the directory needs a selection now; it keeps its old target, and no lineage changed. */
  ghost predicate HeadMarked(d: Document, e: Document, cwd: Cwd) {
    && NeedsChoice(e, cwd) && OtherHeadsKept(d, e, cwd) && e.conversations == d.conversations
    && var before, after := HeadAt(d.workspaceHeads, Codex, cwd), HeadAt(e.workspaceHeads, Codex, cwd).value;
       if before.Some? then after == before.value.(state := NeedsSelection)
       else after.conversationId.None? && after.generation.None?
  }

  predicate HeadsAsFound(d: Document, e: Document) {
    e.workspaceHeads == d.workspaceHeads && e.conversations == d.conversations
  }

  lemma MarkIsMarked(d: Document, cwd: Cwd)
    requires DistinctHeads(d.workspaceHeads)
    ensures HeadMarked(d, MarkHead(d, cwd), cwd)
  {
    forall p, c | !(p == Codex && c == cwd)
      ensures HeadAt(MarkHead(d, cwd).workspaceHeads, p, c) == HeadAt(d.workspaceHeads, p, c)
    {
      MarkFrame(d, cwd, p, c);
    }
    MarkFrame(d, cwd, Codex, cwd);
    var hs, k := MarkHead(d, cwd).workspaceHeads, FindHead(d.workspaceHeads, Codex, cwd);
    assert hs[k] in hs && DistinctHeads(hs);
    HeadAtMember(hs, hs[k]);
  }

  // ---- launches -------------------------------------------------------------------------------

  /** The launch is gone, and every other launch is still there. */
  ghost predicate OnlyThisGone(d: Document, e: Document, p: PendingLaunch) {
    forall q :: q in e.pendingLaunches <==> q in d.pendingLaunches && q != p
  }

  lemma RemovedIsGone(d: Document, k: nat)
    requires ValidDocument(d) && k < |d.pendingLaunches|
    ensures OnlyThisGone(d, WithoutLaunch(d, k), d.pendingLaunches[k])
    ensures !PendingAt(WithoutLaunch(d, k).pendingLaunches, d.pendingLaunches[k].cwd)
  {
    assert DistinctPendings(d.pendingLaunches);
    RemovedMembers(d.pendingLaunches, k);
    hide ValidDocument;
    var qs := WithoutLaunch(d, k).pendingLaunches;
    forall i | 0 <= i < |qs| ensures qs[i].cwd != d.pendingLaunches[k].cwd {
      assert qs[i] == d.pendingLaunches[if i < k then i else i + 1];
    }
  }

  lemma RemovedMembers(ps: seq<PendingLaunch>, k: nat)
    requires DistinctPendings(ps) && k < |ps|
    ensures forall q :: q in ps[..k] + ps[k + 1..] <==> q in ps && q != ps[k]
  {
    var qs := ps[..k] + ps[k + 1..];
    forall q | q in ps && q != ps[k] ensures q in qs {
      var i :| 0 <= i < |ps| && ps[i] == q;
      assert qs[if i < k then i else i - 1] == q;
    }
  }

  // ---- binding --------------------------------------------------------------------------------

  /** What a binding asks for: its own thread free, or active in a lineage of this profile and directory. */
  ghost predicate Bindable(d: Document, b: BindingInput) {
    && b.codexVersion == CODEX_VERSION && Usable(b.lifecycle) && !Transitioning(d, b.cwd)
    && (ThreadBound(d.conversations, b.threadId) ==>
          exists i :: 0 <= i < |d.conversations| && ActiveIs(d.conversations[i], b.profileId, b.threadId, b.cwd))
  }

  /** The head of the directory is ready and names this thread, active in its lineage with the given lifecycle. The
      lineage is the one that had the thread, or a new one of a single generation. */
  ghost predicate BoundTo(d: Document, e: Document, b: BindingInput, head: HeadBinding, newId: Uuid, now: int) {
    && head.profileId == b.profileId && head.threadId == b.threadId && head.cwd == b.cwd
    && head.codexVersion == b.codexVersion && head.lifecycle == b.lifecycle
    && OtherHeadsKept(d, e, b.cwd)
    && HeadAt(e.workspaceHeads, Codex, b.cwd)
       == Some(WorkspaceHead(Codex, b.cwd, Ready, Some(head.conversationId), Some(head.generation)))
    && (forall id :: id != head.conversationId ==> ConversationAt(e, id) == ConversationAt(d, id))
    && var before, after := ConversationAt(d, head.conversationId), ConversationAt(e, head.conversationId);
       && after.Some? && after.value.lifecycle == b.lifecycle && after.value.activeGeneration == head.generation
       && ActiveIs(after.value, b.profileId, b.threadId, b.cwd)
       && if ThreadBound(d.conversations, b.threadId)
          then before.Some? && after.value == before.value.(lifecycle := b.lifecycle)
          else before.None? && head.conversationId == newId && after.value.provider == Codex
               && after.value.generations
                  == [Generation(0, b.profileId, b.threadId, b.cwd, b.codexVersion, ADAPTER_VERSION, now, None, None)]
  }

  lemma ActiveIsBound(cs: seq<Conversation>, i: nat, profile: Uuid, thread: Uuid, cwd: Cwd)
    requires i < |cs| && ActiveIs(cs[i], profile, thread, cwd)
    ensures HasThread(cs[i], thread) && ThreadBound(cs, thread)
    ensures FindBound(cs[i].generations, profile, thread) < |cs[i].generations|
  {
    assert cs[i].generations[cs[i].activeGeneration].threadId == thread;
    assert HasThread(cs[i], thread);
  }

  /** A thread of a valid document is held by one generation of one lineage. */
  lemma HolderIsOwner(cs: seq<Conversation>, k: nat, n: nat, i: nat, g: nat)
    requires DistinctThreads(cs) && k < |cs| && i < |cs| && n < |cs[k].generations| && g < |cs[i].generations|
    requires cs[k].generations[n].threadId == cs[i].generations[g].threadId
    ensures i == k && g == n
  {
    if i < k { assert ThreadsApart(cs[i], cs[k]); assert HasThread(cs[k], cs[i].generations[g].threadId); }
    if k < i { assert ThreadsApart(cs[k], cs[i]); assert HasThread(cs[i], cs[k].generations[n].threadId); }
    assert OwnThreadsDistinct(cs[k]);
  }

  lemma OwnedBinds(d: Document, b: BindingInput, newId: Uuid, now: int)
    requires ValidDocument(d) && FindOwner(d.conversations, b.profileId, b.threadId) < |d.conversations|
    ensures ThreadBound(d.conversations, b.threadId) && !BoundElsewhere(d.conversations, b.profileId, b.threadId)
    ensures
      var k := FindOwner(d.conversations, b.profileId, b.threadId);
      var c := d.conversations[k];
      var n := FindBound(c.generations, b.profileId, b.threadId);
      && n < |c.generations| && c.generations[n].number == n && c.activeGeneration < |c.generations|
      && ((exists i :: 0 <= i < |d.conversations| && ActiveIs(d.conversations[i], b.profileId, b.threadId, b.cwd))
          <==> n == c.activeGeneration && c.generations[n].cwd == b.cwd)
  {
    var cs := d.conversations;
    var k := FindOwner(cs, b.profileId, b.threadId);
    var n := FindBound(cs[k].generations, b.profileId, b.threadId);
    assert DistinctThreads(cs) && ValidConversation(cs[k], d.schemaVersion == 1);
    assert ValidGeneration(cs[k], n, d.schemaVersion == 1);
    assert HasThread(cs[k], b.threadId);
    hide ValidDocument, ValidConversation, ValidGeneration, DistinctThreads;
    forall i, g | 0 <= i < |cs| && 0 <= g < |cs[i].generations| && cs[i].generations[g].threadId == b.threadId
      ensures i == k && g == n
    {
      HolderIsOwner(cs, k, n, i, g);
    }
    if n == cs[k].activeGeneration && cs[k].generations[n].cwd == b.cwd {
      assert ActiveIs(cs[k], b.profileId, b.threadId, b.cwd);
    }
  }

  /** Binding succeeds exactly for a thread that is free or active where the binding says. */
  lemma BindsExactly(d: Document, b: BindingInput, newId: Uuid, now: int)
    requires ValidDocument(d)
    ensures BindDocument(d, b, newId, now).Ok? <==> Bindable(d, b)
  {
    hide ValidDocument, ThreadBound, BoundElsewhere;
    var cs := d.conversations;
    var k := FindOwner(cs, b.profileId, b.threadId);
    if k < |cs| {
      OwnedBinds(d, b, newId, now);
    } else {
      if !BoundElsewhere(cs, b.profileId, b.threadId) {
        OwnerIsUnbound(cs, b.profileId, b.threadId);
      } else {
        ElsewhereIsBound(cs, b.profileId, b.threadId);
        forall i | 0 <= i < |cs| ensures !ActiveIs(cs[i], b.profileId, b.threadId, b.cwd) {
          if ActiveIs(cs[i], b.profileId, b.threadId, b.cwd) {
            ActiveIsBound(cs, i, b.profileId, b.threadId, b.cwd);
          }
        }
      }
    }
  }

  lemma ElsewhereIsBound(cs: seq<Conversation>, profile: Uuid, thread: Uuid)
    requires BoundElsewhere(cs, profile, thread)
    ensures ThreadBound(cs, thread)
  {
    var i, g :| 0 <= i < |cs| && 0 <= g < |cs[i].generations| &&
                cs[i].generations[g].threadId == thread && cs[i].generations[g].profileId != profile;
    assert HasThread(cs[i], thread);
  }

  lemma InstallIs(d: Document, e: Document, cwd: Cwd, conversation: Uuid, generation: nat)
    requires DistinctHeads(d.workspaceHeads)
    requires e.workspaceHeads == OtherHeads(d.workspaceHeads, cwd) + [ReadyHead(cwd, conversation, generation)]
    ensures OtherHeadsKept(d, e, cwd)
    ensures HeadAt(e.workspaceHeads, Codex, cwd) == Some(ReadyHead(cwd, conversation, generation))
  {
    forall p, c ensures HeadAt(e.workspaceHeads, p, c)
                        == if p == Codex && c == cwd then Some(ReadyHead(cwd, conversation, generation))
                           else HeadAt(d.workspaceHeads, p, c)
    {
      InstallFrame(d.workspaceHeads, ReadyHead(cwd, conversation, generation), p, c);
    }
  }

  lemma PushedLineage(d: Document, e: Document, c: Conversation)
    requires FindConversation(d.conversations, c.conversationId) == |d.conversations|
    requires e.conversations == d.conversations + [c]
    ensures ConversationAt(d, c.conversationId).None? && ConversationAt(e, c.conversationId) == Some(c)
    ensures forall id :: id != c.conversationId ==> ConversationAt(e, id) == ConversationAt(d, id)
  {
    forall id ensures id == c.conversationId ==> ConversationAt(e, id) == Some(c)
              ensures id != c.conversationId ==> ConversationAt(e, id) == ConversationAt(d, id)
    {
      FindAfterPush(d.conversations, c, id);
      assert forall i :: 0 <= i < |d.conversations| ==> e.conversations[i] == d.conversations[i];
      assert e.conversations[|d.conversations|] == c;
    }
  }

  lemma UpdatedLineage(d: Document, e: Document, k: nat, c: Conversation)
    requires DistinctIds(d.conversations) && k < |d.conversations|
    requires c.conversationId == d.conversations[k].conversationId && e.conversations == d.conversations[k := c]
    ensures ConversationAt(d, c.conversationId) == Some(d.conversations[k])
    ensures ConversationAt(e, c.conversationId) == Some(c)
    ensures forall id :: id != c.conversationId ==> ConversationAt(e, id) == ConversationAt(d, id)
  {
    FindOfDistinct(d.conversations, k);
    forall id ensures FindConversation(e.conversations, id) == FindConversation(d.conversations, id) {
      FindAfterUpdate(d.conversations, k, c, id);
    }
  }

  lemma DistinctParts(d: Document)
    requires ValidDocument(d)
    ensures DistinctHeads(d.workspaceHeads) && DistinctIds(d.conversations) && DistinctPendings(d.pendingLaunches)
  {
  }

  lemma PushedIsFresh(cs: seq<Conversation>, c: Conversation)
    requires DistinctIds(cs + [c])
    ensures FindConversation(cs, c.conversationId) == |cs|
  {
    var all := cs + [c];
    forall i | 0 <= i < |cs| ensures cs[i].conversationId != c.conversationId {
      assert all[i] == cs[i] && all[|cs|] == c;
    }
  }

  /** A binding that succeeds makes its thread the ready head of its directory. */
  lemma BindOutcome(d: Document, b: BindingInput, newId: Uuid, now: int)
    requires ValidDocument(d) && BindDocument(d, b, newId, now).Ok?
    requires DistinctIds(BindDocument(d, b, newId, now).value.0.conversations)
    ensures
      var (e, head) := BindDocument(d, b, newId, now).value;
      BoundTo(d, e, b, head, newId, now) && e.pendingLaunches == d.pendingLaunches
      && e.activeTransition == d.activeTransition
  {
    hide ValidDocument, ThreadBound, BoundElsewhere, DistinctHeads, DistinctIds, DistinctPendings;
    DistinctParts(d);
    var (e, head) := BindDocument(d, b, newId, now).value;
    var cs := d.conversations;
    var k := FindOwner(cs, b.profileId, b.threadId);
    if k < |cs| {
      OwnedBinds(d, b, newId, now);
      UpdatedLineage(d, e, k, cs[k].(lifecycle := b.lifecycle));
    } else {
      OwnerIsUnbound(cs, b.profileId, b.threadId);
      PushedIsFresh(cs, FreshConversation(b, newId, now));
      PushedLineage(d, e, FreshConversation(b, newId, now));
    }
    InstallIs(d, e, b.cwd, head.conversationId, head.generation);
  }

  /** What is bound is what a reader of the head gets, unless a launch or a transition holds the directory. */
  lemma BoundResolves(d: Document, e: Document, b: BindingInput, head: HeadBinding, newId: Uuid, now: int)
    requires ValidDocument(e) && BoundTo(d, e, b, head, newId, now) && b.codexVersion == CODEX_VERSION
    requires !Transitioning(e, b.cwd) && !PendingAt(e.pendingLaunches, b.cwd)
    ensures ResolveHead(e, b.cwd) == Ok(head)
  {
    var c := ConversationAt(e, head.conversationId).value;
    assert ValidConversation(c, e.schemaVersion == 1);
    assert ValidGeneration(c, c.activeGeneration, e.schemaVersion == 1);
    FindGenerationIs(c, e.schemaVersion == 1, head.generation);
  }

  // ---- launches begin and end -----------------------------------------------------------------

  predicate Matches(b: BindingInput, p: PendingLaunch) {
    b.profileId == p.profileId && b.cwd == p.cwd && p.codexVersion == Some(b.codexVersion)
  }

  /** The directory already had a head that needs a selection. */
  predicate DirectoryMarked(d: Document, cwd: Cwd) {
    exists h :: h in d.workspaceHeads && h.cwd == cwd && h.state == NeedsSelection
  }

  /** The launch would be bound: it is tracked, its directory is not marked and the binding is its own. */
  predicate WouldBind(d: Document, p: PendingLaunch, r: LaunchResolution) {
    !p.mode.Untracked() && !DirectoryMarked(d, p.cwd) && r.Bind? && Matches(r.binding, p)
  }

  /** Its head is marked: the launch is untracked, or what became of it is unclear and the directory is not marked. */
  predicate WouldMark(d: Document, p: PendingLaunch, r: LaunchResolution) {
    p.mode.Untracked() || (!DirectoryMarked(d, p.cwd) && (r.Unclear? || (r.Bind? && !Matches(r.binding, p))))
  }

  lemma MarkerIsFound(d: Document, cwd: Cwd)
    ensures HeadNeedsSelection(d.workspaceHeads, cwd) <==> DirectoryMarked(d, cwd)
  {
    if HeadNeedsSelection(d.workspaceHeads, cwd) {
      var i :| 0 <= i < |d.workspaceHeads| && d.workspaceHeads[i].cwd == cwd
          && d.workspaceHeads[i].state == NeedsSelection;
      assert d.workspaceHeads[i] in d.workspaceHeads;
    }
  }

  /** A launch that is resolved is gone. An untracked launch, an unclear one and one that meets another's binding leave
      their head marked, one without a thread leaves heads and lineages as found, and a binding of its own is the ready
      head. A directory that was marked before stays as found. */
  lemma FinishOutcome(d: Document, id: Uuid, r: LaunchResolution, newId: Uuid, now: nat)
    requires ValidDocument(d) && FinishLaunch(d, id, r, newId, now).Ok?
    requires DistinctIds(FinishLaunch(d, id, r, newId, now).value.0.conversations)
    ensures FindLaunch(d.pendingLaunches, id) < |d.pendingLaunches|
    ensures
      var p := d.pendingLaunches[FindLaunch(d.pendingLaunches, id)];
      var (e, reply) := FinishLaunch(d, id, r, newId, now).value;
      && OnlyThisGone(d, e, p) && !PendingAt(e.pendingLaunches, p.cwd) && e.activeTransition == d.activeTransition
      && if WouldMark(d, p, r) then HeadMarked(d, e, p.cwd) && reply.None?
         else if WouldBind(d, p, r) then reply.Some? && BoundTo(d, e, r.binding, reply.value, newId, now)
         else HeadsAsFound(d, e) && reply.None?
  {
    hide ValidDocument, BindDocument, MarkHead, HeadNeedsSelection, DirectoryMarked, HeadMarked, OnlyThisGone,
         PendingAt,
         BoundTo;
    var k := FindLaunch(d.pendingLaunches, id);
    var rest := WithoutLaunch(d, k);
    var p := d.pendingLaunches[k];
    RemovedIsGone(d, k);
    MarkerIsFound(d, p.cwd);
    RemoveKeepsValid(d, k);
    DistinctParts(rest);
    if WouldBind(d, p, r) {
      BindOutcome(rest, r.binding, newId, now);
      var (e, head) := BindDocument(rest, r.binding, newId, now).value;
      RestBoundTo(d, rest, e, r.binding, head, newId, now);
      RestGone(d, rest, e, p);
    } else if WouldMark(d, p, r) {
      MarkIsMarked(rest, p.cwd);
      RestMarked(d, rest, p.cwd);
      RestGone(d, rest, MarkHead(rest, p.cwd), p);
    }
  }

  lemma RemoveKeepsValid(d: Document, k: nat)
    requires ValidDocument(d) && k < |d.pendingLaunches|
    ensures ValidDocument(WithoutLaunch(d, k))
  {
    RemoveIsOrdinary(d, k);
    OrdinaryIsValid(d, WithoutLaunch(d, k));
  }

  lemma RestBoundTo(d: Document, rest: Document, e: Document, b: BindingInput, head: HeadBinding, newId: Uuid, now: int)
    requires rest.workspaceHeads == d.workspaceHeads && rest.conversations == d.conversations
    requires BoundTo(rest, e, b, head, newId, now)
    ensures BoundTo(d, e, b, head, newId, now)
  {
  }

  lemma RestMarked(d: Document, rest: Document, cwd: Cwd)
    requires rest.workspaceHeads == d.workspaceHeads && rest.conversations == d.conversations
    requires HeadMarked(rest, MarkHead(rest, cwd), cwd)
    ensures HeadMarked(d, MarkHead(rest, cwd), cwd)
    ensures MarkHead(rest, cwd).pendingLaunches == rest.pendingLaunches
    ensures MarkHead(rest, cwd).activeTransition == rest.activeTransition
  {
  }

  lemma RestGone(d: Document, rest: Document, e: Document, p: PendingLaunch)
    requires OnlyThisGone(d, rest, p) && e.pendingLaunches == rest.pendingLaunches
    ensures OnlyThisGone(d, e, p)
  {
  }

  /** A launch is resolved exactly when it is pending, and, where it would be bound, its thread can be. */
  lemma FinishesExactly(d: Document, id: Uuid, r: LaunchResolution, newId: Uuid, now: nat)
    requires ValidDocument(d)
    ensures
      var k := FindLaunch(d.pendingLaunches, id);
      FinishLaunch(d, id, r, newId, now).Ok? <==>
        k < |d.pendingLaunches| && (WouldBind(d, d.pendingLaunches[k], r) ==> Bindable(d, r.binding))
  {
    hide ValidDocument, BindDocument, HeadNeedsSelection, DirectoryMarked, Bindable;
    var k := FindLaunch(d.pendingLaunches, id);
    if k < |d.pendingLaunches| {
      MarkerIsFound(d, d.pendingLaunches[k].cwd);
      if r.Bind? {
        RemoveKeepsValid(d, k);
        BindsExactly(WithoutLaunch(d, k), r.binding, newId, now);
        RestBindable(d, WithoutLaunch(d, k), r.binding);
      }
    }
  }

  lemma RestBindable(d: Document, rest: Document, b: BindingInput)
    requires rest.conversations == d.conversations && rest.activeTransition == d.activeTransition
    ensures Bindable(rest, b) <==> Bindable(d, b)
  {
  }

  // ---- stored operations ----------------------------------------------------------------------

  /** An inventory is taken exactly when it is short, every record is in range and no thread is listed twice; what is
      kept is the same records in the order of their threads. */
  lemma NormalizesExactly(inv: seq<InventoryThread>)
    ensures NormalizeInventory(inv).Ok? <==>
              && |inv| <= MAX_INVENTORY_THREADS && (forall x :: x in inv ==> ThreadRecordOk(x))
              && (forall i, j :: 0 <= i < j < |inv| ==> inv[i].threadId != inv[j].threadId)
    ensures NormalizeInventory(inv).Ok? ==>
              var kept := NormalizeInventory(inv).value;
              multiset(kept) == multiset(inv) && CanonicalInventory(kept)
  {
    var sorted := Sorting.Sort(inv, ByThread);
    assert Sorting.TotalPreorder(ByThread);
    Sorting.SortIsPermutation(inv, ByThread);
    SameMembers(inv, sorted);
    if forall i, j :: 0 <= i < j < |inv| ==> inv[i].threadId != inv[j].threadId {
      var key := (x: InventoryThread) => x.threadId;
      Sorting.SortKeepsDistinct(inv, ByThread, key);
      forall i, j | 0 <= i < j < |sorted| ensures sorted[i].threadId < sorted[j].threadId {
        assert key(sorted[i]) != key(sorted[j]) && ByThread(sorted[i], sorted[j]);
      }
    } else {
      var i, j :| 0 <= i < j < |inv| && inv[i].threadId == inv[j].threadId;
      TwiceStaysTwice(inv, sorted, i, j);
    }
  }

  lemma SameMembers(a: seq<InventoryThread>, b: seq<InventoryThread>)
    requires multiset(a) == multiset(b)
    ensures forall x :: x in a <==> x in b
  {
    forall x ensures x in a <==> x in b {
      assert x in multiset(a) <==> x in multiset(b);
    }
  }

  /** A thread listed twice is listed twice in every order of the list, which is then not strict. */
  lemma TwiceStaysTwice(a: seq<InventoryThread>, b: seq<InventoryThread>, i: nat, j: nat)
    requires multiset(a) == multiset(b) && i < j < |a| && a[i].threadId == a[j].threadId
    ensures !CanonicalInventory(b)
  {
    SameMembers(a, b);
    assert a[i] in a && a[j] in a;
    var m :| 0 <= m < |b| && b[m] == a[i];
    var n :| 0 <= n < |b| && b[n] == a[j];
    if m == n {
      assert a[i] == a[j];
      assert multiset(a)[a[i]] >= 2 by { CountsBoth(a, i, j); }
      if CanonicalInventory(b) { OnlyOnce(b, m); }
    }
  }

  lemma CountsBoth(a: seq<InventoryThread>, i: nat, j: nat)
    requires i < j < |a| && a[i] == a[j]
    ensures multiset(a)[a[i]] >= 2
  {
    assert a == a[..j] + a[j..];
    assert a[..j][i] == a[i] && a[j..][0] == a[i];
    assert a[i] in multiset(a[..j]) && a[i] in multiset(a[j..]);
  }

  lemma OnlyOnce(b: seq<InventoryThread>, m: nat)
    requires CanonicalInventory(b) && m < |b|
    ensures multiset(b)[b[m]] == 1
  {
    assert b == b[..m] + [b[m]] + b[m + 1..];
    assert b[m] !in b[..m] && b[m] !in b[m + 1..];
  }

  /** A stored beginning leaves the given launch, prepared and with the given threads as its inventory; where a launch
      holds the directory already, only its head is marked. */
  lemma BeginOutcome(d: Document, op: Op)
    requires ValidDocument(d) && op.OpBeginLaunch? && Next(d, op) != d
    ensures
      var e := Next(d, op);
      if PendingAt(d.pendingLaunches, op.cwd)
      then HeadMarked(d, e, op.cwd) && e.pendingLaunches == d.pendingLaunches
      else HeadsAsFound(d, e) && |e.pendingLaunches| == |d.pendingLaunches| + 1
           && e.pendingLaunches[..|d.pendingLaunches|] == d.pendingLaunches
           && var p := e.pendingLaunches[|d.pendingLaunches|];
              && p.launchId == op.freshId && p.profileId == op.profile && p.cwd == op.cwd && p.mode == op.mode
              && p.codexVersion == Some(op.version) && p.phase == PendingPhase.Prepared && p.startedAt == op.now
              && multiset(p.preInventory) == multiset(op.inventory) && CanonicalInventory(p.preInventory)
  {
    hide ValidDocument, MarkHead, HeadMarked, NormalizeInventory, CanonicalInventory, DistinctPendings;
    NextIs(d, op);
    DistinctParts(d);
    DistinctParts(Next(d, op));
    NormalizesExactly(op.inventory);
    MarkIsMarked(d, op.cwd);
    MarkKeepsRest(d, op.cwd);
    var ps, qs := d.pendingLaunches, Next(d, op).pendingLaunches;
    if |qs| == |ps| {
      RevisionIsUnseen(d, MarkHead(d, op.cwd), Next(d, op), op.cwd);
    } else {
      PushedApart(ps, qs[|ps|]);
    }
  }

  lemma PushedApart(ps: seq<PendingLaunch>, p: PendingLaunch)
    requires DistinctPendings(ps + [p])
    ensures !PendingAt(ps, p.cwd)
  {
    var all := ps + [p];
    forall i | 0 <= i < |ps| ensures ps[i].cwd != p.cwd {
      assert all[i] == ps[i] && all[|ps|] == p;
    }
  }

  /** A launch is begun exactly for a tracked mode, the pinned version and a usable inventory, outside a transition. */
  lemma BeginsExactly(d: Document, op: Op)
    requires op.OpBeginLaunch?
    ensures EditOf(d, op).Ok? <==>
              && !op.mode.Untracked() && op.version == CODEX_VERSION && !Transitioning(d, op.cwd)
              && |op.inventory| <= MAX_INVENTORY_THREADS && (forall x :: x in op.inventory ==> ThreadRecordOk(x))
              && (forall i, j :: 0 <= i < j < |op.inventory| ==> op.inventory[i].threadId != op.inventory[j].threadId)
  {
    hide NormalizeInventory, MarkHead, ThreadRecordOk;
    NormalizesExactly(op.inventory);
  }

  lemma MarkKeepsRest(d: Document, cwd: Cwd)
    ensures
      var e := MarkHead(d, cwd);
      && e.pendingLaunches == d.pendingLaunches && e.activeTransition == d.activeTransition
      && e.conversations == d.conversations && e.schemaVersion == d.schemaVersion
  {
  }

  lemma RevisionIsUnseen(d: Document, e: Document, f: Document, cwd: Cwd)
    requires e.workspaceHeads == f.workspaceHeads && e.conversations == f.conversations
    ensures HeadMarked(d, e, cwd) ==> HeadMarked(d, f, cwd)
  {
  }

  /** A stored mark of a launch sets its phase and nothing else. */
  lemma PhaseOutcome(d: Document, op: Op)
    requires (op.OpProviderStarted? || op.OpCaptureFailed?) && Next(d, op) != d
    ensures FindLaunch(d.pendingLaunches, op.id) < |d.pendingLaunches|
    ensures
      var e, k := Next(d, op), FindLaunch(d.pendingLaunches, op.id);
      && HeadsAsFound(d, e) && e.activeTransition == d.activeTransition && |e.pendingLaunches| == |d.pendingLaunches|
      && (forall i :: 0 <= i < |d.pendingLaunches| && i != k ==> e.pendingLaunches[i] == d.pendingLaunches[i])
      && e.pendingLaunches[k]
         == d.pendingLaunches[k].(phase := if op.OpProviderStarted? then ProviderStarted else CaptureFailed)
  {
    hide ValidDocument;
    NextIs(d, op);
  }

  /** A stored resolution of a launch leaves what resolving says; a binding is what the directory resolves to. */
  lemma StoredFinish(d: Document, op: Op)
    requires ValidDocument(d) && op.OpFinishLaunch? && Next(d, op) != d
    ensures FindLaunch(d.pendingLaunches, op.id) < |d.pendingLaunches|
    ensures
      var p, e := d.pendingLaunches[FindLaunch(d.pendingLaunches, op.id)], Next(d, op);
      && OnlyThisGone(d, e, p)
      && if WouldMark(d, p, op.resolution) then HeadMarked(d, e, p.cwd)
         else if WouldBind(d, p, op.resolution) then
           exists head :: BoundTo(d, e, op.resolution.binding, head, op.freshId, op.now)
                          && ResolveHead(e, p.cwd) == Ok(head)
         else HeadsAsFound(d, e)
  {
    hide ValidDocument, FinishLaunch, HeadMarked, OnlyThisGone, BoundTo, ResolveHead, DirectoryMarked, Bindable,
         PendingAt;
    NextIs(d, op);
    DistinctParts(Next(d, op));
    FinishOutcome(d, op.id, op.resolution, op.freshId, op.now);
    var p := d.pendingLaunches[FindLaunch(d.pendingLaunches, op.id)];
    var (e, reply) := FinishLaunch(d, op.id, op.resolution, op.freshId, op.now).value;
    RevisionIsUnseen(d, e, Next(d, op), p.cwd);
    RestGone(d, e, Next(d, op), p);
    if WouldBind(d, p, op.resolution) && !WouldMark(d, p, op.resolution) {
      FinishesExactly(d, op.id, op.resolution, op.freshId, op.now);
      StoredBinding(d, e, Next(d, op), op.resolution.binding, reply.value, op.freshId, op.now);
    }
  }

  lemma StoredBinding(d: Document, e: Document, f: Document, b: BindingInput, head: HeadBinding, newId: Uuid, now: int)
    requires BoundTo(d, e, b, head, newId, now) && ValidDocument(f) && Bindable(d, b)
    requires f.conversations == e.conversations && f.workspaceHeads == e.workspaceHeads
    requires f.activeTransition == d.activeTransition && !PendingAt(f.pendingLaunches, b.cwd)
    ensures BoundTo(d, f, b, head, newId, now) && ResolveHead(f, b.cwd) == Ok(head)
  {
    assert BoundTo(d, f, b, head, newId, now) by { hide ValidDocument; }
    hide BoundTo;
    BoundResolves(d, f, b, head, newId, now);
  }

  /** An adoption succeeds exactly for a bindable thread in a directory no launch holds. */
  lemma AdoptsExactly(d: Document, b: BindingInput, newId: Uuid, now: nat)
    requires ValidDocument(d)
    ensures Adopt(d, b, newId, now).Ok? <==> Bindable(d, b) && !PendingAt(d.pendingLaunches, b.cwd)
  {
    hide ValidDocument, BindDocument;
    BindsExactly(d, b, newId, now);
  }

  /** A stored adoption makes its thread what the directory resolves to, and its reply is that. */
  lemma StoredAdoption(d: Document, op: Op)
    requires ValidDocument(d) && op.OpAdopt? && Next(d, op) != d
    ensures
      var e, r := Next(d, op), Transact(d, Adopt(d, op.binding, op.freshId, op.now)).1;
      && e.pendingLaunches == d.pendingLaunches && r.Ok? && ResolveHead(e, op.binding.cwd) == r
      && BoundTo(d, e, op.binding, r.value, op.freshId, op.now)
  {
    hide ValidDocument, BindDocument, BoundTo, ResolveHead, Bindable;
    NextIs(d, op);
    DistinctParts(Next(d, op));
    AdoptsExactly(d, op.binding, op.freshId, op.now);
    BindOutcome(d, op.binding, op.freshId, op.now);
    var (e, head) := BindDocument(d, op.binding, op.freshId, op.now).value;
    StoredBinding(d, e, Next(d, op), op.binding, head, op.freshId, op.now);
  }

  /** A refresh succeeds exactly while the directory resolves to the expected binding, up to its lifecycle. */
  lemma RefreshesExactly(d: Document, x: HeadBinding, b: BindingInput, newId: Uuid, now: nat)
    requires ValidDocument(d)
    ensures RefreshAdopted(d, x, b, newId, now).Ok? <==>
              && b.codexVersion == CODEX_VERSION && Usable(b.lifecycle)
              && x.profileId == b.profileId && x.threadId == b.threadId && x.cwd == b.cwd
              && x.codexVersion == b.codexVersion
              && ResolveHead(d, b.cwd).Ok? && ResolveHead(d, b.cwd).value.(lifecycle := x.lifecycle) == x
  {
    hide ValidDocument, BindDocument;
    BindsExactly(d, b, newId, now);
    if ResolveHead(d, b.cwd).Ok? {
      ResolvedIsActive(d, b.cwd);
    }
  }

  /** What a directory resolves to is the active generation of a lineage in that directory. */
  lemma ResolvedIsActive(d: Document, cwd: Cwd)
    requires ValidDocument(d) && ResolveHead(d, cwd).Ok?
    ensures
      var head := ResolveHead(d, cwd).value;
      var k := FindConversation(d.conversations, head.conversationId);
      && !Transitioning(d, cwd) && !PendingAt(d.pendingLaunches, cwd) && head.cwd == cwd
      && head.codexVersion == CODEX_VERSION && k < |d.conversations|
      && ActiveIs(d.conversations[k], head.profileId, head.threadId, cwd)
      && d.conversations[k].activeGeneration == head.generation && d.conversations[k].lifecycle == head.lifecycle
      && ThreadBound(d.conversations, head.threadId)
  {
    var h := d.workspaceHeads[FindHead(d.workspaceHeads, Codex, cwd)];
    assert ReadyHeadOk(d.conversations, h);
    var k := FindConversation(d.conversations, h.conversationId.value);
    var c := d.conversations[k];
    assert ValidConversation(c, d.schemaVersion == 1);
    FindGenerationIs(c, d.schemaVersion == 1, h.generation.value);
    assert ValidGeneration(c, c.activeGeneration, d.schemaVersion == 1);
    hide ValidDocument, ValidConversation, ValidGeneration, ReadyHeadOk;
    ActiveIsBound(d.conversations, k, c.generations[c.activeGeneration].profileId,
                  c.generations[c.activeGeneration].threadId, cwd);
  }

  /** A stored refresh changes what the directory resolves to in its lifecycle alone. */
  lemma StoredRefresh(d: Document, op: Op)
    requires ValidDocument(d) && op.OpRefresh? && Next(d, op) != d
    ensures
      var e, x := Next(d, op), op.expected.(lifecycle := op.binding.lifecycle);
      && ResolveHead(e, op.binding.cwd) == Ok(x) && OtherHeadsKept(d, e, op.binding.cwd)
      && (forall id :: id != x.conversationId ==> ConversationAt(e, id) == ConversationAt(d, id))
      && e.pendingLaunches == d.pendingLaunches
  {
    hide ValidDocument, BindDocument, ResolveHead, Bindable;
    NextIs(d, op);
    DistinctParts(Next(d, op));
    var b := op.binding;
    RefreshesExactly(d, op.expected, b, op.freshId, op.now);
    ResolvedIsActive(d, b.cwd);
    BindsExactly(d, b, op.freshId, op.now);
    BindOutcome(d, b, op.freshId, op.now);
    var (e, head) := BindDocument(d, b, op.freshId, op.now).value;
    StoredBinding(d, e, Next(d, op), b, head, op.freshId, op.now);
    SameLineage(d, Next(d, op), b, head, op.freshId, op.now, op.expected.conversationId);
  }

  /** A thread bound already keeps its conversation and generation. */
  lemma SameLineage(d: Document, e: Document, b: BindingInput, head: HeadBinding, newId: Uuid, now: int, id: Uuid)
    requires ValidDocument(d) && BoundTo(d, e, b, head, newId, now)
    requires ConversationAt(d, id).Some? && ActiveIs(ConversationAt(d, id).value, b.profileId, b.threadId, b.cwd)
    ensures head.conversationId == id && head.generation == ConversationAt(d, id).value.activeGeneration
  {
    assert DistinctThreads(d.conversations);
    var i := FindConversation(d.conversations, id);
    var k := FindConversation(d.conversations, head.conversationId);
    hide ValidDocument, DistinctThreads;
    ActiveIsBound(d.conversations, i, b.profileId, b.threadId, b.cwd);
    var c, e := d.conversations[k], d.conversations[i];
    HolderIsOwner(d.conversations, k, c.activeGeneration, i, e.activeGeneration);
  }

  /** A directory is marked exactly outside a transition. */
  lemma StoredMarking(d: Document, op: Op)
    requires ValidDocument(d) && op.OpMarkAmbiguous?
    ensures EditOf(d, op).Ok? <==> !Transitioning(d, op.cwd)
    ensures Next(d, op) != d ==> HeadMarked(d, Next(d, op), op.cwd) && Next(d, op).pendingLaunches == d.pendingLaunches
  {
    hide ValidDocument, MarkHead, HeadMarked;
    NextIs(d, op);
    DistinctParts(d);
    MarkIsMarked(d, op.cwd);
    MarkKeepsRest(d, op.cwd);
    if Next(d, op) != d { RevisionIsUnseen(d, MarkHead(d, op.cwd), Next(d, op), op.cwd); }
  }

  /** Untracked ownership is taken exactly of a free directory; it marks the head and records the launch at once. */
  lemma StoredUntracked(d: Document, op: Op)
    requires ValidDocument(d) && op.OpPrepareUntracked?
    ensures EditOf(d, op).Ok? <==>
              op.mode.Untracked() && !Transitioning(d, op.cwd) && !PendingAt(d.pendingLaunches, op.cwd)
    ensures Next(d, op) != d ==>
              var e := Next(d, op);
              && HeadMarked(d, e, op.cwd)
              && |e.pendingLaunches| == |d.pendingLaunches| + 1
              && e.pendingLaunches[..|d.pendingLaunches|] == d.pendingLaunches
              && var p := e.pendingLaunches[|d.pendingLaunches|];
                 && p.launchId == op.freshId && p.profileId == op.profile && p.cwd == op.cwd && p.mode == op.mode
                 && p.codexVersion.None? && p.preInventory == [] && p.phase == PendingPhase.Prepared
                 && p.startedAt == op.now
  {
    hide ValidDocument, MarkHead, HeadMarked, PendingAt;
    NextIs(d, op);
    DistinctParts(d);
    MarkIsMarked(d, op.cwd);
    MarkKeepsRest(d, op.cwd);
    if Next(d, op) != d { RevisionIsUnseen(d, MarkHead(d, op.cwd), Next(d, op), op.cwd); }
  }

  // ---- what readers find ----------------------------------------------------------------------

  /** The launch a profile owns in a directory of a valid document: there is at most one, and it is found. */
  lemma OwnLaunchIsFound(d: Document, profile: Uuid, cwd: Cwd)
    requires ValidDocument(d)
    ensures PendingFor(d, profile, cwd).Ok?
    ensures forall p :: PendingFor(d, profile, cwd) == Ok(Some(p)) <==>
                          p in d.pendingLaunches && p.profileId == profile && p.cwd == cwd
  {
    DistinctParts(d);
    hide ValidDocument;
    var ps := d.pendingLaunches;
    var k := FirstPending(ps, profile, cwd);
    if k < |ps| {
      var rest := ps[k + 1..];
      forall i | 0 <= i < |rest| ensures rest[i].cwd != cwd { assert rest[i] == ps[k + 1 + i]; }
      forall p | p in ps && p.profileId == profile && p.cwd == cwd ensures p == ps[k] {
        var i :| 0 <= i < |ps| && ps[i] == p;
      }
    } else {
      forall p | p in ps ensures !(p.profileId == profile && p.cwd == cwd) {
        var i :| 0 <= i < |ps| && ps[i] == p;
      }
    }
  }

  /** A directory resolves exactly when neither a transition nor a launch holds it and its head is ready. */
  lemma ResolvesExactly(d: Document, cwd: Cwd)
    requires ValidDocument(d)
    ensures ResolveHead(d, cwd).Ok? <==>
              && !Transitioning(d, cwd) && !PendingAt(d.pendingLaunches, cwd)
              && HeadAt(d.workspaceHeads, Codex, cwd).Some?
              && HeadAt(d.workspaceHeads, Codex, cwd).value.state == Ready
  {
    var k := FindHead(d.workspaceHeads, Codex, cwd);
    if k < |d.workspaceHeads| && d.workspaceHeads[k].state == Ready {
      assert ReadyHeadOk(d.conversations, d.workspaceHeads[k]);
      ActiveIsNumbered(d, FindConversation(d.conversations, d.workspaceHeads[k].conversationId.value));
    }
  }

  // ---- handoff --------------------------------------------------------------------------------

  /** A handoff is prepared exactly from the expected head of an idle directory, to another profile, from a source that
      carries no other handoff metadata. */
  lemma PreparesExactly(d: Document, p: HandoffPreparation, id: Uuid, now: int)
    requires ValidDocument(d)
    ensures
      var x := p.expectedSource;
      PrepareHandoff(d, p, id, now).Ok? <==>
        && x.codexVersion == CODEX_VERSION && ValidRollout(p.sourceRollout) && p.reason != UnknownLegacy
        && x.profileId != p.targetProfileId && d.activeTransition.None? && ResolveHead(d, x.cwd) == Ok(x)
        && var c := ConversationAt(d, x.conversationId);
           c.Some? && c.value.activeGeneration < |c.value.generations|
           && var s := c.value.generations[c.value.activeGeneration];
              s.rollout.Some? ==> s.rollout == Some(p.sourceRollout) && s.trustDomainId == Some(p.trustDomainId)
  {
    hide ValidDocument, ValidRollout, ResolveHead;
    var x := p.expectedSource;
    if ResolveHead(d, x.cwd) == Ok(x) {
      ResolvedIsActive(d, x.cwd);
      ActiveIsNumbered(d, FindConversation(d.conversations, x.conversationId));
    }
  }

  lemma ActiveIsNumbered(d: Document, k: nat)
    requires ValidDocument(d) && k < |d.conversations|
    ensures
      var c := d.conversations[k];
      && FindGeneration(c.generations, c.activeGeneration) == c.activeGeneration < |c.generations|
      && c.generations[c.activeGeneration].number == c.activeGeneration < MAX_LINEAGE_GENERATIONS
      && (c.generations[c.activeGeneration].trustDomainId.Some? <==> c.generations[c.activeGeneration].rollout.Some?)
  {
    var c := d.conversations[k];
    assert ValidConversation(c, d.schemaVersion == 1);
    FindGenerationIs(c, d.schemaVersion == 1, c.activeGeneration);
    assert ValidGeneration(c, c.activeGeneration, d.schemaVersion == 1);
  }

  /** The transition is the one requested, and the source generation now carries its rollout and trust domain. */
  lemma PrepareOutcome(d: Document, op: Op)
    requires ValidDocument(d) && op.OpPrepareHandoff? && Next(d, op) != d
    ensures
      var e, p := Next(d, op), op.preparation;
      var x := p.expectedSource;
      && e.workspaceHeads == d.workspaceHeads && e.pendingLaunches == d.pendingLaunches
      && e.activeTransition
         == Some(HandoffTransition(op.id, x.conversationId, x.generation, x.generation + 1, x.profileId,
                                   p.targetProfileId, x.cwd, p.trustDomainId, p.reason, p.sourceRollout,
                                   HandoffPhase.Prepared, [], 0, None, None, op.now, op.now))
      && (forall id :: id != x.conversationId ==> ConversationAt(e, id) == ConversationAt(d, id))
      && var before, after := ConversationAt(d, x.conversationId), ConversationAt(e, x.conversationId);
         && before.Some? && x.generation < |before.value.generations|
         && after == Some(before.value.(generations := before.value.generations[x.generation :=
              before.value.generations[x.generation].(trustDomainId := Some(p.trustDomainId),
                                                      rollout := Some(p.sourceRollout))]))
  {
    hide ValidDocument, PrepareHandoff, ResolveHead, ValidRollout;
    NextIs(d, op);
    MigrateKeepsValid(d);
    var m, p := Migrate(d), op.preparation;
    PreparesExactly(m, p, op.id, op.now);
    PrepareShape(m, p, op.id, op.now);
    ResolvedIsActive(m, p.expectedSource.cwd);
    DistinctParts(m);
    var k := FindConversation(m.conversations, p.expectedSource.conversationId);
    UpdatedLineage(m, Next(d, op), k, Stamped(m.conversations[k], p.trustDomainId, p.sourceRollout));
  }

  /** What a step records: its phase, its time, and the baseline, retry or target it was given. */
  ghost predicate Records(t: HandoffTransition, u: HandoffTransition, op: Op) {
    match op
    case OpStopRequested(_, now) => u == t.(phase := SourceStopRequested, updatedAt := now)
    case OpStopped(_, now) => u == t.(phase := SourceStopped, updatedAt := now)
    case OpForkIntent(_, baseline, now) =>
      u == t.(phase := ForkRequested, baseline := baseline, forkAttempts := 1, forkRequestedAt := Some(now),
              updatedAt := now)
    case OpForkRetry(_, now) => u == t.(forkAttempts := 2, forkRequestedAt := Some(now), updatedAt := now)
    case OpObserve(_, target, now) =>
      u == t.(phase := ForkObserved, updatedAt := now,
              observed := Some(ObservedTarget(target.threadId, target.cwd, target.codexVersion, ADAPTER_VERSION,
                                              target.rollout, now)))
    case _ => false
  }

  predicate RecordsOnly(op: Op) {
    op.OpStopRequested? || op.OpStopped? || op.OpForkIntent? || op.OpForkRetry? || op.OpObserve?
  }

  lemma RecordEdit(d: Document, op: Op)
    requires d.schemaVersion == 2 && d.activeTransition.Some? && RecordsOnly(op) && EditOf(d, op).Ok?
    ensures EditOf(d, op).value.activeTransition.Some? && d.activeTransition.value.transitionId == op.id
    ensures Records(d.activeTransition.value, EditOf(d, op).value.activeTransition.value, op)
  {
    hide ValidRollout, ThreadBound, CanonicalBaseline, FindConversation, FindGeneration, SameRolloutFile;
  }

  /** A stored step of a handoff records what it was given and changes nothing else. */
  lemma RecordOutcome(d: Document, op: Op)
    requires ValidDocument(d) && Next(d, op) != d && RecordsOnly(op)
    ensures d.activeTransition.Some? && d.activeTransition.value.transitionId == op.id
    ensures
      var u := Next(d, op).activeTransition;
      && u.Some? && Next(d, op) == d.(activeTransition := u, revision := d.revision + 1)
      && Records(d.activeTransition.value, u.value, op)
  {
    hide ValidDocument, EditOf, Next, Records;
    NextIs(d, op);
    RecordMoves(d, op);
    RecordEdit(d, op);
  }

  /** A fork is recorded exactly for a stopped source and a baseline in strict order. */
  lemma ForksExactly(d: Document, id: Uuid, baseline: seq<Uuid>, now: int)
    requires ValidDocument(d)
    ensures RecordForkIntent(d, id, baseline, now).Ok? <==>
              CanonicalBaseline(baseline) && ExactTransition(d, id, SourceStopped).Ok?
  {
    hide ValidContents, TransitionLineageOk, TransitionHeadOk, ValidRollout, CanonicalBaseline;
    if ExactTransition(d, id, SourceStopped).Ok? { assert TransitionRecordOk(d.activeTransition.value); }
  }

  /** The one retry is recorded exactly after the first attempt and before a target is observed. */
  lemma RetriesExactly(d: Document, id: Uuid, now: int)
    requires ValidDocument(d)
    ensures RecordForkRetry(d, id, now).Ok? <==>
              ExactTransition(d, id, ForkRequested).Ok? && d.activeTransition.value.forkAttempts == 1
  {
    if d.activeTransition.Some? { assert TransitionRecordOk(d.activeTransition.value); }
    hide ValidContents, TransitionLineageOk, TransitionHeadOk, ValidRollout, CanonicalBaseline;
  }

  /** A target is observed exactly for the pinned version, in the source's directory and another file, bound nowhere. */
  lemma ObservesExactly(d: Document, id: Uuid, target: HandoffTarget, now: int)
    requires ValidDocument(d)
    ensures ObserveTarget(d, id, target, now).Ok? <==>
              && target.codexVersion == CODEX_VERSION && ValidRollout(target.rollout)
              && ExactTransition(d, id, ForkRequested).Ok?
              && target.cwd == d.activeTransition.value.cwd
              && !SameRolloutFile(target.rollout, d.activeTransition.value.sourceRollout)
              && !ThreadBound(d.conversations, target.threadId)
  {
    if d.activeTransition.Some? {
      var t := d.activeTransition.value;
      var k := FindConversation(d.conversations, t.conversationId);
      assert ValidConversation(d.conversations[k], false);
      FindGenerationIs(d.conversations[k], false, t.sourceGeneration);
    }
    hide ValidDocument, ValidRollout, ThreadBound;
  }

  /** A stored commit appends the observed target to the lineage, moves its head there and leaves it interrupted. */
  lemma CommitOutcome(d: Document, op: Op)
    requires ValidDocument(d) && op.OpCommit? && Next(d, op) != d
    ensures d.activeTransition.Some? && d.activeTransition.value.observed.Some?
    ensures
      var t, e := d.activeTransition.value, Next(d, op);
      var o := t.observed.value;
      && e.activeTransition == Some(t.(phase := CommittedUnattached, updatedAt := op.now))
      && e.pendingLaunches == d.pendingLaunches && OtherHeadsKept(d, e, t.cwd)
      && HeadAt(e.workspaceHeads, Codex, t.cwd)
         == Some(WorkspaceHead(Codex, t.cwd, Ready, Some(t.conversationId), Some(t.targetGeneration)))
      && (forall id :: id != t.conversationId ==> ConversationAt(e, id) == ConversationAt(d, id))
      && var before, after := ConversationAt(d, t.conversationId), ConversationAt(e, t.conversationId);
         && before.Some? && after.Some? && t.targetGeneration == |before.value.generations|
         && after.value.lifecycle == Interrupted && after.value.activeGeneration == t.targetGeneration
         && after.value.generations == before.value.generations
              + [Generation(t.targetGeneration, t.targetProfileId, o.threadId, o.cwd, o.codexVersion, o.adapterVersion,
                            o.observedAt, Some(t.trustDomainId), Some(o.rollout))]
  {
    NextIs(d, op);
    DistinctParts(d);
    var t, e := d.activeTransition.value, Next(d, op);
    var k := FindConversation(d.conversations, t.conversationId);
    assert TransitionLineageOk(d.conversations[k], t) && TransitionHeadOk(d.workspaceHeads, t);
    assert ValidConversation(d.conversations[k], false);
    hide ValidDocument, ThreadBound, ValidRollout, ValidConversation, ObservedOk, DistinctIds;
    UpdatedLineage(d, e, k, e.conversations[k]);
    var h := FindHead(d.workspaceHeads, Codex, t.cwd);
    MovedHead(d, e, h, t.cwd);
  }

  /** Replacing a head under its own key changes what is found there only. */
  lemma MovedHead(d: Document, e: Document, h: nat, cwd: Cwd)
    requires DistinctHeads(d.workspaceHeads) && h < |d.workspaceHeads| && |e.workspaceHeads| == |d.workspaceHeads|
    requires e.workspaceHeads == d.workspaceHeads[h := e.workspaceHeads[h]]
    requires d.workspaceHeads[h].provider == e.workspaceHeads[h].provider == Codex
    requires d.workspaceHeads[h].cwd == e.workspaceHeads[h].cwd == cwd
    ensures OtherHeadsKept(d, e, cwd) && HeadAt(e.workspaceHeads, Codex, cwd) == Some(e.workspaceHeads[h])
  {
    var hs, gs := d.workspaceHeads, e.workspaceHeads;
    assert DistinctHeads(gs) && gs[h] in gs;
    HeadAtMember(gs, gs[h]);
    forall p, c | !(p == Codex && c == cwd) ensures HeadAt(gs, p, c) == HeadAt(hs, p, c) {
      var n, m := FindHead(hs, p, c), FindHead(gs, p, c);
      if n < |hs| { assert gs[n] == hs[n] && gs[n] in gs; HeadAtMember(gs, hs[n]); }
      if m < |gs| { assert gs[m] == hs[m] && hs[m] in hs; HeadAtMember(hs, hs[m]); }
    }
  }

  /** The same request, with the baseline of the fork and the observed target as once recorded. */
  predicate Remembers(t: HandoffTransition, u: HandoffTransition) {
    && u.transitionId == t.transitionId && u.conversationId == t.conversationId && u.cwd == t.cwd
    && u.sourceGeneration == t.sourceGeneration && u.targetGeneration == t.targetGeneration
    && u.sourceProfileId == t.sourceProfileId && u.targetProfileId == t.targetProfileId
    && u.trustDomainId == t.trustDomainId && u.reason == t.reason && u.sourceRollout == t.sourceRollout
    && u.preparedAt == t.preparedAt
    && (ForkStarted(t.phase) ==> ForkStarted(u.phase) && u.baseline == t.baseline)
    && (t.observed.Some? ==> u.observed == t.observed)
  }

  lemma StepRemembers(d: Document, op: Op)
    requires ValidDocument(d) && d.activeTransition.Some? && !op.OpAttach?
    ensures Next(d, op).activeTransition.Some?
    ensures Remembers(d.activeTransition.value, Next(d, op).activeTransition.value)
  {
    NotYetObserved(d);
    hide ValidDocument, EditOf, Next;
    NextIs(d, op);
    if Next(d, op) != d {
      if !IsHandoffOp(op) {
        OrdinaryOpFrames(d, op);
      } else {
        HandoffOpMoves(d, op);
        if op.OpCommit? { CommitOutcome(d, op); } else { RecordOutcome(d, op); }
      }
    }
  }

  lemma NotYetObserved(d: Document)
    requires ValidDocument(d) && d.activeTransition.Some?
    ensures d.activeTransition.value.observed.Some? <==> TargetObserved(d.activeTransition.value.phase)
  {
  }

  /** Until a stored attachment every run remembers the request, the baseline and the target. */
  lemma {:induction false} RunRemembers(d: Document, ops: seq<Op>)
    requires ValidDocument(d) && d.activeTransition.Some? && AllRefused(d, ops, Attachment)
    ensures RunOps(d, ops).activeTransition.Some?
    ensures Remembers(d.activeTransition.value, RunOps(d, ops).activeTransition.value)
    decreases |ops|
  {
    hide ValidDocument, Next;
    if ops != [] {
      if Next(d, ops[0]) != d { StepRemembers(d, ops[0]); }
      NextIsValid(d, ops[0]);
      RunRemembers(Next(d, ops[0]), ops[1..]);
    }
  }

  /** The baseline given with a stored fork intent is the one on record until the stored attachment. */
  lemma BaselineStays(d: Document, id: Uuid, baseline: seq<Uuid>, now: nat, ops: seq<Op>)
    requires ValidDocument(d) && Next(d, OpForkIntent(id, baseline, now)) != d
    requires AllRefused(Next(d, OpForkIntent(id, baseline, now)), ops, Attachment)
    ensures
      var t := RunOps(Next(d, OpForkIntent(id, baseline, now)), ops).activeTransition;
      t.Some? && t.value.transitionId == id && t.value.baseline == baseline
  {
    hide ValidDocument, Next;
    NextIsValid(d, OpForkIntent(id, baseline, now));
    RecordOutcome(d, OpForkIntent(id, baseline, now));
    RunRemembers(Next(d, OpForkIntent(id, baseline, now)), ops);
  }
}
