/** The validator as the program runs it: nested loops with early refusal, deciding the invariant. */
module RegistryValidator {
  import opened Prelude
  import Sorting
  import opened ConversationModel
  import opened RegistryEdits
  import opened RegistryValidity

  lemma {:induction false} SortOfSorted(inv: seq<InventoryThread>)
    requires forall i, j :: 0 <= i < j < |inv| ==> inv[i].threadId < inv[j].threadId
    ensures Sorting.Sort(inv, ByThread) == inv
  {
    if inv != [] {
      var front := inv[..|inv| - 1];
      SortOfSorted(front);
      assert inv == front + [inv[|inv| - 1]];
    }
  }

  /** An inventory is canonical exactly when normalizing it changes nothing. */
  lemma CanonicalIsNormalized(inv: seq<InventoryThread>)
    ensures CanonicalInventory(inv) <==> NormalizeInventory(inv) == Ok(inv)
  {
    if CanonicalInventory(inv) { SortOfSorted(inv); }
  }

  method ValidateConversation(c: Conversation, v1: bool) returns (ok: bool)
    ensures ok <==> ValidConversation(c, v1)
  {
    if c.provider != Codex || |c.generations| == 0 || |c.generations| > MAX_LINEAGE_GENERATIONS
       || (v1 && (|c.generations| != 1 || c.activeGeneration != 0))
    {
      return false;
    }
    if !Usable(c.lifecycle) {
      return false;
    }
    var n := |c.generations|;
    if c.generations[n - 1].number != c.activeGeneration {
      assert ValidGeneration(c, n - 1, v1) ==> c.generations[n - 1].number == n - 1;
      return false;
    }
    var domain: Option<Uuid> := None;
    ghost var first := 0;
    for k := 0 to n
      invariant domain.None? ==> forall j :: 0 <= j < k ==> c.generations[j].trustDomainId.None?
      invariant domain.Some? ==> first < k && c.generations[first].trustDomainId == domain
    {
      if domain.None? && c.generations[k].trustDomainId.Some? {
        domain, first := c.generations[k].trustDomainId, k;
      }
    }
    for k := 0 to n
      invariant forall j :: 0 <= j < k ==> ValidGeneration(c, j, v1)
      invariant forall j :: 0 <= j < k && c.generations[j].trustDomainId.Some? ==>
                              c.generations[j].trustDomainId == domain
    {
      if !ValidGeneration(c, k, v1) {
        return false;
      }
      if c.generations[k].trustDomainId.Some? && c.generations[k].trustDomainId != domain {
        return false;
      }
    }
    assert ValidGeneration(c, n - 1, v1);
    return true;
  }

  lemma ThreadSeenTwice(cs: seq<Conversation>, i: nat, g: nat)
    requires i < |cs| && g < |cs[i].generations|
    requires (exists j :: 0 <= j < i && HasThread(cs[j], cs[i].generations[g].threadId))
             || exists k :: 0 <= k < g && cs[i].generations[k].threadId == cs[i].generations[g].threadId
    ensures !DistinctThreads(cs)
  {
    if j :| 0 <= j < i && HasThread(cs[j], cs[i].generations[g].threadId) {
      assert HasThread(cs[i], cs[i].generations[g].threadId);
      var k :| 0 <= k < |cs[j].generations| && cs[j].generations[k].threadId == cs[i].generations[g].threadId;
      assert !ThreadsApart(cs[j], cs[i]);
    }
  }

  /** Conversation ids and thread ids are checked against everything that comes earlier. */
  method ValidateConversations(cs: seq<Conversation>, v1: bool) returns (ok: bool)
    ensures ok <==> ValidConversations(cs, v1)
  {
    hide ValidConversation;
    for i := 0 to |cs|
      invariant forall j :: 0 <= j < i ==> ValidConversation(cs[j], v1)
      invariant DistinctIds(cs[..i]) && DistinctThreads(cs[..i])
    {
      var one := ValidateConversation(cs[i], v1);
      if !one {
        return false;
      }
      if exists j :: 0 <= j < i && cs[j].conversationId == cs[i].conversationId {
        return false;
      }
      for g := 0 to |cs[i].generations|
        invariant forall h, j :: 0 <= h < g && 0 <= j < i ==> !HasThread(cs[j], cs[i].generations[h].threadId)
        invariant forall h, k :: 0 <= k < h < g ==> cs[i].generations[k].threadId != cs[i].generations[h].threadId
      {
        var thread := cs[i].generations[g].threadId;
        if (exists j :: 0 <= j < i && HasThread(cs[j], thread))
           || (exists k :: 0 <= k < g && cs[i].generations[k].threadId == thread)
        {
          ThreadSeenTwice(cs, i, g);
          return false;
        }
      }
      forall j | 0 <= j < i ensures ThreadsApart(cs[j], cs[i]) {
        assert forall h :: 0 <= h < |cs[i].generations| ==> !HasThread(cs[j], cs[i].generations[h].threadId);
      }
    }
    assert cs[..|cs|] == cs;
    return true;
  }

  method ValidateHeads(cs: seq<Conversation>, hs: seq<WorkspaceHead>, v1: bool) returns (ok: bool)
    requires ValidConversations(cs, v1)
    ensures ok <==> ValidHeads(cs, hs)
  {
    for i := 0 to |hs|
      invariant forall j :: 0 <= j < i ==> ValidHead(cs, hs[j])
      invariant DistinctHeads(hs[..i])
    {
      var h := hs[i];
      if exists j :: 0 <= j < i && hs[j].provider == h.provider && hs[j].cwd == h.cwd {
        return false;
      }
      match h.state {
        case Ready =>
          if h.conversationId.None? || h.generation.None? {
            return false;
          }
          var c := FindConversation(cs, h.conversationId.value);
          if c == |cs| {
            return false;
          }
          assert ValidConversation(cs[c], v1);
          FindGenerationIs(cs[c], v1, h.generation.value);
          var g := FindGeneration(cs[c].generations, h.generation.value);
          if g == |cs[c].generations| {
            return false;
          }
          assert ValidGeneration(cs[c], g, v1);
          if cs[c].provider != h.provider || cs[c].generations[g].cwd != h.cwd
             || cs[c].generations[g].number != cs[c].activeGeneration
          {
            return false;
          }
        case NeedsSelection =>
          if h.conversationId.Some? != h.generation.Some? {
            return false;
          }
      }
    }
    assert hs[..|hs|] == hs;
    return true;
  }

  method ValidatePendings(ps: seq<PendingLaunch>) returns (ok: bool)
    ensures ok <==> ValidPendings(ps)
  {
    for i := 0 to |ps|
      invariant forall j :: 0 <= j < i ==> ValidPending(ps[j])
      invariant DistinctPendings(ps[..i])
    {
      var p := ps[i];
      if !AdapterVersionOk(p.adapterVersion) || p.startedAt < 0 || |p.preInventory| > MAX_INVENTORY_THREADS {
        return false;
      }
      if p.mode.Untracked() {
        if p.codexVersion.Some? || p.preInventory != [] {
          return false;
        }
      } else if p.codexVersion != Some(CODEX_VERSION) {
        return false;
      }
      CanonicalIsNormalized(p.preInventory);
      if NormalizeInventory(p.preInventory) != Ok(p.preInventory) {
        return false;
      }
      if exists j :: 0 <= j < i && (ps[j].launchId == p.launchId || ps[j].cwd == p.cwd) {
        return false;
      }
    }
    assert ps[..|ps|] == ps;
    return true;
  }

  // ---- the active transition ------------------------------------------------------------------

  lemma {:induction false} NeighboursAscend(ids: seq<Uuid>, n: nat)
    requires n <= |ids| && forall i :: 0 < i < n ==> ids[i - 1] < ids[i]
    ensures forall i, j :: 0 <= i < j < n ==> ids[i] < ids[j]
  {
    if n > 1 {
      NeighboursAscend(ids, n - 1);
      assert ids[n - 1 - 1] < ids[n - 1];
    }
  }

  method ValidateBaseline(ids: seq<Uuid>) returns (ok: bool)
    ensures ok <==> CanonicalBaseline(ids)
  {
    if |ids| > MAX_INVENTORY_THREADS {
      return false;
    }
    for i := 0 to |ids|
      invariant forall j :: 0 < j < i ==> ids[j - 1] < ids[j]
    {
      if i > 0 && ids[i - 1] >= ids[i] {
        return false;
      }
    }
    NeighboursAscend(ids, |ids|);
    return true;
  }

  /** The checks on what the transition says of itself. */
  method ValidateTransitionRecord(t: HandoffTransition) returns (ok: bool)
    ensures ok <==> TransitionIntentOk(t)
  {
    hide ValidRollout, CanonicalBaseline;
    if !ValidRollout(t.sourceRollout) {
      return false;
    }
    if t.sourceProfileId == t.targetProfileId || t.sourceGeneration + 1 > U32_MAX
       || t.targetGeneration != t.sourceGeneration + 1 || t.preparedAt < 0 || t.updatedAt < t.preparedAt
    {
      return false;
    }
    ok := ValidateBaseline(t.baseline);
    if !ok {
      return;
    }
    if ForkStarted(t.phase) {
      if t.forkRequestedAt.None? {
        return false;
      }
      var requestedAt := t.forkRequestedAt.value;
      return 1 <= t.forkAttempts <= 2 && requestedAt >= t.preparedAt && requestedAt <= t.updatedAt;
    }
    return t.forkAttempts == 0 && t.forkRequestedAt.None? && t.baseline == [];
  }

  /** The checks on an observed target against the transition and its source thread. */
  method ValidateObserved(t: HandoffTransition, sourceThread: Uuid) returns (ok: bool)
    requires t.observed.Some? && 0 <= t.preparedAt
    ensures ok <==> ObservedOk(t, sourceThread)
  {
    hide ValidRollout, AdapterVersionOk;
    var target := t.observed.value;
    if target.codexVersion != CODEX_VERSION || !AdapterVersionOk(target.adapterVersion) || !ValidRollout(target.rollout)
       || target.observedAt < 0
    {
      return false;
    }
    if target.cwd != t.cwd || target.threadId == sourceThread || SameRolloutFile(target.rollout, t.sourceRollout)
       || target.observedAt < t.preparedAt
       || (t.forkRequestedAt.Some? && target.observedAt < t.forkRequestedAt.value)
       || target.observedAt > t.updatedAt
    {
      return false;
    }
    return true;
  }

  /** The checks on the lineage: its source generation, the observation, the active generation and the target. */
  method ValidateTransitionLineage(c: Conversation, t: HandoffTransition) returns (ok: bool)
    requires ValidConversation(c, false) && 0 <= t.preparedAt && t.targetGeneration == t.sourceGeneration + 1
    ensures ok <==> TransitionLineageOk(c, t) && (t.observed.Some? <==> TargetObserved(t.phase))
  {
    FindGenerationIs(c, false, t.sourceGeneration);
    FindGenerationIs(c, false, t.targetGeneration);
    hide ObservedOk, FindGeneration;
    var s := FindGeneration(c.generations, t.sourceGeneration);
    if s == |c.generations| {
      return false;
    }
    var source := c.generations[s];
    if source.profileId != t.sourceProfileId || source.cwd != t.cwd || source.trustDomainId != Some(t.trustDomainId)
       || source.rollout != Some(t.sourceRollout)
    {
      return false;
    }
    if t.observed.Some? != TargetObserved(t.phase) {
      return false;
    }
    if t.observed.Some? {
      ok := ValidateObserved(t, source.threadId);
      if !ok {
        return;
      }
    }
    var committed := t.phase.CommittedUnattached?;
    var expectedActive := if committed then t.targetGeneration else t.sourceGeneration;
    if c.activeGeneration != expectedActive {
      return false;
    }
    var k := FindGeneration(c.generations, t.targetGeneration);
    if !committed {
      return k == |c.generations|;
    }
    if k == |c.generations| {
      return false;
    }
    var target, g := t.observed.value, c.generations[k];
    return g.profileId == t.targetProfileId && g.threadId == target.threadId && g.cwd == target.cwd
        && g.codexVersion == target.codexVersion && g.adapterVersion == target.adapterVersion
        && g.trustDomainId == Some(t.trustDomainId) && g.rollout == Some(target.rollout);
  }

  /** The transition part of the validator, check by check in the program's order. */
  method ValidateTransition(d: Document, t: HandoffTransition) returns (ok: bool)
    requires ValidContents(d, false)
    ensures ok <==> ValidTransition(d, t)
  {
    hide ValidContents, ValidConversation, TransitionLineageOk, ValidRollout, CanonicalBaseline;
    ok := ValidateTransitionRecord(t);
    if !ok {
      return;
    }
    var k := FindConversation(d.conversations, t.conversationId);
    if k == |d.conversations| {
      return false;
    }
    var c := d.conversations[k];
    assert ValidConversation(c, false) && c.provider == Codex by { ConversationIsValid(d, k); }
    ok := ValidateTransitionLineage(c, t);
    if !ok {
      return;
    }
    var h := FindHead(d.workspaceHeads, c.provider, t.cwd);
    if h == |d.workspaceHeads| {
      return false;
    }
    var head := d.workspaceHeads[h];
    if !head.state.Ready? || head.conversationId != Some(t.conversationId)
       || head.generation != Some(if t.phase.CommittedUnattached? then t.targetGeneration else t.sourceGeneration)
    {
      return false;
    }
    return !PendingAt(d.pendingLaunches, t.cwd);
  }

  lemma ConversationIsValid(d: Document, k: nat)
    requires ValidContents(d, false) && k < |d.conversations|
    ensures ValidConversation(d.conversations[k], false) && d.conversations[k].provider == Codex
  {
  }

  /** The validator decides exactly the document invariant. */
  method ValidateDocument(d: Document) returns (ok: bool)
    ensures ok <==> ValidDocument(d)
  {
    if d.schemaVersion != 1 && d.schemaVersion != 2 {
      return false;
    }
    var v1 := d.schemaVersion == 1;
    if v1 && (d.preMigrationBackup.Some? || d.activeTransition.Some?) {
      return false;
    }
    if !v1 && !BackupRecordOk(d) {
      return false;
    }
    ok := ValidateConversations(d.conversations, v1);
    if !ok {
      return;
    }
    ok := ValidateHeads(d.conversations, d.workspaceHeads, v1);
    if !ok {
      return;
    }
    ok := ValidatePendings(d.pendingLaunches);
    if ok && !v1 && d.activeTransition.Some? {
      ok := ValidateTransition(d, d.activeTransition.value);
    }
  }
}
