/** What automatic recovery may bind, and what a launch that was never spawned can gain. */
module CaptureRecovery {
  import opened Prelude
  import opened ConversationModel
  import opened RegistryEdits
  import opened RegistryValidity
  import opened RegistryRuns
  import opened CaptureModel
  import opened CaptureRely

  // ---- the unique difference ------------------------------------------------------------------

  predicate DistinctInventory(inv: seq<InventoryThread>) {
    forall i, j :: 0 <= i < j < |inv| ==> inv[i].threadId != inv[j].threadId
  }

  lemma {:induction false} LookupListed(inv: seq<InventoryThread>, thread: Uuid)
    ensures Lookup(inv, thread).Some? <==> Listed(inv, thread)
    ensures Lookup(inv, thread).Some? ==>
              Lookup(inv, thread).value in inv && Lookup(inv, thread).value.threadId == thread
  {
    if inv != [] {
      LookupListed(inv[..|inv| - 1], thread);
      assert inv == inv[..|inv| - 1] + [inv[|inv| - 1]];
    }
  }

  lemma LookupOfDistinct(inv: seq<InventoryThread>, i: nat)
    requires DistinctInventory(inv) && i < |inv|
    ensures Lookup(inv, inv[i].threadId) == Some(inv[i])
  {
    LookupListed(inv, inv[i].threadId);
    var x := Lookup(inv, inv[i].threadId).value;
    var j :| 0 <= j < |inv| && inv[j] == x;
  }

  lemma {:induction false} ChangedMembers(baseline: seq<InventoryThread>, current: seq<InventoryThread>,
      x: InventoryThread)
    ensures x in Changed(baseline, current) <==> x in current && Lookup(baseline, x.threadId) != Some(x)
  {
    if current != [] {
      ChangedMembers(baseline, current[1..], x);
      assert current == [current[0]] + current[1..];
    }
  }

  lemma {:induction false} ChangedDistinct(baseline: seq<InventoryThread>, current: seq<InventoryThread>)
    requires DistinctInventory(current)
    ensures DistinctInventory(Changed(baseline, current))
  {
    if current != [] {
      ChangedDistinct(baseline, current[1..]);
      var rest := Changed(baseline, current[1..]);
      forall i | 0 <= i < |rest| ensures rest[i].threadId != current[0].threadId {
        ChangedMembers(baseline, current[1..], rest[i]);
        assert rest[i] in current[1..];
        var j :| 0 <= j < |current[1..]| && current[1..][j] == rest[i];
        assert current[j + 1] == rest[i];
      }
    }
  }

  /** The two inventories, as maps from thread to record, differ at this thread. */
  predicate Differ(baseline: seq<InventoryThread>, current: seq<InventoryThread>, thread: Uuid) {
    Lookup(baseline, thread) != Lookup(current, thread)
  }

  /** No thread of the baseline is missing, this thread is new or changed, and every other thread is as it was. */
  ghost predicate UniqueDifference(baseline: seq<InventoryThread>, current: seq<InventoryThread>, thread: Uuid) {
    && (forall u :: Lookup(baseline, u).Some? ==> Lookup(current, u).Some?)
    && Differ(baseline, current, thread)
    && (forall u :: u != thread ==> !Differ(baseline, current, u))
  }

  lemma MissingMeansUnlisted(baseline: seq<InventoryThread>, current: seq<InventoryThread>)
    ensures BaselineMissing(baseline, current) <==> exists u :: Lookup(baseline, u).Some? && Lookup(current, u).None?
  {
    forall u ensures Lookup(baseline, u).Some? <==> Listed(baseline, u) { LookupListed(baseline, u); }
    forall u ensures Lookup(current, u).Some? <==> Listed(current, u) { LookupListed(current, u); }
    if BaselineMissing(baseline, current) {
      var i :| 0 <= i < |baseline| && !Listed(current, baseline[i].threadId);
      assert Listed(baseline, baseline[i].threadId);
      assert Lookup(baseline, baseline[i].threadId).Some? && Lookup(current, baseline[i].threadId).None?;
    }
    if exists u :: Lookup(baseline, u).Some? && Lookup(current, u).None? {
      var u :| Lookup(baseline, u).Some? && Lookup(current, u).None?;
      assert Listed(baseline, u) && !Listed(current, u);
      var i :| 0 <= i < |baseline| && baseline[i].threadId == u;
    }
  }

  /** A thread of the current inventory is listed as changed exactly when the two maps differ there. */
  lemma ChangedMeansDifferent(baseline: seq<InventoryThread>, current: seq<InventoryThread>, u: Uuid)
    requires DistinctInventory(current) && !BaselineMissing(baseline, current)
    ensures Listed(Changed(baseline, current), u) <==> Differ(baseline, current, u)
  {
    MissingMeansUnlisted(baseline, current);
    LookupListed(current, u);
    if Listed(Changed(baseline, current), u) {
      var i :| 0 <= i < |Changed(baseline, current)| && Changed(baseline, current)[i].threadId == u;
      var x := Changed(baseline, current)[i];
      ChangedMembers(baseline, current, x);
      var j :| 0 <= j < |current| && current[j] == x;
      LookupOfDistinct(current, j);
    }
    if Lookup(baseline, u) != Lookup(current, u) {
      var x := Lookup(current, u).value;
      ChangedMembers(baseline, current, x);
      var k :| 0 <= k < |Changed(baseline, current)| && Changed(baseline, current)[k] == x;
    }
  }

  lemma OneChanged(changed: seq<InventoryThread>)
    ensures |changed| == 0 ==> forall u :: !Listed(changed, u)
    ensures |changed| == 1 ==> forall u :: Listed(changed, u) <==> u == changed[0].threadId
    ensures |changed| > 1 && DistinctInventory(changed) ==>
              Listed(changed, changed[0].threadId) && Listed(changed, changed[1].threadId)
              && changed[0].threadId != changed[1].threadId
  {
  }

  /** The candidate is a thread exactly when it is the unique difference, and none exactly when the maps agree. */
  lemma CandidateIsUniqueDifference(baseline: seq<InventoryThread>, current: seq<InventoryThread>)
    requires DistinctInventory(current)
    ensures forall t :: InventoryCandidate(baseline, current) == One(t) <==> UniqueDifference(baseline, current, t)
    ensures InventoryCandidate(baseline, current) == NoCandidate <==> forall u :: !Differ(baseline, current, u)
  {
    hide Lookup, Changed, BaselineMissing, Listed, Differ;
    MissingMeansUnlisted(baseline, current);
    var changed := Changed(baseline, current);
    if BaselineMissing(baseline, current) {
      var u :| Lookup(baseline, u).Some? && Lookup(current, u).None?;
      MissingDiffers(baseline, current, u);
    } else {
      ChangedDistinct(baseline, current);
      OneChanged(changed);
      forall u ensures Listed(changed, u) <==> Differ(baseline, current, u) {
        ChangedMeansDifferent(baseline, current, u);
      }
      assert forall i :: 0 <= i < |changed| && i < 2 ==> Listed(changed, changed[i].threadId);
      assert |changed| > 0 ==> Differ(baseline, current, changed[0].threadId);
      assert |changed| > 1 ==> Differ(baseline, current, changed[1].threadId);
      forall t ensures InventoryCandidate(baseline, current) == One(t) <==> UniqueDifference(baseline, current, t) {
        assert forall u :: Lookup(baseline, u).Some? ==> Lookup(current, u).Some?;
        if |changed| == 1 && changed[0].threadId == t {
          assert Differ(baseline, current, t);
          assert forall u :: u != t ==> !Differ(baseline, current, u);
        }
        if UniqueDifference(baseline, current, t) {
          assert Listed(changed, t);
          assert |changed| == 1;
        }
      }
    }
  }

  lemma MissingDiffers(baseline: seq<InventoryThread>, current: seq<InventoryThread>, u: Uuid)
    requires Lookup(baseline, u).Some? && Lookup(current, u).None?
    ensures Differ(baseline, current, u)
  {
  }

  // ---- what recovery writes -------------------------------------------------------------------

  predicate Binds(op: Op) {
    BindingOfOp(op).Some?
  }

  /** The writes of one routine that concern a single launch. */
  predicate Settles(op: Op, id: Uuid) {
    (op.OpFinishLaunch? && op.id == id) || (op.OpCaptureFailed? && op.id == id)
  }

  lemma FailureWrites<T>(d: Document, id: Uuid, e: Failure, w: World)
    ensures
      var x: Done<T> := FailReconciliation(d, id, e, w);
      |x.writes| == 1 && x.writes[0].before == d && Settles(x.writes[0].op, id) && !Binds(x.writes[0].op)
      && x.document == Next(d, x.writes[0].op) && x.result.Err?
  {
  }

  lemma CandidateWrites(d: Document, id: Uuid, b: BindingInput, w: World, gap: nat)
    ensures
      var x := FinishCandidate(d, id, b, w, gap);
      && 1 <= |x.writes| <= 2 && x.writes[0] == Write(d, OpFinishLaunch(id, Bind(b), w.conversationId, w.now))
      && (|x.writes| == 2 ==> Settles(x.writes[1].op, id) && !Binds(x.writes[1].op)
                              && x.writes[1].before == Meanwhile(Next(d, x.writes[0].op), w, gap))
      && x.document == Next(x.writes[|x.writes| - 1].before, x.writes[|x.writes| - 1].op)
  {
    hide RunOthers, Next;
    var f := Finish(d, id, Bind(b), w);
    if f.result.Err? { FailureWrites<bool>(Meanwhile(f.document, w, gap), id, f.result.error, w); }
  }

  /** Everything recovery may do about a launch: resolve or mark that launch, and bind it only to the unique difference
      of a started launch, never as clean. */
  ghost predicate RecoveryWrite(op: Op, d: Document, w: World) {
    && PendingFor(d, w.profile, w.cwd).Ok? && PendingFor(d, w.profile, w.cwd).value.Some?
    && var p := PendingFor(d, w.profile, w.cwd).value.value;
    && Settles(op, p.launchId)
    && (Binds(op) ==>
          && !p.mode.Untracked() && p.phase != PendingPhase.Prepared
          && w.inventory.Ok? && w.inventory.value.complete
          && op.resolution.binding.profileId == w.profile && op.resolution.binding.cwd == w.cwd
          && op.resolution.binding.lifecycle != Clean
          && InventoryCandidate(p.preInventory, w.inventory.value.threads) == One(op.resolution.binding.threadId))
  }

  ghost predicate Quiet(ws: seq<Write>, id: Uuid) {
    forall x :: x in ws ==> Settles(x.op, id) && !Binds(x.op)
  }

  lemma FailureIsQuiet<T>(d: Document, id: Uuid, e: Failure, w: World)
    ensures var x: Done<T> := FailReconciliation(d, id, e, w); Quiet(x.writes, id)
  {
    FailureWrites<T>(d, id, e, w);
  }

  /** Recovering a candidate binds only a started launch, and never as clean. */
  lemma CandidateRecovery(d: Document, p: PendingLaunch, c: Candidate, w: World)
    ensures forall x :: x in ReconcileCandidate(d, p, c, w).writes ==>
              && Settles(x.op, p.launchId)
              && (Binds(x.op) ==>
                    && p.phase != PendingPhase.Prepared && c == One(x.op.resolution.binding.threadId)
                    && x.op.resolution.binding.profileId == w.profile && x.op.resolution.binding.cwd == w.cwd
                    && x.op.resolution.binding.lifecycle != Clean)
  {
    hide RunOthers, Next, FailReconciliation, FinishCandidate;
    if c.One? && p.phase != PendingPhase.Prepared {
      var read := ReadOf(w, c.thread);
      if read.Err? {
        FailureIsQuiet<()>(d, p.launchId, read.error, w);
      } else {
        FailureIsQuiet<()>(d, p.launchId, Refused(SessionSchemaUnsupported), w);
        var b := BindingFromRead(w.profile, w.cwd, c.thread, read.value);
        if b.Err? {
          FailureIsQuiet<()>(d, p.launchId, b.error, w);
        } else {
          CandidateWrites(d, p.launchId, b.value.(lifecycle := Recovered(b.value.lifecycle)), w, 1);
        }
      }
    }
  }

  /** Automatic recovery touches only the launch it found, and binds only under the conditions above. */
  lemma RecoveryWritesOnly(d: Document, w: World)
    ensures forall x :: x in Reconcile(d, w).writes ==> RecoveryWrite(x.op, d, w)
  {
    hide RunOthers, Next, FailReconciliation, ReconcileCandidate, InventoryCandidate;
    if PendingFor(d, w.profile, w.cwd).Ok? && PendingFor(d, w.profile, w.cwd).value.Some? {
      var p := PendingFor(d, w.profile, w.cwd).value.value;
      var d1 := Meanwhile(d, w, 0);
      if w.inventory.Err? {
        FailureIsQuiet<()>(d1, p.launchId, w.inventory.error, w);
      } else {
        FailureIsQuiet<()>(d1, p.launchId, Refused(SessionSchemaUnsupported), w);
        CandidateRecovery(d1, p, InventoryCandidate(p.preInventory, w.inventory.value.threads), w);
      }
    }
  }
}
