/** Launch capture: the registry writes each routine makes, given what it reads and what others write meanwhile. */
module CaptureModel {
  import opened Prelude
  import opened ConversationModel
  import opened RegistryEdits
  import opened CaptureRely

  // ---- what is read from the provider ---------------------------------------------------------

  datatype Failure = Refused(error: ConversationError) | Other

  /** The lifecycle classes a rollout read can report. */
  datatype ThreadLifecycle = ReadClean | ReadInterrupted | ReadUnknownCrash

  /** A read of the thread that was asked for; a read that names another thread is an error. */
  datatype ThreadRead = ThreadRead(codexVersion: string, cwd: Cwd, lifecycle: ThreadLifecycle)

  datatype Inventory = Inventory(codexVersion: string, threads: seq<InventoryThread>, complete: bool)

  /** Whose lease is held and in which directory, and everything a routine meets outside the registry: reads, fresh
      ids, the clock, and what other processes attempt in the gaps between its own registry accesses. */
  datatype World = World(
    profile: Uuid, cwd: Cwd,
    inventory: Result<Inventory, Failure>, launchInventory: Result<Inventory, Failure>,
    version: Result<string, Failure>, threadReads: map<Uuid, Result<ThreadRead, Failure>>,
    launchId: Uuid, conversationId: Uuid, now: nat, others: seq<seq<Op>>)

  function ReadOf(w: World, thread: Uuid): Result<ThreadRead, Failure> {
    if thread in w.threadReads then w.threadReads[thread] else Err(Refused(RolloutMissing))
  }

  function MapLifecycle(l: ThreadLifecycle): Lifecycle {
    match l
    case ReadClean => Clean
    case ReadInterrupted => Interrupted
    case ReadUnknownCrash => UnknownCrash
  }

  function BindingFromRead(profile: Uuid, cwd: Cwd, thread: Uuid, read: ThreadRead): Result<BindingInput, Failure> {
    if read.cwd != cwd then Err(Refused(CwdMismatch))
    else Ok(BindingInput(profile, thread, cwd, read.codexVersion, MapLifecycle(read.lifecycle)))
  }

  // ---- the inventory difference ---------------------------------------------------------------

  datatype Candidate = NoCandidate | One(thread: Uuid) | Several

  /** The baseline entry of a thread: the last one listed, as inserting into a map leaves it. */
  function Lookup(inv: seq<InventoryThread>, thread: Uuid): Option<InventoryThread> {
    if inv == [] then None
    else if inv[|inv| - 1].threadId == thread then Some(inv[|inv| - 1])
    else Lookup(inv[..|inv| - 1], thread)
  }

  predicate Listed(inv: seq<InventoryThread>, thread: Uuid) {
    exists i :: 0 <= i < |inv| && inv[i].threadId == thread
  }

  predicate BaselineMissing(baseline: seq<InventoryThread>, current: seq<InventoryThread>) {
    exists i :: 0 <= i < |baseline| && !Listed(current, baseline[i].threadId)
  }

  function Changed(baseline: seq<InventoryThread>, current: seq<InventoryThread>): seq<InventoryThread> {
    if current == [] then []
    else
      (if Lookup(baseline, current[0].threadId) != Some(current[0]) then [current[0]] else [])
      + Changed(baseline, current[1..])
  }

  function InventoryCandidate(baseline: seq<InventoryThread>, current: seq<InventoryThread>): Candidate {
    if BaselineMissing(baseline, current) then Several
    else
      var changed := Changed(baseline, current);
      if |changed| == 0 then NoCandidate else if |changed| == 1 then One(changed[0].threadId) else Several
  }

  // ---- writes ---------------------------------------------------------------------------------

  /** One operation of the routine itself, and the document it found. */
  datatype Write = Write(before: Document, op: Op)

  datatype Done<+T> = Done(document: Document, writes: seq<Write>, result: Result<T, Failure>)

  function Gap(w: World, k: nat): seq<Op> {
    if k < |w.others| then w.others[k] else []
  }

  /** The document after the others' operations in one gap. */
  ghost function Meanwhile(d: Document, w: World, k: nat): Document {
    RunOthers(d, Gap(w, k), w.profile)
  }

  function Lift<T>(r: Result<T, ConversationError>): Result<T, Failure> {
    match r
    case Ok(x) => Ok(x)
    case Err(e) => Err(Refused(e))
  }

  ghost function Finish(d: Document, id: Uuid, r: LaunchResolution, w: World): Done<Option<HeadBinding>> {
    var op := OpFinishLaunch(id, r, w.conversationId, w.now);
    Done(Next(d, op), [Write(d, op)], Lift(Transact(d, FinishLaunch(d, id, r, w.conversationId, w.now)).1))
  }

  /** Resolves a launch without a binding, then fails with the given error. */
  ghost function FinishThenFail<T>(d: Document, id: Uuid, r: LaunchResolution, w: World, e: Failure): Done<T> {
    var f := Finish(d, id, r, w);
    Done(f.document, f.writes, Err(if f.result.Err? then f.result.error else e))
  }

  ghost function MarkFailed(d: Document, id: Uuid): Done<()> {
    var op := OpCaptureFailed(id);
    Done(Next(d, op), [Write(d, op)], Lift(Transact(d, SetPhase(d, id, CaptureFailed)).1))
  }

  /** The errors after which nothing can ever be captured for the launch. */
  predicate Terminal(e: Failure) {
    e.Refused? &&
    (e.error.RolloutMissing? || e.error.Archived? || e.error.SessionSchemaUnsupported?
     || e.error.CodexVersionUnsupported? || e.error.ProfileMismatch? || e.error.CwdMismatch?
     || e.error.ThreadProtocolInvalid?)
  }

  ghost function FailReconciliation<T>(d: Document, id: Uuid, e: Failure, w: World): Done<T> {
    if Terminal(e) then FinishThenFail(d, id, Unclear, w, e)
    else
      var m := MarkFailed(d, id);
      Done(m.document, m.writes, Err(if m.result.Err? then m.result.error else e))
  }

  /** Binds the candidate; false when the launch was resolved without a binding. */
  ghost function FinishCandidate(d: Document, id: Uuid, b: BindingInput, w: World, gap: nat): Done<bool> {
    var f := Finish(d, id, Bind(b), w);
    match f.result
    case Ok(head) => Done(f.document, f.writes, Ok(head.Some?))
    case Err(e) =>
      if e == Refused(ProfileMismatch) || e == Refused(CwdMismatch) then
        var x: Done<bool> := FailReconciliation(Meanwhile(f.document, w, gap), id, e, w);
        Done(x.document, f.writes + x.writes, x.result)
      else Done(f.document, f.writes, Err(e))
  }

  const AMBIGUOUS: Failure := Refused(ConversationError.Ambiguous)

  ghost function BindOrAmbiguous(d: Document, id: Uuid, b: BindingInput, w: World, gap: nat): Done<()> {
    var f := FinishCandidate(d, id, b, w, gap);
    Done(f.document, f.writes, match f.result
                               case Err(e) => Err(e)
                               case Ok(bound) => if bound then Ok(()) else Err(AMBIGUOUS))
  }

  // ---- automatic recovery ---------------------------------------------------------------------

  ghost function Reconcile(d: Document, w: World): Done<()> {
    match PendingFor(d, w.profile, w.cwd)
    case Err(e) => Done(d, [], Err(Refused(e)))
    case Ok(None) => Done(d, [], Ok(()))
    case Ok(Some(p)) =>
      var d1 := Meanwhile(d, w, 0);
      if p.mode.Untracked() then FinishThenFail(d1, p.launchId, Unclear, w, AMBIGUOUS)
      else if p.codexVersion.None? then Done(d, [], Err(Refused(RegistryInvalid)))
      else match w.inventory
        case Err(e) => FailReconciliation(d1, p.launchId, e, w)
        case Ok(inventory) =>
          if !inventory.complete then FinishThenFail(d1, p.launchId, Unclear, w, AMBIGUOUS)
          else if Some(inventory.codexVersion) != p.codexVersion then
            FailReconciliation(d1, p.launchId, Refused(SessionSchemaUnsupported), w)
          else ReconcileCandidate(d1, p, InventoryCandidate(p.preInventory, inventory.threads), w)
  }

  ghost function ReconcileCandidate(d: Document, p: PendingLaunch, c: Candidate, w: World)
    : Done<()>
  {
    match c
    case NoCandidate =>
      if p.phase == PendingPhase.Prepared then
        var f := Finish(d, p.launchId, NoThread, w);
        Done(f.document, f.writes, if f.result.Err? then Err(f.result.error) else Ok(()))
      else FinishThenFail(d, p.launchId, Unclear, w, AMBIGUOUS)
    case Several => FinishThenFail(d, p.launchId, Unclear, w, AMBIGUOUS)
    case One(thread) =>
      if p.phase == PendingPhase.Prepared then FinishThenFail(d, p.launchId, Unclear, w, AMBIGUOUS)
      else match ReadOf(w, thread)
        case Err(e) => FailReconciliation(d, p.launchId, e, w)
        case Ok(read) =>
          if Some(read.codexVersion) != p.codexVersion then
            FailReconciliation(d, p.launchId, Refused(SessionSchemaUnsupported), w)
          else match BindingFromRead(w.profile, w.cwd, thread, read)
            case Err(e) => FailReconciliation(d, p.launchId, e, w)
            case Ok(b) => BindOrAmbiguous(d, p.launchId, b.(lifecycle := Recovered(b.lifecycle)), w, 1)
  }

  /** A recovered conversation is never clean. */
  function Recovered(l: Lifecycle): Lifecycle {
    if l == Interrupted then Interrupted else UnknownCrash
  }

  // ---- completing a provider run --------------------------------------------------------------

  datatype Capture =
    | Tracked(launchId: Uuid) | Bound(binding: HeadBinding) | UnsupportedExplicit | Untracked(launchId: Uuid)

  function LaunchOf(c: Capture): Option<Uuid> {
    if c.Tracked? || c.Untracked? then Some(c.launchId) else None
  }

  /** Only a provider that exited successfully leaves a clean boundary. */
  function Settled(l: Lifecycle, succeeded: bool): Lifecycle {
    if !succeeded && l == Clean then UnknownCrash else l
  }

  ghost function CompleteTracked(d: Document, id: Uuid, succeeded: bool, w: World): Done<()> {
    match PendingFor(d, w.profile, w.cwd)
    case Err(e) => Done(d, [], Err(Refused(e)))
    case Ok(None) => Done(d, [], Err(Refused(NotFound)))
    case Ok(Some(p)) =>
      if p.launchId != id || p.mode.Untracked() then Done(d, [], Err(AMBIGUOUS))
      else if p.codexVersion.None? then Done(d, [], Err(Refused(RegistryInvalid)))
      else
        var d1 := Meanwhile(d, w, 0);
        match w.inventory
        case Err(e) => FailReconciliation(d1, id, e, w)
        case Ok(inventory) =>
          if !inventory.complete then FinishThenFail(d1, id, Unclear, w, AMBIGUOUS)
          else if Some(inventory.codexVersion) != p.codexVersion then
            FailReconciliation(d1, id, Refused(SessionSchemaUnsupported), w)
          else
            match InventoryCandidate(p.preInventory, inventory.threads)
            case NoCandidate =>
              var f := Finish(d1, id, NoThread, w);
              Done(f.document, f.writes, if f.result.Err? then Err(f.result.error) else Ok(()))
            case Several => FinishThenFail(d1, id, Unclear, w, AMBIGUOUS)
            case One(thread) => CompleteCandidate(d1, p, thread, succeeded, w)
  }

  ghost function CompleteCandidate(d: Document, p: PendingLaunch, thread: Uuid,
                                   succeeded: bool, w: World): Done<()>
  {
    match ReadOf(w, thread)
    case Err(e) => FailReconciliation(d, p.launchId, e, w)
    case Ok(read) =>
      if Some(read.codexVersion) != p.codexVersion then
        FailReconciliation(d, p.launchId, Refused(SessionSchemaUnsupported), w)
      else match BindingFromRead(w.profile, w.cwd, thread, read)
        case Err(e) => FailReconciliation(d, p.launchId, e, w)
        case Ok(b) => BindOrAmbiguous(d, p.launchId, b.(lifecycle := Settled(b.lifecycle, succeeded)), w, 1)
  }

  ghost function RefreshBound(d: Document, x: HeadBinding, succeeded: bool, w: World): Done<()> {
    match ReadOf(w, x.threadId)
    case Err(e) => Done(d, [], Err(e))
    case Ok(read) =>
      match BindingFromRead(w.profile, w.cwd, x.threadId, read)
      case Err(e) => Done(d, [], Err(e))
      case Ok(b) =>
        var settled := b.(lifecycle := Settled(b.lifecycle, succeeded));
        var op := OpRefresh(x, settled, w.conversationId, w.now);
        var r := Transact(d, RefreshAdopted(d, x, settled, w.conversationId, w.now)).1;
        Done(Next(d, op), [Write(d, op)], if r.Err? then Err(Refused(r.error)) else Ok(()))
  }

  /** Completion never fails its caller: a failed checkpoint is only recorded, so the reply is dropped. */
  ghost function Complete(d: Document, c: Capture, succeeded: bool, w: World): Done<()> {
    match c
    case UnsupportedExplicit => Done(d, [], Ok(()))
    case Untracked(id) => WithoutResult(Finish(d, id, Unclear, w))
    case Tracked(id) =>
      var t := CompleteTracked(d, id, succeeded, w);
      if t.result.Ok? then WithoutResult(t)
      else
        var m := MarkFailed(Meanwhile(t.document, w, 2), id);
        Done(m.document, t.writes + m.writes, Ok(()))
    case Bound(x) =>
      var t := RefreshBound(d, x, succeeded, w);
      if t.result.Ok? then WithoutResult(t)
      else
        var m := MarkAmbiguous(Meanwhile(t.document, w, 2), w.cwd);
        Done(m.document, t.writes + m.writes, Ok(()))
  }

  ghost function WithoutResult<T>(x: Done<T>): Done<()> {
    Done(x.document, x.writes, Ok(()))
  }

  ghost function MarkAmbiguous(d: Document, cwd: Cwd): Done<()> {
    var op := OpMarkAmbiguous(cwd);
    Done(Next(d, op), [Write(d, op)], Lift(Transact(d, MarkWorkspaceAmbiguous(d, cwd)).1))
  }

  // ---- exact resume ---------------------------------------------------------------------------

  datatype ExactMode = ResumeExact | ResumeHead

  function ValidateHeadTarget(head: HeadBinding, profile: Uuid, thread: Uuid, cwd: Cwd): Option<Failure> {
    if head.profileId != profile then Some(Refused(ProfileMismatch))
    else if head.threadId != thread then Some(AMBIGUOUS)
    else if head.cwd != cwd then Some(Refused(CwdMismatch))
    else None
  }

  /** The head of the directory, when it is the binding the caller means to resume. */
  function CheckedHead(d: Document, profile: Uuid, thread: Uuid, cwd: Cwd): Result<HeadBinding, Failure> {
    match ResolveHead(d, cwd)
    case Err(e) => Err(Refused(e))
    case Ok(head) =>
      match ValidateHeadTarget(head, profile, thread, cwd)
      case Some(e) => Err(e)
      case None => Ok(head)
  }

  /** Uncertainty recorded before a resume survives it. */
  function PreserveUncertainty(persisted: Lifecycle, observed: Lifecycle): Lifecycle {
    if persisted == Clean then observed else persisted
  }

  function Persisted(d: Document, mode: ExactMode, profile: Uuid, thread: Uuid, cwd: Cwd)
    : Result<Option<HeadBinding>, Failure>
  {
    match mode
    case ResumeExact => Ok(FindBoundThread(d.conversations, profile, thread, cwd))
    case ResumeHead =>
      match CheckedHead(d, profile, thread, cwd)
      case Err(e) => Err(e)
      case Ok(head) => Ok(Some(head))
  }

  ghost function AdoptExact(d: Document, b: BindingInput, w: World): Done<HeadBinding> {
    match PendingFor(d, w.profile, w.cwd)
    case Err(e) => Done(d, [], Err(Refused(e)))
    case Ok(None) => AdoptNow(Meanwhile(d, w, 5), b, w)
    case Ok(Some(p)) =>
      if p.mode.Untracked() then Done(d, [], Err(AMBIGUOUS))
      else
        var f := FinishCandidate(Meanwhile(d, w, 3), p.launchId, b, w, 4);
        if f.result.Err? then Done(f.document, f.writes, Err(f.result.error))
        else
          var a := AdoptNow(Meanwhile(f.document, w, 5), b, w);
          Done(a.document, f.writes + a.writes, a.result)
  }

  ghost function AdoptNow(d: Document, b: BindingInput, w: World): Done<HeadBinding> {
    var op := OpAdopt(b, w.conversationId, w.now);
    Done(Next(d, op), [Write(d, op)], Lift(Transact(d, Adopt(d, b, w.conversationId, w.now)).1))
  }

  /** The binding an exact resume adopts, from the read and what is persisted; None continues untracked. */
  function ExactBinding(d: Document, mode: ExactMode, thread: Uuid, w: World)
    : Result<BindingInput, Failure>
  {
    match ReadOf(w, thread)
    case Err(e) => Err(e)
    case Ok(read) =>
      match Persisted(d, mode, w.profile, thread, w.cwd)
      case Err(e) => Err(e)
      case Ok(persisted) =>
        if persisted.Some? && persisted.value.codexVersion != read.codexVersion
        then Err(Refused(SessionSchemaUnsupported))
        else match BindingFromRead(w.profile, w.cwd, thread, read)
          case Err(e) => Err(e)
          case Ok(b) =>
            if persisted.None? then Ok(b)
            else Ok(b.(lifecycle := PreserveUncertainty(persisted.value.lifecycle, b.lifecycle)))
  }

  ghost function ClearUntracked(d: Document, w: World): Done<()> {
    match UntrackedFor(d, w.cwd)
    case None => Done(d, [], Ok(()))
    case Some(u) =>
      if u.profileId != w.profile then Done(d, [], Err(AMBIGUOUS))
      else
        var f := Finish(Meanwhile(d, w, 0), u.launchId, Unclear, w);
        Done(f.document, f.writes, if f.result.Err? then Err(f.result.error) else Ok(()))
  }

  ghost function PrepareExact(d: Document, mode: ExactMode, thread: Uuid, w: World)
    : Done<Capture>
  {
    var u := ClearUntracked(d, w);
    var d1 := Meanwhile(u.document, w, 1);
    var d2 := Meanwhile(d1, w, 2);
    if u.result.Err? then Done(u.document, u.writes, Err(u.result.error))
    else if mode.ResumeHead? && CheckedHead(d1, w.profile, thread, w.cwd).Err? then
      Done(d1, u.writes, Err(CheckedHead(d1, w.profile, thread, w.cwd).error))
    else if mode.ResumeExact? && w.version.Err? then Done(d1, u.writes, Err(w.version.error))
    else if mode.ResumeExact? && w.version.value != CODEX_VERSION then Done(d1, u.writes, Ok(UnsupportedExplicit))
    else match ExactBinding(d2, mode, thread, w)
      case Err(e) => Done(d2, u.writes, Err(e))
      case Ok(b) =>
        var a := AdoptExact(d2, b, w);
        Done(a.document, u.writes + a.writes,
             match a.result
             case Err(e) => Err(e)
             case Ok(head) => Ok(Bound(head)))
  }

  // ---- preparing a launch ---------------------------------------------------------------------

  ghost function BeginTracked(d: Document, mode: LaunchMode, inventory: Inventory, w: World)
    : Done<Capture>
  {
    var op := OpBeginLaunch(w.profile, w.cwd, mode, inventory.codexVersion, inventory.threads, w.launchId, w.now);
    match TrackedLaunch(w.profile, w.cwd, mode, inventory.codexVersion, inventory.threads, w.launchId, w.now)
    case Err(e) => Done(d, [], Err(Refused(e)))
    case Ok(launch) =>
      Done(Next(d, op), [Write(d, op)],
           match Transact(d, BeginLaunch(d, launch)).1
           case Err(e) => Err(Refused(e))
           case Ok(overlapping) => if overlapping then Err(AMBIGUOUS) else Ok(Tracked(w.launchId)))
  }

  ghost function PrepareTracked(d: Document, mode: LaunchMode, w: World): Done<Capture> {
    var recovery := Reconcile(d, w);
    var d1 := Meanwhile(recovery.document, w, 2);
    if recovery.result.Err? then Done(recovery.document, recovery.writes, Err(recovery.result.error))
    else match w.launchInventory
      case Err(e) => Done(d1, recovery.writes, Err(e))
      case Ok(inventory) =>
        if !inventory.complete then
          var m := MarkAmbiguous(d1, w.cwd);
          Done(m.document, recovery.writes + m.writes, Err(if m.result.Err? then m.result.error else AMBIGUOUS))
        else
          var b := BeginTracked(d1, mode, inventory, w);
          Done(b.document, recovery.writes + b.writes, b.result)
  }

  ghost function PrepareUntrackedLaunch(d: Document, mode: LaunchMode, w: World): Done<Capture> {
    var op := OpPrepareUntracked(w.profile, w.cwd, mode, w.launchId, w.now);
    match UntrackedLaunch(w.profile, w.cwd, mode, w.launchId, w.now)
    case Err(e) => Done(d, [], Err(Refused(e)))
    case Ok(launch) =>
      Done(Next(d, op), [Write(d, op)],
           match Transact(d, PrepareUntracked(d, launch)).1
           case Err(e) => Err(Refused(e))
           case Ok(_) => Ok(Untracked(w.launchId)))
  }

  ghost function Authorize(d: Document, c: Capture): Done<()> {
    match LaunchOf(c)
    case None => Done(d, [], Ok(()))
    case Some(id) =>
      var op := OpProviderStarted(id);
      Done(Next(d, op), [Write(d, op)], Lift(Transact(d, SetPhase(d, id, ProviderStarted)).1))
  }

  ghost function SpawnFailed(d: Document, c: Capture, w: World): Done<()> {
    match LaunchOf(c)
    case None => Done(d, [], Ok(()))
    case Some(id) =>
      var f := Finish(d, id, NoThread, w);
      Done(f.document, f.writes, if f.result.Err? then Err(f.result.error) else Ok(()))
  }
}
