/** Two-file publication of the registry: temporary, file sync, rename, directory sync, with faults and
    power loss after every step. */
module Publication {
  import opened Prelude
  import opened ConversationModel
  import opened RegistryEdits
  import opened RegistryValidity

  /** What a file holds: a complete serialized document, or the remains of an interrupted write. */
  datatype Content = Torn | Complete(document: Document)

  datatype File = File(content: Content, synced: bool)

  /** A directory entry: every value it may show after power loss. The last one is what running code sees. */
  type Entry = e: seq<Option<File>> | |e| > 0 witness [None]

  datatype Disk = Disk(registry: Entry, backup: Entry)

  function Visible(e: Entry): Option<File> {
    e[|e| - 1]
  }

  /** Where a transaction stands between two system calls; the lock admits one transaction at a time. */
  datatype Stage =
    | Idle
    | CheckBackup(original: Document, next: Document)
    | BackupWritten(original: Document, next: Document, temporary: File)
    | BackupRenamed(original: Document, next: Document)
    | WriteRegistry(next: Document)
    | RegistryWritten(next: Document, temporary: File)
    | RegistryRenamed(next: Document)

  datatype State = State(disk: Disk, stage: Stage)

  const InitialState := State(Disk([None], [None]), Idle)

  datatype Step =
    | Begin(op: Op)                              // load under the lock, edit, validate
    | Proceed                                    // the next system call succeeds
    | Fault                                      // the next system call fails, or the process dies
    | Writeback(registry: nat, backup: nat)      // the kernel makes older entry values unreachable
    | PowerLoss(registry: nat, backup: nat, torn: bool)

  // ---- loading --------------------------------------------------------------------------------

  ghost predicate ValidV1(d: Document) {
    d.schemaVersion == 1 && ValidDocument(d)
  }

  /** The backup a schema 2 document demands: present, complete, of the recorded digest and revision. */
  ghost predicate BackupMatches(d: Document, file: Option<File>) {
    && file.Some? && file.value.content.Complete?
    && d.preMigrationBackup.Some?
    && var b, m := file.value.content.document, d.preMigrationBackup.value;
       m.sha256 == Sha256(b) && ValidV1(b) && m.schemaVersion == b.schemaVersion && m.revision == b.revision
  }

  ghost function Load(registry: Option<File>, backup: Option<File>): Result<Document, ConversationError> {
    if registry.None? then Ok(EmptyDocument)
    else if registry.value.content.Torn? then Err(RegistryInvalid)
    else
      var d := registry.value.content.document;
      if !ValidDocument(d) then Err(RegistryInvalid)
      else if d.preMigrationBackup.Some? && !BackupMatches(d, backup) then Err(RegistryInvalid)
      else Ok(d)
  }

  // ---- the steps ------------------------------------------------------------------------------

  function SyncDirectory(k: Disk): Disk {
    Disk([Visible(k.registry)], [Visible(k.backup)])
  }

  /** What survives of one possible entry value: an unsynced file may come back torn. */
  function Survivor(f: Option<File>, torn: bool): Option<File> {
    if f.Some? && !f.value.synced && torn then Some(File(Torn, false)) else f
  }

  ghost function BeginStage(k: Disk, op: Op): Stage {
    match Load(Visible(k.registry), Visible(k.backup))
    case Err(_) => Idle
    case Ok(original) =>
      match EditOf(original, op)
      case Err(_) => Idle
      case Ok(edited) =>
        match Save(edited)
        case Err(_) => Idle
        case Ok(next) =>
          if IsHandoffOp(op) && original.schemaVersion == 1 then CheckBackup(original, next)
          else WriteRegistry(next)
  }

  ghost function Advance(s: State): State {
    var k := s.disk;
    match s.stage
    case Idle => s
    case CheckBackup(original, next) =>
      var f := Visible(k.backup);
      if f.Some? && (f.value.content.Torn? || !ValidV1(f.value.content.document)) then State(k, Idle)
      else if f.Some? && f.value.content.document == original
      then State(SyncDirectory(k), WriteRegistry(next))
      else State(k, BackupWritten(original, next, File(Complete(original), false)))
    case BackupWritten(original, next, temporary) =>
      if !temporary.synced
      then State(k, BackupWritten(original, next, temporary.(synced := true)))
      else State(k.(backup := k.backup + [Some(temporary)]), BackupRenamed(original, next))
    case BackupRenamed(_, next) => State(SyncDirectory(k), WriteRegistry(next))
    case WriteRegistry(next) => State(k, RegistryWritten(next, File(Complete(next), false)))
    case RegistryWritten(next, temporary) =>
      if !temporary.synced
      then State(k, RegistryWritten(next, temporary.(synced := true)))
      else State(k.(registry := k.registry + [Some(temporary)]), RegistryRenamed(next))
    case RegistryRenamed(_) => State(SyncDirectory(k), Idle)
  }

  ghost function Take(s: State, step: Step): State {
    match step
    case Begin(op) => if s.stage.Idle? then s.(stage := BeginStage(s.disk, op)) else s
    case Proceed => Advance(s)
    case Fault => s.(stage := Idle)
    case Writeback(r, b) =>
      if r < |s.disk.registry| && b < |s.disk.backup|
      then s.(disk := Disk(s.disk.registry[r..], s.disk.backup[b..])) else s
    case PowerLoss(r, b, torn) =>
      if r < |s.disk.registry| && b < |s.disk.backup|
      then State(Disk([Survivor(s.disk.registry[r], torn)], [Survivor(s.disk.backup[b], torn)]), Idle) else s
  }

  ghost function TakeAll(s: State, steps: seq<Step>): State
    decreases |steps|
  {
    if steps == [] then s else TakeAll(Take(s, steps[0]), steps[1..])
  }

  // ---- the invariant --------------------------------------------------------------------------

  ghost predicate GoodFile(f: Option<File>) {
    f.Some? ==> f.value.synced && f.value.content.Complete? && ValidDocument(f.value.content.document)
  }

  predicate HoldsV2(f: Option<File>) {
    f.Some? && f.value.content.Complete? && f.value.content.document.schemaVersion == 2
  }

  /** Every pair of entry values power loss can expose is loadable, and schema 2 is never undone. */
  ghost predicate GoodDisk(k: Disk) {
    && (forall i :: 0 <= i < |k.registry| ==> GoodFile(k.registry[i]))
    && (forall j :: 0 <= j < |k.backup| ==>
          GoodFile(k.backup[j]) && (k.backup[j].Some? ==> k.backup[j].value.content.document.schemaVersion == 1))
    && (forall i, j :: 0 <= i < |k.registry| && 0 <= j < |k.backup| && HoldsV2(k.registry[i])
          ==> BackupMatches(k.registry[i].value.content.document, k.backup[j]))
    && ((exists i :: 0 <= i < |k.registry| && HoldsV2(k.registry[i])) ==> HoldsV2(Visible(k.registry)))
  }

  ghost predicate BackupsMatch(d: Document, backup: Entry) {
    forall j :: 0 <= j < |backup| ==> BackupMatches(d, backup[j])
  }

  ghost predicate MayPublish(k: Disk, next: Document) {
    && ValidDocument(next)
    && (if next.schemaVersion == 2 then BackupsMatch(next, k.backup) else !HoldsV2(Visible(k.registry)))
  }

  ghost predicate MayMigrate(k: Disk, original: Document, next: Document) {
    && ValidV1(original) && ValidDocument(next) && next.schemaVersion == 2
    && next.preMigrationBackup == Some(PreMigrationBackup(1, original.revision, Sha256(original)))
    && !HoldsV2(Visible(k.registry))
  }

  ghost predicate GoodStage(k: Disk, stage: Stage) {
    match stage
    case Idle => true
    case CheckBackup(original, next) => MayMigrate(k, original, next)
    case BackupWritten(original, next, temporary) =>
      MayMigrate(k, original, next) && temporary.content == Complete(original)
    case BackupRenamed(original, next) =>
      MayMigrate(k, original, next) && Visible(k.backup) == Some(File(Complete(original), true))
    case WriteRegistry(next) => MayPublish(k, next)
    case RegistryWritten(next, temporary) => MayPublish(k, next) && temporary.content == Complete(next)
    case RegistryRenamed(next) => Visible(k.registry) == Some(File(Complete(next), true))
  }

  ghost predicate Good(s: State) {
    GoodDisk(s.disk) && GoodStage(s.disk, s.stage)
  }

  // ---- preservation ---------------------------------------------------------------------------

  predicate SameBackup(d: Document, e: Document) {
    e.preMigrationBackup == d.preMigrationBackup && e.schemaVersion == d.schemaVersion
  }

  lemma FinishKeepsBackup(d: Document, id: Uuid, r: LaunchResolution, freshId: Uuid, now: nat)
    requires FinishLaunch(d, id, r, freshId, now).Ok?
    ensures SameBackup(d, FinishLaunch(d, id, r, freshId, now).value.0)
  {
    FinishShape(d, id, r, freshId, now);
  }

  lemma OrdinaryKeepsBackup(d: Document, op: Op)
    requires EditOf(d, op).Ok? && !IsHandoffOp(op)
    ensures SameBackup(d, EditOf(d, op).value)
  {
    hide FinishLaunch;
    match op
    case OpFinishLaunch(id, r, newId, now) => FinishKeepsBackup(d, id, r, newId, now);
    case _ =>
  }

  /** An edit keeps the recorded backup; only a handoff operation on schema 1 records one. */
  lemma EditKeepsBackup(d: Document, op: Op)
    requires EditOf(d, op).Ok?
    ensures SameBackup(if IsHandoffOp(op) then Migrate(d) else d, EditOf(d, op).value)
  {
    if !IsHandoffOp(op) { OrdinaryKeepsBackup(d, op); }
  }

  lemma BeginIsGood(k: Disk, op: Op)
    requires GoodDisk(k)
    ensures GoodStage(k, BeginStage(k, op))
  {
    hide ValidDocument, EditOf;
    var loaded := Load(Visible(k.registry), Visible(k.backup));
    if loaded.Ok? && EditOf(loaded.value, op).Ok? {
      EditKeepsBackup(loaded.value, op);
      LoadedSchema(k);
    }
  }

  lemma LoadedSchema(k: Disk)
    requires GoodDisk(k) && Load(Visible(k.registry), Visible(k.backup)).Ok?
    ensures var d := Load(Visible(k.registry), Visible(k.backup)).value;
            && ValidDocument(d) && (d.schemaVersion == 2 <==> HoldsV2(Visible(k.registry)))
            && (d.schemaVersion == 2 ==> d.preMigrationBackup.Some? && BackupsMatch(d, k.backup))
  {
  }

  lemma SyncIsGood(k: Disk)
    requires GoodDisk(k)
    ensures GoodDisk(SyncDirectory(k))
  {
  }

  lemma PublishIsGood(k: Disk, next: Document)
    requires GoodDisk(k) && MayPublish(k, next)
    ensures GoodDisk(k.(registry := k.registry + [Some(File(Complete(next), true))]))
  {
    hide ValidDocument;
  }

  lemma BackupIsGood(k: Disk, original: Document, next: Document)
    requires GoodDisk(k) && MayMigrate(k, original, next)
    ensures var e := k.(backup := k.backup + [Some(File(Complete(original), true))]);
            GoodDisk(e) && MayMigrate(e, original, next)
  {
    hide ValidDocument;
  }

  lemma AdvanceIsGood(s: State)
    requires Good(s)
    ensures Good(Advance(s))
  {
    hide ValidDocument;
    SyncIsGood(s.disk);
    match s.stage
    case BackupWritten(original, next, _) => BackupIsGood(s.disk, original, next);
    case RegistryWritten(next, _) => PublishIsGood(s.disk, next);
    case _ =>
  }

  lemma WritebackIsGood(s: State, r: nat, b: nat)
    requires Good(s) && r < |s.disk.registry| && b < |s.disk.backup|
    ensures Good(s.(disk := Disk(s.disk.registry[r..], s.disk.backup[b..])))
  {
    hide ValidDocument, BackupMatches;
    var k := Disk(s.disk.registry[r..], s.disk.backup[b..]);
    assert forall i :: 0 <= i < |k.registry| ==> k.registry[i] == s.disk.registry[r + i];
    assert forall j :: 0 <= j < |k.backup| ==> k.backup[j] == s.disk.backup[b + j];
    assert Visible(k.registry) == Visible(s.disk.registry) && Visible(k.backup) == Visible(s.disk.backup);
  }

  lemma TakeIsGood(s: State, step: Step)
    requires Good(s)
    ensures Good(Take(s, step))
  {
    hide ValidDocument;
    match step
    case Begin(op) => BeginIsGood(s.disk, op);
    case Proceed => AdvanceIsGood(s);
    case Writeback(r, b) =>
      if r < |s.disk.registry| && b < |s.disk.backup| { WritebackIsGood(s, r, b); }
    case _ =>
  }

  lemma {:induction false} RunIsGood(s: State, steps: seq<Step>)
    requires Good(s)
    ensures Good(TakeAll(s, steps))
    decreases |steps|
  {
    if steps != [] {
      TakeIsGood(s, steps[0]);
      RunIsGood(Take(s, steps[0]), steps[1..]);
    }
  }

  // ---- what a restart finds -------------------------------------------------------------------

  /** After any run and any loss of unsynced renames, the registry loads: it is one complete document among
      those published since the last directory sync, and a schema 2 document finds its exact backup. */
  lemma RestartLoads(steps: seq<Step>, r: nat, b: nat, torn: bool)
    requires var k := TakeAll(InitialState, steps).disk; r < |k.registry| && b < |k.backup|
    ensures var k := TakeAll(InitialState, steps).disk;
            var found := Load(Survivor(k.registry[r], torn), Survivor(k.backup[b], torn));
            && found.Ok? && ValidDocument(found.value)
            && ((k.registry[r] == None && found.value == EmptyDocument)
                || k.registry[r] == Some(File(Complete(found.value), true)))
            && (found.value.schemaVersion == 2 ==> BackupMatches(found.value, k.backup[b]))
  {
    RunIsGood(InitialState, steps);
  }

  /** A transaction that reports success leaves nothing else for power loss to expose. */
  lemma SuccessIsDurable(steps: seq<Step>)
    requires TakeAll(InitialState, steps).stage.RegistryRenamed?
    ensures var s := TakeAll(InitialState, steps);
            && Advance(s).stage == Idle
            && Advance(s).disk.registry == [Some(File(Complete(s.stage.next), true))]
            && |Advance(s).disk.backup| == 1
  {
    RunIsGood(InitialState, steps);
  }

  /** Running code never sees schema 2 give way to schema 1, short of power loss. */
  lemma SchemaNeverFalls(s: State, step: Step)
    requires Good(s) && HoldsV2(Visible(s.disk.registry)) && !step.PowerLoss?
    ensures HoldsV2(Visible(Take(s, step).disk.registry))
  {
    hide ValidDocument;
  }

  // ---- a transaction without faults -----------------------------------------------------------

  ghost function AdvanceTimes(s: State, n: nat): State {
    if n == 0 then s else Advance(AdvanceTimes(s, n - 1))
  }

  lemma {:induction false} AdvanceFurther(s: State, m: nat, n: nat)
    ensures AdvanceTimes(AdvanceTimes(s, m), n) == AdvanceTimes(s, m + n)
  {
    hide Advance;
    if n > 0 { AdvanceFurther(s, m, n - 1); }
  }

  lemma FourTimes(s: State)
    ensures AdvanceTimes(s, 1) == Advance(s)
    ensures AdvanceTimes(s, 4) == Advance(Advance(Advance(Advance(s))))
  {
    hide Advance;
    assert AdvanceTimes(s, 2) == Advance(AdvanceTimes(s, 1)) && AdvanceTimes(s, 1) == Advance(AdvanceTimes(s, 0));
    assert AdvanceTimes(s, 4) == Advance(AdvanceTimes(s, 3)) && AdvanceTimes(s, 3) == Advance(AdvanceTimes(s, 2));
  }

  /** Temporary file, file sync, rename, directory sync: the registry then holds the new document and nothing else. */
  lemma RegistryIsWritten(s: State)
    requires s.stage.WriteRegistry?
    ensures AdvanceTimes(s, 4)
            == State(Disk([Some(File(Complete(s.stage.next), true))], [Visible(s.disk.backup)]), Idle)
  {
    FourTimes(s);
  }

  /** A backup that holds the original already is kept, any other is replaced, and both are durable before the registry
      is written. */
  lemma BackupIsWritten(s: State)
    requires s.stage.CheckBackup? && GoodFile(Visible(s.disk.backup))
    requires
      var f := Visible(s.disk.backup);
      f.Some? ==> ValidV1(f.value.content.document)
    ensures
      var f := Visible(s.disk.backup);
      var e := AdvanceTimes(s, if f.Some? && f.value.content.document == s.stage.original then 1 else 4);
      && e.stage == WriteRegistry(s.stage.next)
      && e.disk == Disk([Visible(s.disk.registry)], [Some(File(Complete(s.stage.original), true))])
  {
    hide ValidDocument;
    FourTimes(s);
  }

  /** Every operation that the registry stores is published within eight system calls that do not fail: the registry
      holds exactly the stored document, and a migration leaves exactly the original as its backup. */
  lemma TransactionPublishes(k: Disk, op: Op, d: Document)
    requires GoodDisk(k) && Load(Visible(k.registry), Visible(k.backup)) == Ok(d) && Next(d, op) != d
    ensures exists n: nat :: n <= 8 && Published(AdvanceTimes(State(k, BeginStage(k, op)), n), d, op)
  {
    hide ValidDocument, EditOf, Advance, AdvanceTimes;
    var s := State(k, BeginStage(k, op));
    if s.stage.CheckBackup? {
      BackupIsWritten(s);
      var f := Visible(k.backup);
      var m := if f.Some? && f.value.content.document == d then 1 else 4;
      RegistryIsWritten(AdvanceTimes(s, m));
      AdvanceFurther(s, m, 4);
      assert Published(AdvanceTimes(s, m + 4), d, op);
    } else {
      RegistryIsWritten(s);
      assert Published(AdvanceTimes(s, 4), d, op);
    }
  }

  /** The transaction is over, its document is all the registry can show, and a migration has its backup. */
  ghost predicate Published(s: State, d: Document, op: Op) {
    && s.stage.Idle? && s.disk.registry == [Some(File(Complete(Next(d, op)), true))]
    && (IsHandoffOp(op) && d.schemaVersion == 1 ==> s.disk.backup == [Some(File(Complete(d), true))])
  }
}
