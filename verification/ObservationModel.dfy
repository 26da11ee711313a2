/** The usage observation cache: its document, its edits and what it shows. */
module ObservationModel {
  import opened Prelude
  import Sorting

  type ProfileId = nat

  const CACHE_SCHEMA_VERSION := 1
  const MAX_ENTRIES := 512
  const MAX_AUDIT_EVENTS := 512
  const MAX_RATE_LIMIT_BUCKETS := 64
  const MAX_TEXT_BYTES := 256
  const MAX_VERSION_BYTES := 64
  const MAX_TIMESTAMP: int := 253_402_300_799
  const I64_MIN: int := -0x8000_0000_0000_0000

  datatype ObservationError = InvalidInput | InvalidDocument | LimitExceeded

  datatype Policy = Policy(freshTtl: int, retryBase: int, retryMax: int, maxIdleRefresh: int)

  predicate ValidPolicy(p: Policy) {
    && 0 < p.freshTtl <= I64_MAX && 0 < p.retryBase <= p.retryMax <= I64_MAX
    && 0 < p.maxIdleRefresh <= MAX_ENTRIES
  }

  predicate TimestampOk(t: int) {
    0 <= t <= MAX_TIMESTAMP
  }

  function Deadline(at: int, delay: int): Result<int, ObservationError> {
    if at + delay <= MAX_TIMESTAMP then Ok(at + delay) else Err(InvalidInput)
  }

  function Pow2(n: nat): nat {
    if n == 0 then 1 else 2 * Pow2(n - 1)
  }

  function Min(a: int, b: int): int {
    if a <= b then a else b
  }

  /** The backoff after so many consecutive failures: base doubled each time, saturating, then capped. */
  function RetryDelay(p: Policy, failures: nat): int {
    var shift := if failures == 0 then 0 else Min(failures - 1, 30);
    Min(Min(p.retryBase * Pow2(shift), I64_MAX), p.retryMax)
  }

  // ---- provider metadata ----------------------------------------------------------------------

  datatype Window = Window(usedPercent: nat, remainingPercent: nat, resetsAt: Option<int>)

  datatype Snapshot = Snapshot(
    reachedType: Option<string>, individualRemaining: Option<nat>,
    primary: Option<Window>, secondary: Option<Window>)

  datatype Usage = Usage(rateLimits: Option<Snapshot>, byLimitId: seq<Snapshot>)

  datatype Source = ActiveMonitor | IdleRead | UsageLimitSignal
  datatype Stored = Available | Exhausted | Unknown | Unsupported
  datatype Failure = Unsupported | Protocol | Authentication | Timeout | Transport | Provider | Spawn
  datatype Compatibility = Compatible | Incompatible | Unverified
  datatype AuditKind = UsageAccepted | FailureObserved | RevalidationRequired | OutOfOrderIgnored

  /** The length of a text in UTF-8. */
  function ByteLength(s: string): nat {
    if s == "" then 0
    else
      var c := s[0] as int;
      (if c < 0x80 then 1 else if c < 0x800 then 2 else if c < 0x1_0000 then 3 else 4) + ByteLength(s[1..])
  }

  /** The bytes of a character, as section 3 of RFC 3629 lays them out. */
  function Utf8(c: char): seq<nat> {
    var x := c as int;
    if x <= 0x7F then [x]
    else if x <= 0x7FF then [0xC0 + x / 0x40, 0x80 + x % 0x40]
    else if x <= 0xFFFF then [0xE0 + x / 0x1000, 0x80 + x / 0x40 % 0x40, 0x80 + x % 0x40]
    else [0xF0 + x / 0x4_0000, 0x80 + x / 0x1000 % 0x40, 0x80 + x / 0x40 % 0x40, 0x80 + x % 0x40]
  }

  function Encoded(s: string): seq<nat> {
    if s == "" then [] else Utf8(s[0]) + Encoded(s[1..])
  }

  /** The length that limits are checked against is that of the encoded text. */
  lemma {:induction false} ByteLengthIsEncoded(s: string)
    ensures ByteLength(s) == |Encoded(s)|
  {
    if s != "" { ByteLengthIsEncoded(s[1..]); }
  }

  predicate Control(c: char) {
    (c as int) < 0x20 || 0x7F <= c as int <= 0x9F
  }

  predicate TextOk(s: string, limit: nat) {
    s != "" && ByteLength(s) <= limit && forall i :: 0 <= i < |s| ==> !Control(s[i])
  }

  predicate VersionOk(s: string) {
    TextOk(s, MAX_VERSION_BYTES)
  }

  function FirstError(xs: seq<Option<ObservationError>>): Option<ObservationError> {
    if xs == [] then None else if xs[0].Some? then xs[0] else FirstError(xs[1..])
  }

  function Refuse(bad: bool, e: ObservationError): Option<ObservationError> {
    if bad then Some(e) else None
  }

  function WindowError(w: Option<Window>): Option<ObservationError> {
    if w.None? then None
    else if w.value.remainingPercent > 100 then Some(InvalidDocument)
    else Refuse(w.value.resetsAt.Some? && !TimestampOk(w.value.resetsAt.value), InvalidInput)
  }

  function SnapshotError(s: Snapshot): Option<ObservationError> {
    FirstError([Refuse(s.reachedType.Some? && !TextOk(s.reachedType.value, MAX_TEXT_BYTES), InvalidInput),
                WindowError(s.primary), WindowError(s.secondary),
                Refuse(s.individualRemaining.Some? && s.individualRemaining.value > 100, InvalidDocument)])
  }

  function UsageError(u: Usage): Option<ObservationError> {
    if |u.byLimitId| > MAX_RATE_LIMIT_BUCKETS then Some(LimitExceeded)
    else FirstError(seq(|Snapshots(u)|, i requires 0 <= i < |Snapshots(u)| => SnapshotError(Snapshots(u)[i])))
  }

  predicate UsageOk(u: Usage) {
    UsageError(u).None?
  }

  function Snapshots(u: Usage): seq<Snapshot> {
    (if u.rateLimits.Some? then [u.rateLimits.value] else []) + u.byLimitId
  }

  predicate ExplicitExhaustion(reached: string) {
    reached == "rate_limit_reached" || reached == "workspace_owner_credits_depleted"
    || reached == "workspace_member_credits_depleted" || reached == "workspace_owner_usage_limit_reached"
    || reached == "workspace_member_usage_limit_reached"
  }

  /** A snapshot that settles the classification by itself. */
  predicate Decisive(s: Snapshot) {
    s.reachedType.Some? || s.individualRemaining == Some(0)
  }

  predicate SaysExhausted(s: Snapshot) {
    s.reachedType.Some? && ExplicitExhaustion(s.reachedType.value)
  }

  predicate HasWindow(s: Snapshot) {
    s.primary.Some? || s.secondary.Some?
  }

  predicate HasFullWindow(s: Snapshot) {
    (s.primary.Some? && s.primary.value.usedPercent >= 100)
    || (s.secondary.Some? && s.secondary.value.usedPercent >= 100)
  }

  /** Exhausted only by an explicit signal that no earlier snapshot overrules; available only when nothing is
      decisive, some window is reported and none is full. */
  predicate IsExhausted(ss: seq<Snapshot>) {
    exists k :: 0 <= k < |ss| && SaysExhausted(ss[k]) && forall i :: 0 <= i < k ==> !Decisive(ss[i])
  }

  predicate IsAvailable(ss: seq<Snapshot>) {
    && (forall i :: 0 <= i < |ss| ==> !Decisive(ss[i]) && !HasFullWindow(ss[i]))
    && (exists i :: 0 <= i < |ss| && HasWindow(ss[i]))
  }

  function Classify(u: Usage): Stored {
    if IsExhausted(Snapshots(u)) then Exhausted
    else if IsAvailable(Snapshots(u)) then Available
    else Stored.Unknown
  }

  /** A lone snapshot with a reached type settles the classification: exhausted for the five explicit types, unknown for
      any other. */
  lemma ReachedTypeSettles(s: Snapshot)
    requires s.reachedType.Some?
    ensures
      var exhausted := s.reachedType.value in {
        "rate_limit_reached", "workspace_owner_credits_depleted", "workspace_member_credits_depleted",
        "workspace_owner_usage_limit_reached", "workspace_member_usage_limit_reached"};
      Classify(Usage(Some(s), [])) == if exhausted then Exhausted else Stored.Unknown
  {
    var ss := Snapshots(Usage(Some(s), []));
    assert ss == [s];
    assert Decisive(ss[0]);
    if SaysExhausted(s) { assert SaysExhausted(ss[0]) && IsExhausted(ss); }
  }

  /** The classification as the program computes it: one pass that stops at the first decisive snapshot. */
  method ClassifyUsage(u: Usage) returns (r: Stored)
    ensures r == Classify(u)
  {
    var ss := Snapshots(u);
    var sawWindow, sawFull := false, false;
    for i := 0 to |ss|
      invariant forall j :: 0 <= j < i ==> !Decisive(ss[j])
      invariant sawWindow <==> exists j :: 0 <= j < i && HasWindow(ss[j])
      invariant sawFull <==> exists j :: 0 <= j < i && HasFullWindow(ss[j])
    {
      var s := ss[i];
      if s.reachedType.Some? {
        return if ExplicitExhaustion(s.reachedType.value) then Exhausted else Stored.Unknown;
      }
      if s.individualRemaining == Some(0) {
        return Stored.Unknown;
      }
      sawWindow := sawWindow || HasWindow(s);
      sawFull := sawFull || HasFullWindow(s);
    }
    return if sawWindow && !sawFull then Available else Stored.Unknown;
  }

  // ---- the document ---------------------------------------------------------------------------

  datatype Entry = Entry(
    profileId: ProfileId, availability: Stored, observedAt: int, latestEventAt: int,
    expiresAt: Option<int>, source: Source, codexVersion: Option<string>, adapterVersion: string,
    compatibility: Compatibility, usage: Option<Usage>, revalidationRequiredAt: Option<int>,
    consecutiveFailures: nat, nextRefreshAt: int, lastFailure: Option<Failure>)

  datatype AuditEvent = AuditEvent(
    revision: nat, profileId: ProfileId, observedAt: int, source: Source, kind: AuditKind, availability: Stored)

  datatype Cache = Cache(schemaVersion: nat, revision: nat, entries: seq<Entry>, audit: seq<AuditEvent>)

  const EmptyCache := Cache(CACHE_SCHEMA_VERSION, 0, [], [])

  function FindEntry(es: seq<Entry>, id: ProfileId): (k: nat)
    ensures k <= |es| && (k < |es| ==> es[k].profileId == id)
    ensures forall i :: 0 <= i < k ==> es[i].profileId != id
  {
    if es == [] then 0 else if es[0].profileId == id then 0 else 1 + FindEntry(es[1..], id)
  }

  function EntryAt(es: seq<Entry>, id: ProfileId): Option<Entry> {
    var k := FindEntry(es, id);
    if k < |es| then Some(es[k]) else None
  }

  const ProfileOf := (e: Entry) => e.profileId
  const ByProfile := (a: Entry, b: Entry) => a.profileId <= b.profileId

  function ReplaceEntry(es: seq<Entry>, e: Entry): Result<seq<Entry>, ObservationError> {
    var k := FindEntry(es, e.profileId);
    if k < |es| then Ok(es[k := e])
    else if |es| >= MAX_ENTRIES then Err(LimitExceeded)
    else Ok(Sorting.Sort(es + [e], ByProfile))
  }

  function LastEvents(audit: seq<AuditEvent>): seq<AuditEvent> {
    if |audit| > MAX_AUDIT_EVENTS then audit[|audit| - MAX_AUDIT_EVENTS..] else audit
  }

  function PushAudit(d: Cache, id: ProfileId, source: Source, at: int, kind: AuditKind, availability: Stored)
    : Result<Cache, ObservationError>
  {
    if d.revision + 1 > U64_MAX then Err(LimitExceeded)
    else
      var event := AuditEvent(d.revision + 1, id, at, source, kind, availability);
      Ok(d.(revision := d.revision + 1, audit := LastEvents(d.audit + [event])))
  }

  // ---- events ---------------------------------------------------------------------------------

  datatype Event =
    | UsageRead(profile: ProfileId, source: Source, version: string, usage: Usage, at: int)
    | FailureSeen(profile: ProfileId, source: Source, seenVersion: Option<string>, compatibility: Compatibility,
                  failure: Failure, at: int)
    | LimitSignal(profile: ProfileId, at: int)

  function SourceOf(e: Event): Source {
    if e.LimitSignal? then UsageLimitSignal else e.source
  }

  function KindOf(e: Event): AuditKind {
    match e
    case UsageRead(_, _, _, _, _) => UsageAccepted
    case FailureSeen(_, _, _, _, _, _) => FailureObserved
    case LimitSignal(_, _) => AuditKind.RevalidationRequired
  }

  /** The input checks of an event, in the order the program makes them. */
  function InputChecks(e: Event, p: Policy): seq<Option<ObservationError>> {
    [Refuse(!e.LimitSignal? && e.source == UsageLimitSignal, InvalidInput),
     Refuse(!TimestampOk(e.at), InvalidInput),
     Refuse(e.UsageRead? && !VersionOk(e.version), InvalidInput),
     Refuse(e.FailureSeen? && e.seenVersion.Some? && !VersionOk(e.seenVersion.value), InvalidInput),
     if e.UsageRead? then UsageError(e.usage) else None,
     Refuse(!ValidPolicy(p), InvalidInput)]
  }

  function InputError(e: Event, p: Policy): Option<ObservationError> {
    FirstError(InputChecks(e, p))
  }

  predicate OutOfOrder(es: seq<Entry>, e: Event) {
    EntryAt(es, e.profile).Some? && e.at < EntryAt(es, e.profile).value.latestEventAt
  }

  function UsageEntry(e: Event, expiresAt: int): Entry
    requires e.UsageRead?
  {
    Entry(e.profile, Classify(e.usage), e.at, e.at, Some(expiresAt), e.source, Some(e.version), ADAPTER_VERSION,
          Compatible, Some(e.usage), None, 0, expiresAt, None)
  }

  function FailureCount(previous: Option<Entry>): nat {
    if previous.None? then 1 else Min(previous.value.consecutiveFailures + 1, 255)
  }

  /** A failure keeps the last usage on record unless the read itself is unsupported. */
  function FailureEntry(e: Event, previous: Option<Entry>, retryAt: int): Entry
    requires e.FailureSeen?
  {
    if e.failure != Failure.Unsupported && previous.Some? && previous.value.usage.Some? then
      previous.value.(latestEventAt := e.at, revalidationRequiredAt := None,
                      consecutiveFailures := FailureCount(previous), nextRefreshAt := retryAt,
                      lastFailure := Some(e.failure))
    else
      Entry(e.profile, if e.failure == Failure.Unsupported then Stored.Unsupported else Stored.Unknown,
            e.at, e.at, None, e.source, e.seenVersion, ADAPTER_VERSION, e.compatibility, None, None,
            FailureCount(previous), retryAt, Some(e.failure))
  }

  function SignalEntry(e: Event, previous: Option<Entry>): Entry
    requires e.LimitSignal?
  {
    Entry(e.profile, Stored.Unknown, e.at, e.at, None, UsageLimitSignal,
          if previous.Some? then previous.value.codexVersion else None, ADAPTER_VERSION,
          if previous.Some? then previous.value.compatibility else Unverified, None, Some(e.at), 0, e.at, None)
  }

  /** The entry an in-order event leaves, or why its deadline is refused. */
  function NewEntry(previous: Option<Entry>, e: Event, p: Policy): Result<Entry, ObservationError> {
    match e
    case UsageRead(_, _, _, _, at) =>
      (match Deadline(at, p.freshTtl)
       case Err(x) => Err(x)
       case Ok(expiresAt) => Ok(UsageEntry(e, expiresAt)))
    case FailureSeen(_, _, _, _, _, at) =>
      (match Deadline(at, RetryDelay(p, FailureCount(previous)))
       case Err(x) => Err(x)
       case Ok(retryAt) => Ok(FailureEntry(e, previous, retryAt)))
    case LimitSignal(_, _) => Ok(SignalEntry(e, previous))
  }

  lemma AdmittedInput(e: Event, p: Policy)
    ensures InputError(e, p).None? <==>
              && TimestampOk(e.at) && ValidPolicy(p)
              && match e
                 case UsageRead(_, source, version, usage, _) =>
                   source != UsageLimitSignal && VersionOk(version) && UsageOk(usage)
                 case FailureSeen(_, source, version, _, _, _) =>
                   source != UsageLimitSignal && (version.Some? ==> VersionOk(version.value))
                 case LimitSignal(_, _) => true
  {
    var checks := InputChecks(e, p);
    NoError(checks);
    assert checks[0] in checks && checks[1] in checks && checks[2] in checks;
    assert checks[3] in checks && checks[4] in checks && checks[5] in checks;
  }

  lemma {:induction false} NoError(xs: seq<Option<ObservationError>>)
    ensures FirstError(xs).None? <==> forall x :: x in xs ==> x.None?
  {
    if xs != [] { NoError(xs[1..]); assert xs == [xs[0]] + xs[1..]; }
  }

  function Observe(d: Cache, e: Event, p: Policy): Result<Cache, ObservationError> {
    if InputError(e, p).Some? then Err(InputError(e, p).value)
    else if OutOfOrder(d.entries, e) then
      PushAudit(d, e.profile, SourceOf(e), e.at, OutOfOrderIgnored, EntryAt(d.entries, e.profile).value.availability)
    else match NewEntry(EntryAt(d.entries, e.profile), e, p)
      case Err(x) => Err(x)
      case Ok(entry) =>
        match ReplaceEntry(d.entries, entry)
        case Err(x) => Err(x)
        case Ok(es) => PushAudit(d.(entries := es), e.profile, SourceOf(e), e.at, KindOf(e), entry.availability)
  }

  // ---- views ----------------------------------------------------------------------------------

  datatype Availability = VAvailable | VExhausted | VStale | VUnsupported | VUnknown
  datatype Freshness = Fresh | StaleEvidence | NeedsRevalidation | NoEvidence

  datatype View = View(
    availability: Availability, freshness: Freshness, observedAt: int, source: Source,
    codexVersion: Option<string>, adapterVersion: string, compatibility: Compatibility,
    usage: Option<Usage>, nextRefreshAt: int)

  function Shown(s: Stored): Availability {
    match s
    case Available => VAvailable
    case Exhausted => VExhausted
    case Unknown => VUnknown
    case Unsupported => VUnsupported
  }

  function Judge(e: Entry, now: int): (Availability, Freshness) {
    if e.revalidationRequiredAt.Some? && e.revalidationRequiredAt.value >= e.observedAt
    then (VUnknown, NeedsRevalidation)
    else if e.availability == Stored.Unsupported then (VUnsupported, NoEvidence)
    else if e.lastFailure.Some? then
      (if e.usage.Some? then (VStale, StaleEvidence) else (VUnknown, NoEvidence))
    else if e.expiresAt.Some? && now >= e.expiresAt.value then (VStale, StaleEvidence)
    else (Shown(e.availability), Fresh)
  }

  function ViewAt(d: Cache, id: ProfileId, now: int): Option<View> {
    match EntryAt(d.entries, id)
    case None => None
    case Some(e) =>
      var (availability, freshness) := Judge(e, now);
      Some(View(availability, freshness, e.observedAt, e.source, e.codexVersion, e.adapterVersion, e.compatibility,
                e.usage, e.nextRefreshAt))
  }

  // ---- the validated invariant ----------------------------------------------------------------

  predicate ValidEntry(e: Entry) {
    && TimestampOk(e.observedAt) && TimestampOk(e.latestEventAt) && TimestampOk(e.nextRefreshAt)
    && e.observedAt <= e.latestEventAt <= e.nextRefreshAt
    && (e.expiresAt.Some? ==> TimestampOk(e.expiresAt.value) && e.observedAt <= e.expiresAt.value)
    && (e.revalidationRequiredAt.Some? ==>
          var at := e.revalidationRequiredAt.value;
          TimestampOk(at) && at <= e.latestEventAt && e.source == UsageLimitSignal && e.lastFailure.None?
          && e.nextRefreshAt == at)
    && (e.codexVersion.Some? ==> VersionOk(e.codexVersion.value)) && VersionOk(e.adapterVersion)
    && (if e.usage.Some?
        then UsageOk(e.usage.value) && e.expiresAt.Some? && e.codexVersion.Some? && e.compatibility == Compatible
        else e.availability != Available && e.availability != Exhausted)
    && (e.availability == Stored.Unsupported ==> e.lastFailure == Some(Failure.Unsupported) && e.usage.None?)
    && (e.availability == Exhausted ==> e.usage.Some? && Classify(e.usage.value) == Exhausted)
  }

  ghost predicate DistinctProfiles(es: seq<Entry>) {
    forall i, j :: 0 <= i < j < |es| ==> es[i].profileId != es[j].profileId
  }

  ghost predicate ValidAudit(audit: seq<AuditEvent>, revision: nat) {
    && (forall i :: 0 <= i < |audit| ==> TimestampOk(audit[i].observedAt) && 0 < audit[i].revision <= revision)
    && (forall i, j :: 0 <= i < j < |audit| ==> audit[i].revision < audit[j].revision)
  }

  ghost predicate ValidCache(d: Cache) {
    && d.schemaVersion == CACHE_SCHEMA_VERSION
    && |d.entries| <= MAX_ENTRIES && |d.audit| <= MAX_AUDIT_EVENTS
    && (forall i :: 0 <= i < |d.entries| ==> ValidEntry(d.entries[i]))
    && DistinctProfiles(d.entries)
    && ValidAudit(d.audit, d.revision)
  }

  /** The validator as the program runs it, accumulating the profiles seen and then the last revision. */
  method ValidateCache(d: Cache) returns (ok: bool)
    ensures ok <==> ValidCache(d)
  {
    if d.schemaVersion != CACHE_SCHEMA_VERSION || |d.entries| > MAX_ENTRIES || |d.audit| > MAX_AUDIT_EVENTS {
      return false;
    }
    ok := ValidateEntries(d.entries);
    if ok {
      ok := ValidateAudit(d.audit, d.revision);
    }
  }

  method ValidateEntries(es: seq<Entry>) returns (ok: bool)
    ensures ok <==> (forall i :: 0 <= i < |es| ==> ValidEntry(es[i])) && DistinctProfiles(es)
  {
    hide ValidEntry;
    var seen: set<ProfileId> := {};
    for i := 0 to |es|
      invariant forall j :: 0 <= j < i ==> ValidEntry(es[j])
      invariant forall j :: 0 <= j < i ==> es[j].profileId in seen
      invariant forall x :: x in seen ==> exists j :: 0 <= j < i && es[j].profileId == x
      invariant forall j, k :: 0 <= j < k < i ==> es[j].profileId != es[k].profileId
    {
      if es[i].profileId in seen || !ValidEntry(es[i]) {
        return false;
      }
      seen := seen + {es[i].profileId};
    }
    return true;
  }

  method ValidateAudit(audit: seq<AuditEvent>, revision: nat) returns (ok: bool)
    ensures ok <==> ValidAudit(audit, revision)
  {
    var previous := 0;
    for i := 0 to |audit|
      invariant previous == if i == 0 then 0 else audit[i - 1].revision
      invariant forall j :: 0 <= j < i ==> audit[j].revision <= previous
      invariant ValidAudit(audit[..i], revision)
    {
      var event := audit[i];
      if !TimestampOk(event.observedAt) || event.revision == 0 || event.revision > revision
         || (i > 0 && event.revision <= previous)
      {
        return false;
      }
      previous := event.revision;
    }
    assert audit[..|audit|] == audit;
    return true;
  }
}
