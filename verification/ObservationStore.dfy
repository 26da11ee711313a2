/** The cache as the program keeps it: a document edited in place inside a store transaction. */
module ObservationStore {
  import opened Prelude
  import opened ObservationModel
  import opened ObservationValidity
  import RefreshQueue
  import Sorting

  class CacheDocument {
    var schemaVersion: nat
    var revision: nat
    var entries: seq<Entry>
    var audit: seq<AuditEvent>

    ghost function Value(): Cache
      reads this
    {
      Cache(schemaVersion, revision, entries, audit)
    }

    constructor (d: Cache)
      ensures Value() == d
    {
      schemaVersion, revision, entries, audit := d.schemaVersion, d.revision, d.entries, d.audit;
    }

    method Find(id: ProfileId) returns (r: Option<Entry>)
      ensures r == EntryAt(entries, id)
    {
      var k := 0;
      while k < |entries|
        invariant k <= |entries|
        invariant forall i :: 0 <= i < k ==> entries[i].profileId != id
      {
        if entries[k].profileId == id {
          var found := FindEntry(entries, id);
          assert found == k;
          return Some(entries[k]);
        }
        k := k + 1;
      }
      return None;
    }

    method ReplaceEntry(entry: Entry) returns (error: Option<ObservationError>)
      modifies `entries
      ensures match ObservationModel.ReplaceEntry(old(entries), entry)
              case Ok(es) => error.None? && entries == es
              case Err(x) => error == Some(x) && entries == old(entries)
    {
      var k := 0;
      while k < |entries| && entries[k].profileId != entry.profileId
        invariant k <= |entries|
        invariant forall i :: 0 <= i < k ==> entries[i].profileId != entry.profileId
      {
        k := k + 1;
      }
      assert FindEntry(entries, entry.profileId) == k;
      if k < |entries| {
        entries := entries[k := entry];
      } else if |entries| >= MAX_ENTRIES {
        return Some(LimitExceeded);
      } else {
        entries := entries + [entry];
        entries := Sorting.Sort(entries, ByProfile);
      }
      return None;
    }

    method PushAudit(id: ProfileId, source: Source, at: int, kind: AuditKind, availability: Stored)
      returns (error: Option<ObservationError>)
      modifies `revision, `audit
      ensures match ObservationModel.PushAudit(old(Value()), id, source, at, kind, availability)
              case Ok(d) => error.None? && Value() == d
              case Err(x) => error == Some(x)
    {
      if revision + 1 > U64_MAX {
        return Some(LimitExceeded);
      }
      revision := revision + 1;
      audit := audit + [AuditEvent(revision, id, at, source, kind, availability)];
      if |audit| > MAX_AUDIT_EVENTS {
        audit := audit[|audit| - MAX_AUDIT_EVENTS..];
      }
      return None;
    }

    /** Records an in-order entry and its audit event. */
    method Record(entry: Entry, source: Source, kind: AuditKind) returns (error: Option<ObservationError>)
      modifies this
      ensures
        match ObservationModel.ReplaceEntry(old(entries), entry)
        case Err(x) => error == Some(x)
        case Ok(es) =>
          match ObservationModel.PushAudit(old(Value()).(entries := es), entry.profileId, source, entry.latestEventAt,
                                           kind, entry.availability)
          case Err(x) => error == Some(x)
          case Ok(d) => error.None? && Value() == d
    {
      error := ReplaceEntry(entry);
      if error.Some? {
        return;
      }
      error := PushAudit(entry.profileId, source, entry.latestEventAt, kind, entry.availability);
    }

    method ObserveUsage(id: ProfileId, source: Source, version: string, usage: Usage, at: int, p: Policy)
      returns (error: Option<ObservationError>)
      modifies this
      ensures source != UsageLimitSignal ==> Applied(old(Value()), UsageRead(id, source, version, usage, at), p, error)
    {
      hide ValidPolicy, ObservationModel.ReplaceEntry, ObservationModel.PushAudit, Classify, UsageOk, VersionOk;
      ghost var e := UsageRead(id, source, version, usage, at);
      FirstFailingCheck(e, p);
      if !TimestampOk(at) || !VersionOk(version) {
        return Some(InvalidInput);
      }
      if UsageError(usage).Some? {
        return Some(UsageError(usage).value);
      }
      if !ValidPolicy(p) {
        return Some(InvalidInput);
      }
      var previous := Find(id);
      if previous.Some? && at < previous.value.latestEventAt {
        error := PushAudit(id, source, at, OutOfOrderIgnored, previous.value.availability);
        return;
      }
      var availability := ClassifyUsage(usage);
      var expiresAt := Deadline(at, p.freshTtl);
      if expiresAt.Err? {
        return Some(expiresAt.error);
      }
      error := Record(Entry(id, availability, at, at, Some(expiresAt.value), source, Some(version), ADAPTER_VERSION,
                            Compatible, Some(usage), None, 0, expiresAt.value, None),
                      source, UsageAccepted);
    }

    method ObserveFailure(id: ProfileId, source: Source, version: Option<string>, compatibility: Compatibility,
                          failure: Failure, at: int, p: Policy)
      returns (error: Option<ObservationError>)
      modifies this
      ensures source != UsageLimitSignal ==>
                Applied(old(Value()), FailureSeen(id, source, version, compatibility, failure, at), p, error)
    {
      hide ValidPolicy, ObservationModel.ReplaceEntry, ObservationModel.PushAudit, VersionOk, RetryDelay;
      ghost var e := FailureSeen(id, source, version, compatibility, failure, at);
      FirstFailingCheck(e, p);
      if !TimestampOk(at) || (version.Some? && !VersionOk(version.value)) || !ValidPolicy(p) {
        return Some(InvalidInput);
      }
      var previous := Find(id);
      if previous.Some? && at < previous.value.latestEventAt {
        error := PushAudit(id, source, at, OutOfOrderIgnored, previous.value.availability);
        return;
      }
      var failures := if previous.Some? then Min(previous.value.consecutiveFailures + 1, 255) else 1;
      var availability := if failure == Failure.Unsupported then Stored.Unsupported else Stored.Unknown;
      var retryAt := Deadline(at, RetryDelay(p, failures));
      if retryAt.Err? {
        return Some(retryAt.error);
      }
      var entry;
      if failure != Failure.Unsupported && previous.Some? && previous.value.usage.Some? {
        entry := previous.value.(latestEventAt := at, revalidationRequiredAt := None,
                                 consecutiveFailures := failures, nextRefreshAt := retryAt.value,
                                 lastFailure := Some(failure));
      } else {
        entry := Entry(id, availability, at, at, None, source, version, ADAPTER_VERSION, compatibility, None, None,
                       failures, retryAt.value, Some(failure));
      }
      error := Record(entry, source, FailureObserved);
    }

    method RequireRevalidation(id: ProfileId, at: int, p: Policy) returns (error: Option<ObservationError>)
      modifies this
      ensures Applied(old(Value()), LimitSignal(id, at), p, error)
    {
      hide ValidPolicy, ObservationModel.ReplaceEntry, ObservationModel.PushAudit;
      ghost var e := LimitSignal(id, at);
      FirstFailingCheck(e, p);
      if !TimestampOk(at) || !ValidPolicy(p) {
        return Some(InvalidInput);
      }
      var previous := Find(id);
      if previous.Some? && at < previous.value.latestEventAt {
        error := PushAudit(id, UsageLimitSignal, at, OutOfOrderIgnored, previous.value.availability);
        return;
      }
      error := Record(Entry(id, Stored.Unknown, at, at, None, UsageLimitSignal,
                            if previous.Some? then previous.value.codexVersion else None, ADAPTER_VERSION,
                            if previous.Some? then previous.value.compatibility else Unverified,
                            None, Some(at), 0, at, None),
                      UsageLimitSignal, AuditKind.RevalidationRequired);
    }

    /** The document now holds what the event makes of `before`, or the event was refused with that error. */
    ghost predicate Applied(before: Cache, e: Event, p: Policy, error: Option<ObservationError>)
      reads this
    {
      match Observe(before, e, p)
      case Ok(d) => error.None? && Value() == d
      case Err(x) => error == Some(x)
    }
  }

  /** The input checks in the order they are made. */
  lemma FirstFailingCheck(e: Event, p: Policy)
    ensures InputError(e, p) ==
            if !e.LimitSignal? && e.source == UsageLimitSignal then Some(InvalidInput)
            else if !TimestampOk(e.at) then Some(InvalidInput)
            else if e.UsageRead? && !VersionOk(e.version) then Some(InvalidInput)
            else if e.FailureSeen? && e.seenVersion.Some? && !VersionOk(e.seenVersion.value) then Some(InvalidInput)
            else if e.UsageRead? && UsageError(e.usage).Some? then UsageError(e.usage)
            else if !ValidPolicy(p) then Some(InvalidInput)
            else None
  {
    hide UsageError, VersionOk, ValidPolicy, FirstError;
    assert FirstError([]).None? by { NoError([]); }
    var checks := InputChecks(e, p);
    assert checks[0..] == checks && checks[6..] == [];
    FirstErrorFrom(checks, 0);
    FirstErrorFrom(checks, 1);
    FirstErrorFrom(checks, 2);
    FirstErrorFrom(checks, 3);
    FirstErrorFrom(checks, 4);
    FirstErrorFrom(checks, 5);
  }

  lemma FirstErrorFrom(xs: seq<Option<ObservationError>>, k: nat)
    requires k < |xs|
    ensures FirstError(xs[k..]) == if xs[k].Some? then xs[k] else FirstError(xs[k + 1..])
  {
    assert xs[k..][1..] == xs[k + 1..];
  }

  function Loaded(stored: Option<Cache>): Cache {
    if stored.Some? then stored.value else EmptyCache
  }

  /** A transaction stores the observed document and returns its view, or changes nothing. No accepted observation
      is refused by the validation made before saving. */
  ghost predicate Recorded(before: Option<Cache>, e: Event, p: Policy, after: Option<Cache>,
                           r: Result<View, ObservationError>)
  {
    var d := Loaded(before);
    if !ValidPolicy(p) then after == before && r == Err(InvalidInput)
    else if !ValidCache(d) then after == before && r.Err?
    else match Observe(d, e, p)
      case Err(x) => after == before && r == Err(x)
      case Ok(d2) => after == Some(d2) && r.Ok? && ViewAt(d2, e.profile, e.at) == Some(r.value)
  }

  lemma ObservedIsViewable(d: Cache, e: Event, p: Policy, d2: Cache)
    requires ValidCache(d) && Observe(d, e, p) == Ok(d2)
    ensures ValidCache(d2) && ViewAt(d2, e.profile, e.at).Some?
  {
    ObserveKeepsValid(d, e, p, d2);
    ObserveOwn(d, e, p, d2);
  }

  lemma SignalSourceRefused(d: Cache, e: Event, p: Policy)
    requires !e.LimitSignal? && e.source == UsageLimitSignal
    ensures Observe(d, e, p) == Err(InvalidInput)
  {
    FirstFailingCheck(e, p);
  }

  class ObservationStore {
    var stored: Option<Cache>
    const policy: Policy

    constructor (p: Policy)
      ensures stored.None? && policy == p
    {
      stored, policy := None, p;
    }

    /** Reads and validates the stored document; a missing file is the empty cache. */
    method Load() returns (ok: bool, document: CacheDocument)
      ensures fresh(document) && document.Value() == Loaded(stored)
      ensures ok <==> ValidPolicy(policy) && ValidCache(Loaded(stored))
    {
      document := new CacheDocument(Loaded(stored));
      ok := ValidateCache(Loaded(stored));
      ok := ok && ValidPolicy(policy);
    }

    /** The end of a transaction: view the profile, validate the document, replace the file. */
    method Finish(document: CacheDocument, error: Option<ObservationError>, id: ProfileId, at: int)
      returns (r: Result<View, ObservationError>)
      modifies `stored
      ensures match error
              case Some(x) => r == Err(x) && stored == old(stored)
              case None =>
                ValidCache(document.Value()) && ViewAt(document.Value(), id, at).Some? ==>
                  r == Ok(ViewAt(document.Value(), id, at).value) && stored == Some(document.Value())
    {
      hide ViewAt;
      if error.Some? {
        return Err(error.value);
      }
      var d := Cache(document.schemaVersion, document.revision, document.entries, document.audit);
      var view := ViewAt(d, id, at);
      if view.None? {
        return Err(InvalidDocument);
      }
      var ok := ValidateCache(d);
      if !ok {
        return Err(InvalidDocument);
      }
      stored := Some(d);
      return Ok(view.value);
    }

    method ObserveUsage(id: ProfileId, source: Source, version: string, usage: Usage, at: int)
      returns (r: Result<View, ObservationError>)
      modifies `stored
      ensures Recorded(old(stored), UsageRead(id, source, version, usage, at), policy, stored, r)
    {
      hide Observe, ViewAt, ValidCache, ValidPolicy;
      ghost var e := UsageRead(id, source, version, usage, at);
      if source == UsageLimitSignal {
        SignalSourceRefused(Loaded(stored), e, policy);
        return Err(InvalidInput);
      }
      var ok, document := Load();
      if !ok {
        return Err(if ValidPolicy(policy) then InvalidDocument else InvalidInput);
      }
      var error := document.ObserveUsage(id, source, version, usage, at, policy);
      if error.None? { ObservedIsViewable(Loaded(stored), e, policy, document.Value()); }
      r := Finish(document, error, id, at);
    }

    method ObserveFailure(id: ProfileId, source: Source, version: Option<string>, compatibility: Compatibility,
                          failure: Failure, at: int)
      returns (r: Result<View, ObservationError>)
      modifies `stored
      ensures Recorded(old(stored), FailureSeen(id, source, version, compatibility, failure, at), policy, stored, r)
    {
      hide Observe, ViewAt, ValidCache, ValidPolicy;
      ghost var e := FailureSeen(id, source, version, compatibility, failure, at);
      if source == UsageLimitSignal {
        SignalSourceRefused(Loaded(stored), e, policy);
        return Err(InvalidInput);
      }
      var ok, document := Load();
      if !ok {
        return Err(if ValidPolicy(policy) then InvalidDocument else InvalidInput);
      }
      var error := document.ObserveFailure(id, source, version, compatibility, failure, at, policy);
      if error.None? { ObservedIsViewable(Loaded(stored), e, policy, document.Value()); }
      r := Finish(document, error, id, at);
    }

    method RequireRevalidation(id: ProfileId, at: int) returns (r: Result<View, ObservationError>)
      modifies `stored
      ensures Recorded(old(stored), LimitSignal(id, at), policy, stored, r)
    {
      hide Observe, ViewAt, ValidCache, ValidPolicy;
      var ok, document := Load();
      if !ok {
        return Err(if ValidPolicy(policy) then InvalidDocument else InvalidInput);
      }
      var error := document.RequireRevalidation(id, at, policy);
      if error.None? { ObservedIsViewable(Loaded(stored), LimitSignal(id, at), policy, document.Value()); }
      r := Finish(document, error, id, at);
    }

    method DueIdleRefresh(registered: seq<ProfileId>, active: set<ProfileId>, now: int)
      returns (r: Result<seq<ProfileId>, ObservationError>)
      ensures (TimestampOk(now) && |registered| <= MAX_ENTRIES && |active| <= MAX_ENTRIES && ValidCache(Loaded(stored)))
              ==>
                r == RefreshQueue.DueIdle(Loaded(stored), registered, active, now, policy)
      ensures (!TimestampOk(now) || !ValidPolicy(policy) || !ValidCache(Loaded(stored)) || |registered| > MAX_ENTRIES
               || |active| > MAX_ENTRIES) ==> r.Err?
    {
      hide ValidCache, ValidPolicy;
      if !TimestampOk(now) {
        return Err(InvalidInput);
      }
      if |registered| > MAX_ENTRIES || |active| > MAX_ENTRIES {
        return Err(LimitExceeded);
      }
      var ok, document := Load();
      if !ok {
        return Err(if ValidPolicy(policy) then InvalidDocument else InvalidInput);
      }
      return RefreshQueue.DueIdle(Loaded(stored), registered, active, now, policy);
    }
  }
}
