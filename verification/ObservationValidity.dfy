/** What one accepted observation does to the cache: it keeps the document valid and touches one entry. */
module ObservationValidity {
  import opened Prelude
  import opened ObservationModel
  import Sorting

  lemma FindEntryExists(es: seq<Entry>, i: nat)
    requires i < |es|
    ensures FindEntry(es, es[i].profileId) <= i
  {
    var k := FindEntry(es, es[i].profileId);
    assert forall j :: 0 <= j < k ==> es[j].profileId != es[i].profileId;
  }

  /** In a list without duplicates the entry found for an id is its only entry. */
  lemma EntryAtMember(es: seq<Entry>, x: Entry)
    requires DistinctProfiles(es)
    ensures x in es <==> EntryAt(es, x.profileId) == Some(x)
  {
    if x in es {
      var i :| 0 <= i < |es| && es[i] == x;
      FindEntryExists(es, i);
    }
  }

  lemma EntryAtDependsOnMembers(es: seq<Entry>, fs: seq<Entry>, id: ProfileId)
    requires DistinctProfiles(es) && DistinctProfiles(fs)
    requires forall x :: x in es && x.profileId == id <==> x in fs && x.profileId == id
    ensures EntryAt(es, id) == EntryAt(fs, id)
  {
    if EntryAt(es, id).Some? { EntryAtMember(fs, EntryAt(es, id).value); }
    if EntryAt(fs, id).Some? { EntryAtMember(es, EntryAt(fs, id).value); }
  }

  /** Replacing changes what is found for one profile and nothing else. */
  lemma ReplaceEntryFrame(es: seq<Entry>, e: Entry, fs: seq<Entry>)
    requires DistinctProfiles(es) && ReplaceEntry(es, e) == Ok(fs)
    ensures DistinctProfiles(fs) && (|es| <= MAX_ENTRIES ==> |fs| <= MAX_ENTRIES)
    ensures EntryAt(fs, e.profileId) == Some(e)
    ensures forall x :: x in fs ==> x in es || x == e
    ensures forall x :: x in es && x.profileId != e.profileId <==> x in fs && x.profileId != e.profileId
  {
    var k := FindEntry(es, e.profileId);
    if k < |es| {
      forall x | x in es && x.profileId != e.profileId ensures x in fs {
        var i :| 0 <= i < |es| && es[i] == x;
        assert fs[i] == x;
      }
      assert fs[k] == e;
    } else {
      Sorting.SortKeepsDistinct(es + [e], ByProfile, ProfileOf);
      assert (es + [e])[|es|] == e;
    }
    EntryAtMember(fs, e);
  }

  lemma ReplaceEntryElsewhere(es: seq<Entry>, e: Entry, fs: seq<Entry>, id: ProfileId)
    requires DistinctProfiles(es) && ReplaceEntry(es, e) == Ok(fs) && id != e.profileId
    ensures DistinctProfiles(fs) && EntryAt(fs, id) == EntryAt(es, id)
  {
    ReplaceEntryFrame(es, e, fs);
    EntryAtDependsOnMembers(es, fs, id);
  }

  // ---- the new entry --------------------------------------------------------------------------

  lemma {:induction false} BytesPerChar(s: string)
    ensures ByteLength(s) <= 4 * |s|
  {
    if s != "" { BytesPerChar(s[1..]); }
  }

  lemma ShortText(s: string, limit: nat)
    requires s != "" && 4 * |s| <= limit && forall i :: 0 <= i < |s| ==> !Control(s[i])
    ensures TextOk(s, limit)
  {
    BytesPerChar(s);
  }

  lemma AdapterVersionIsShort()
    ensures VersionOk(ADAPTER_VERSION)
  {
    hide ByteLength;
    ShortText(ADAPTER_VERSION, MAX_VERSION_BYTES);
  }

  lemma {:induction false} Pow2Positive(n: nat)
    ensures Pow2(n) >= 1
  {
    if n > 0 { Pow2Positive(n - 1); }
  }

  lemma RetryDelayBounds(p: Policy, failures: nat)
    requires ValidPolicy(p)
    ensures p.retryBase <= RetryDelay(p, failures) <= p.retryMax
  {
    var shift := if failures == 0 then 0 else Min(failures - 1, 30);
    Pow2Positive(shift);
    Scaling(p.retryBase, Pow2(shift));
  }

  /** The backoff starts at the base and doubles up to its cap with every failure, for the first 31 failures. */
  lemma BackoffDoubles(p: Policy, failures: nat)
    requires ValidPolicy(p) && failures >= 1
    ensures RetryDelay(p, 1) == p.retryBase
    ensures RetryDelay(p, failures + 1)
         == if failures <= 30 then Min(2 * RetryDelay(p, failures), p.retryMax) else RetryDelay(p, failures)
  {
    assert Pow2(0) == 1;
    if failures <= 30 {
      assert Pow2(failures) == 2 * Pow2(failures - 1);
      Twice(p.retryBase, Pow2(failures - 1));
      Pow2Positive(failures - 1);
      Scaling(p.retryBase, Pow2(failures - 1));
    }
  }

  lemma Twice(base: int, factor: nat)
    ensures base * (2 * factor) == 2 * (base * factor)
  {
  }

  lemma Scaling(base: int, factor: nat)
    requires base >= 0 && factor >= 1
    ensures base * factor >= base
  {
  }

  lemma NewEntryIsValid(previous: Option<Entry>, e: Event, p: Policy, entry: Entry)
    requires InputError(e, p).None? && NewEntry(previous, e, p) == Ok(entry)
    requires previous.Some? ==> ValidEntry(previous.value) && e.at >= previous.value.latestEventAt
                                && previous.value.profileId == e.profile
    ensures ValidEntry(entry) && entry.profileId == e.profile && entry.latestEventAt == e.at
  {
    hide InputError, UsageOk, VersionOk, IsExhausted, IsAvailable, RetryDelay;
    AdmittedInput(e, p);
    AdapterVersionIsShort();
    if e.FailureSeen? {
      RetryDelayBounds(p, FailureCount(previous));
    }
  }

  // ---- the document ---------------------------------------------------------------------------

  lemma PushKeepsAudit(d: Cache, id: ProfileId, source: Source, at: int, kind: AuditKind, a: Stored, d2: Cache)
    requires PushAudit(d, id, source, at, kind, a) == Ok(d2) && TimestampOk(at)
    requires ValidAudit(d.audit, d.revision) && |d.audit| <= MAX_AUDIT_EVENTS
    ensures ValidAudit(d2.audit, d2.revision) && |d2.audit| <= MAX_AUDIT_EVENTS
    ensures d2.entries == d.entries && d2.schemaVersion == d.schemaVersion && d2.revision == d.revision + 1
  {
    var all := d.audit + [AuditEvent(d.revision + 1, id, at, source, kind, a)];
    assert ValidAudit(all, d2.revision);
  }

  /** Every accepted observation of a valid document gives a document the validator accepts, so the check made
      before saving never refuses one. */
  lemma ObserveKeepsValid(d: Cache, e: Event, p: Policy, d2: Cache)
    requires ValidCache(d) && Observe(d, e, p) == Ok(d2)
    ensures ValidCache(d2)
  {
    hide InputError, NewEntry, PushAudit, ReplaceEntry, ValidEntry, ValidAudit;
    AdmittedInput(e, p);
    var previous := EntryAt(d.entries, e.profile);
    if OutOfOrder(d.entries, e) {
      PushKeepsAudit(d, e.profile, SourceOf(e), e.at, OutOfOrderIgnored, previous.value.availability, d2);
    } else {
      var entry := NewEntry(previous, e, p).value;
      var es := ReplaceEntry(d.entries, entry).value;
      NewEntryIsValid(previous, e, p, entry);
      ReplaceEntryFrame(d.entries, entry, es);
      PushKeepsAudit(d.(entries := es), e.profile, SourceOf(e), e.at, KindOf(e), entry.availability, d2);
      forall i | 0 <= i < |es| ensures ValidEntry(es[i]) {
        assert es[i] in es;
      }
    }
  }

  /** What an accepted observation leaves for its own profile. */
  lemma ObserveOwn(d: Cache, e: Event, p: Policy, d2: Cache)
    requires DistinctProfiles(d.entries) && Observe(d, e, p) == Ok(d2)
    ensures DistinctProfiles(d2.entries)
    ensures OutOfOrder(d.entries, e) ==> EntryAt(d2.entries, e.profile) == EntryAt(d.entries, e.profile)
    ensures !OutOfOrder(d.entries, e) ==>
              && EntryAt(d2.entries, e.profile).Some?
              && NewEntry(EntryAt(d.entries, e.profile), e, p) == Ok(EntryAt(d2.entries, e.profile).value)
  {
    hide InputError, ReplaceEntry;
    if !OutOfOrder(d.entries, e) {
      NewEntryProfile(EntryAt(d.entries, e.profile), e, p);
      var entry := NewEntry(EntryAt(d.entries, e.profile), e, p).value;
      ReplaceEntryFrame(d.entries, entry, ReplaceEntry(d.entries, entry).value);
    }
  }

  lemma NewEntryProfile(previous: Option<Entry>, e: Event, p: Policy)
    requires NewEntry(previous, e, p).Ok? && (previous.Some? ==> previous.value.profileId == e.profile)
    ensures NewEntry(previous, e, p).value.profileId == e.profile
  {
  }

  /** No observation changes another profile's entry. */
  lemma ObserveElsewhere(d: Cache, e: Event, p: Policy, d2: Cache, id: ProfileId)
    requires DistinctProfiles(d.entries) && Observe(d, e, p) == Ok(d2) && id != e.profile
    ensures EntryAt(d2.entries, id) == EntryAt(d.entries, id)
  {
    hide InputError, ReplaceEntry;
    if !OutOfOrder(d.entries, e) {
      NewEntryProfile(EntryAt(d.entries, e.profile), e, p);
      var entry := NewEntry(EntryAt(d.entries, e.profile), e, p).value;
      ReplaceEntryElsewhere(d.entries, entry, ReplaceEntry(d.entries, entry).value, id);
    }
  }

  // ---- acceptance -----------------------------------------------------------------------------

  predicate DeadlineFits(previous: Option<Entry>, e: Event, p: Policy) {
    match e
    case UsageRead(_, _, _, _, at) => at + p.freshTtl <= MAX_TIMESTAMP
    case FailureSeen(_, _, _, _, _, at) => at + RetryDelay(p, FailureCount(previous)) <= MAX_TIMESTAMP
    case LimitSignal(_, _) => true
  }

  /** Exactly the observations a document accepts. */
  lemma AcceptedExactly(d: Cache, e: Event, p: Policy)
    ensures Observe(d, e, p).Ok? <==>
              && InputError(e, p).None? && d.revision < U64_MAX
              && (OutOfOrder(d.entries, e)
                  || (DeadlineFits(EntryAt(d.entries, e.profile), e, p)
                      && (EntryAt(d.entries, e.profile).Some? || |d.entries| < MAX_ENTRIES)))
  {
    hide InputError, RetryDelay, UsageEntry, FailureEntry, SignalEntry;
    assert NewEntry(EntryAt(d.entries, e.profile), e, p).Ok? <==> DeadlineFits(EntryAt(d.entries, e.profile), e, p);
    if NewEntry(EntryAt(d.entries, e.profile), e, p).Ok? {
      NewEntryProfile(EntryAt(d.entries, e.profile), e, p);
    }
  }
}
