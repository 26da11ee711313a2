/** The cache against the history of accepted events: what is stored and shown is decided by the events themselves. */
module ObservationHistory {
  import opened Prelude
  import opened ObservationModel
  import opened ObservationValidity

  /** The document after a whole history, starting from the empty cache; an error when some event is refused. */
  function Replay(h: seq<Event>, p: Policy): Result<Cache, ObservationError> {
    if h == [] then Ok(EmptyCache)
    else match Replay(h[..|h| - 1], p)
      case Err(x) => Err(x)
      case Ok(d) => Observe(d, h[|h| - 1], p)
  }

  /** No earlier event of the same profile is later in time. */
  predicate InOrder(h: seq<Event>, k: nat)
    requires k < |h|
  {
    forall j :: 0 <= j < k && h[j].profile == h[k].profile ==> h[j].at <= h[k].at
  }

  /** The in-order events of one profile, oldest first. */
  function Effective(h: seq<Event>, id: ProfileId): seq<Event> {
    if h == [] then []
    else
      var last := h[|h| - 1];
      Effective(h[..|h| - 1], id) + if last.profile == id && InOrder(h, |h| - 1) then [last] else []
  }

  /** A failure that leaves the last usage on record. */
  predicate SoftFailure(e: Event) {
    e.FailureSeen? && e.failure != Failure.Unsupported
  }

  /** The last event that is not a soft failure: the one whose content still stands. */
  function Evidence(s: seq<Event>): Option<Event> {
    if s == [] then None
    else if SoftFailure(s[|s| - 1]) then Evidence(s[..|s| - 1])
    else Some(s[|s| - 1])
  }

  function TrailingFailures(s: seq<Event>): nat {
    if s == [] || !s[|s| - 1].FailureSeen? then 0 else 1 + TrailingFailures(s[..|s| - 1])
  }

  /** The event whose version and compatibility stand: the last one that is neither a signal nor a soft failure above a
      usage read. */
  function Identity(s: seq<Event>): Option<Event> {
    if s == [] then None
    else
      var last, front := s[|s| - 1], s[..|s| - 1];
      if last.LimitSignal? then Identity(front)
      else if SoftFailure(last) && Evidence(front).Some? && Evidence(front).value.UsageRead? then Identity(front)
      else Some(last)
  }

  function VersionSeen(e: Option<Event>): Option<string> {
    match e
    case Some(UsageRead(_, _, version, _, _)) => Some(version)
    case Some(FailureSeen(_, _, version, _, _, _)) => version
    case _ => None
  }

  function CompatibilitySeen(e: Option<Event>): Compatibility {
    match e
    case Some(UsageRead(_, _, _, _, _)) => Compatible
    case Some(FailureSeen(_, _, _, compatibility, _, _)) => compatibility
    case _ => Unverified
  }

  /** What the entry of a profile says about its nonempty list of in-order events. */
  ghost predicate Describes(e: Entry, s: seq<Event>, p: Policy)
    requires s != []
  {
    var last := s[|s| - 1];
    var evidence := Evidence(s);
    && e.latestEventAt == last.at && e.adapterVersion == ADAPTER_VERSION
    && e.codexVersion == VersionSeen(Identity(s)) && e.compatibility == CompatibilitySeen(Identity(s))
    && e.consecutiveFailures == Min(TrailingFailures(s), 255)
    && e.lastFailure == (if last.FailureSeen? then Some(last.failure) else None)
    && e.revalidationRequiredAt == (if last.LimitSignal? then Some(last.at) else None)
    && e.nextRefreshAt == last.at + (match last
                                     case UsageRead(_, _, _, _, _) => p.freshTtl
                                     case FailureSeen(_, _, _, _, _, _) => RetryDelay(p, e.consecutiveFailures)
                                     case LimitSignal(_, _) => 0)
    && (if evidence.Some? && evidence.value.UsageRead? then
          var read := evidence.value;
          && e.usage == Some(read.usage) && e.availability == Classify(read.usage)
          && e.observedAt == read.at && e.expiresAt == Some(read.at + p.freshTtl)
          && e.source == read.source && Identity(s) == Some(read)
        else
          && e.usage.None? && e.expiresAt.None? && e.observedAt == last.at && e.source == SourceOf(last)
          && e.availability == if last.FailureSeen? && last.failure == Failure.Unsupported
                               then Stored.Unsupported else Stored.Unknown)
  }

  // ---- the fold -------------------------------------------------------------------------------

  lemma {:induction false} ReplayIsDistinct(h: seq<Event>, p: Policy)
    requires Replay(h, p).Ok?
    ensures DistinctProfiles(Replay(h, p).value.entries)
  {
    if h != [] {
      ReplayIsDistinct(h[..|h| - 1], p);
      ObserveOwn(Replay(h[..|h| - 1], p).value, h[|h| - 1], p, Replay(h, p).value);
    }
  }

  lemma {:induction false} EffectiveMembers(h: seq<Event>, id: ProfileId)
    ensures forall e :: e in Effective(h, id) ==> e.profile == id && e in h
    ensures Effective(h, id) == [] ==> forall k :: 0 <= k < |h| ==> h[k].profile != id
    ensures Effective(h, id) != [] ==>
              forall k :: 0 <= k < |h| && h[k].profile == id ==> h[k].at <= Effective(h, id)[|Effective(h, id)| - 1].at
  {
    if h != [] {
      EffectiveMembers(h[..|h| - 1], id);
    }
  }

  /** The order test the cache makes against its latest time is the order test on the history. */
  lemma OrderTestAgrees(h: seq<Event>, es: seq<Entry>, p: Policy)
    requires h != []
    requires
      var s := Effective(h[..|h| - 1], h[|h| - 1].profile);
      var entry := EntryAt(es, h[|h| - 1].profile);
      (entry.Some? <==> s != []) && (entry.Some? ==> Describes(entry.value, s, p))
    ensures OutOfOrder(es, h[|h| - 1]) <==> !InOrder(h, |h| - 1)
  {
    hide Classify, Identity, Evidence, TrailingFailures, RetryDelay, Effective;
    var front, e := h[..|h| - 1], h[|h| - 1];
    var s := Effective(front, e.profile);
    EffectiveMembers(front, e.profile);
    if s != [] {
      assert s[|s| - 1] in front;
      var j :| 0 <= j < |front| && front[j] == s[|s| - 1];
      assert h[j] == front[j];
    }
    assert forall k :: 0 <= k < |front| ==> h[k] == front[k];
  }

  lemma NextEntryDescribed(previous: Option<Entry>, s: seq<Event>, e: Event, p: Policy)
    requires NewEntry(previous, e, p).Ok?
    requires previous.Some? <==> s != []
    requires previous.Some? ==> Describes(previous.value, s, p)
    ensures Describes(NewEntry(previous, e, p).value, s + [e], p)
  {
    hide Classify, RetryDelay;
    var t := s + [e];
    assert t[..|s|] == s && t[|t| - 1] == e;
    assert Evidence(t) == if SoftFailure(e) then Evidence(s) else Some(e);
    assert Identity(t) == if e.LimitSignal? || (SoftFailure(e) && Evidence(s).Some? && Evidence(s).value.UsageRead?)
                          then Identity(s) else Some(e);
    assert TrailingFailures(t) == if e.FailureSeen? then 1 + TrailingFailures(s) else 0;
    assert e.FailureSeen? ==> FailureCount(previous) == Min(TrailingFailures(t), 255);
  }

  /** The stored entry is the one the in-order events describe. */
  lemma {:induction false} EntryFollowsHistory(h: seq<Event>, p: Policy, id: ProfileId)
    requires Replay(h, p).Ok?
    ensures EntryAt(Replay(h, p).value.entries, id).Some? <==> Effective(h, id) != []
    ensures Effective(h, id) != [] ==>
              Describes(EntryAt(Replay(h, p).value.entries, id).value, Effective(h, id), p)
  {
    hide Describes, Observe, NewEntry;
    if h != [] {
      var front, e := h[..|h| - 1], h[|h| - 1];
      var d, d2 := Replay(front, p).value, Replay(h, p).value;
      EntryFollowsHistory(front, p, id);
      ReplayIsDistinct(front, p);
      if e.profile == id {
        OrderTestAgrees(h, d.entries, p);
        ObserveOwn(d, e, p, d2);
        assert Effective(h, id) == if InOrder(h, |h| - 1) then Effective(front, id) + [e] else Effective(front, id);
        if InOrder(h, |h| - 1) {
          NextEntryDescribed(EntryAt(d.entries, id), Effective(front, id), e, p);
        }
      } else {
        assert Effective(h, id) == Effective(front, id);
        ObserveElsewhere(d, e, p, d2, id);
      }
    }
  }

  /** The latest time on record is the greatest event time of the profile, ignored events included. */
  lemma LatestTimeIsMaximum(h: seq<Event>, p: Policy, id: ProfileId)
    requires Replay(h, p).Ok?
    ensures EntryAt(Replay(h, p).value.entries, id).None? <==> forall k :: 0 <= k < |h| ==> h[k].profile != id
    ensures EntryAt(Replay(h, p).value.entries, id).Some? ==>
              var latest := EntryAt(Replay(h, p).value.entries, id).value.latestEventAt;
              && (forall k :: 0 <= k < |h| && h[k].profile == id ==> h[k].at <= latest)
              && (exists k :: 0 <= k < |h| && h[k].profile == id && h[k].at == latest)
  {
    EntryFollowsHistory(h, p, id);
    EffectiveMembers(h, id);
    var s := Effective(h, id);
    if s != [] {
      assert s[|s| - 1] in s && s[|s| - 1] in h;
      var k :| 0 <= k < |h| && h[k] == s[|s| - 1];
      assert h[k].profile == id;
    }
  }

  // ---- what is shown --------------------------------------------------------------------------

  predicate LastInOrder(h: seq<Event>, id: ProfileId, k: nat) {
    && k < |h| && h[k].profile == id && InOrder(h, k)
    && forall j :: k < j < |h| && h[j].profile == id ==> !InOrder(h, j)
  }

  lemma {:induction false} LastInOrderIsLastEffective(h: seq<Event>, id: ProfileId, k: nat)
    requires LastInOrder(h, id, k)
    ensures Effective(h, id) != [] && Effective(h, id)[|Effective(h, id)| - 1] == h[k]
  {
    var n := |h| - 1;
    if k < n {
      var front := h[..n];
      forall j | k < j < |front| && front[j].profile == id ensures !InOrder(front, j) {
        assert !InOrder(h, j);
      }
      assert InOrder(front, k);
      LastInOrderIsLastEffective(front, id, k);
    }
  }

  lemma {:induction false} SomeEventIsLastInOrder(h: seq<Event>, id: ProfileId, i: nat) returns (k: nat)
    requires i < |h| && h[i].profile == id
    ensures LastInOrder(h, id, k)
  {
    var n := |h| - 1;
    var front := h[..n];
    k := n;
    if exists j :: 0 <= j < n && h[j].profile == id {
      var j :| 0 <= j < n && h[j].profile == id;
      assert front[j].profile == id;
      var m := SomeEventIsLastInOrder(front, id, j);
      if !(h[n].profile == id && InOrder(h, n)) {
        k := m;
        forall q | k < q < |h| && h[q].profile == id ensures !InOrder(h, q) {
          assert q < n ==> !InOrder(front, q);
        }
      }
    }
  }

  /** What is shown of a profile, decided by its last in-order event and the clock. */
  lemma ViewFollowsHistory(h: seq<Event>, p: Policy, id: ProfileId, k: nat, now: int)
    requires Replay(h, p).Ok? && LastInOrder(h, id, k)
    ensures ViewAt(Replay(h, p).value, id, now).Some?
    ensures
      var view := ViewAt(Replay(h, p).value, id, now).value;
      var last := h[k];
      var recent := last.UsageRead? && now < last.at + p.freshTtl;
      && (view.availability == VAvailable <==> recent && Classify(last.usage) == Available)
      && (view.availability == VExhausted <==> recent && Classify(last.usage) == Exhausted)
      && (view.freshness == Fresh <==> recent)
      && (view.freshness == NeedsRevalidation <==> last.LimitSignal?)
      && (view.availability == VUnsupported <==> last.FailureSeen? && last.failure == Failure.Unsupported)
      && (view.availability == VStale <==>
            || (last.UsageRead? && last.at + p.freshTtl <= now)
            || (SoftFailure(last) && Evidence(Effective(h, id)).Some? && Evidence(Effective(h, id)).value.UsageRead?))
  {
    hide Replay, Effective;
    EntryFollowsHistory(h, p, id);
    LastInOrderIsLastEffective(h, id, k);
    assert !SoftFailure(h[k]) ==> Evidence(Effective(h, id)) == Some(h[k]);
  }

  /** Everything else that is shown of a profile: its last usage read with that read's time and source while that read
      is the evidence, otherwise no usage and the time and source of the last in-order event; the version and
      compatibility that stand; and the next refresh after the time to live, the backoff or at once. */
  lemma ViewShows(h: seq<Event>, p: Policy, id: ProfileId, k: nat, now: int)
    requires Replay(h, p).Ok? && LastInOrder(h, id, k)
    ensures ViewAt(Replay(h, p).value, id, now).Some?
    ensures
      var view, evidence, s := ViewAt(Replay(h, p).value, id, now).value, Evidence(Effective(h, id)), Effective(h, id);
      && (if evidence.Some? && evidence.value.UsageRead?
          then
            var read := evidence.value;
            view.usage == Some(read.usage) && view.observedAt == read.at && view.source == read.source
            && view.codexVersion == Some(read.version) && view.compatibility == Compatible
          else
            view.usage.None? && view.observedAt == h[k].at && view.source == SourceOf(h[k])
            && view.codexVersion == VersionSeen(Identity(s)) && view.compatibility == CompatibilitySeen(Identity(s))
            && (h[k].FailureSeen? ==>
                  view.codexVersion == h[k].seenVersion && view.compatibility == h[k].compatibility))
      && view.adapterVersion == ADAPTER_VERSION
      && view.nextRefreshAt == h[k].at + match h[k]
                                         case UsageRead(_, _, _, _, _) => p.freshTtl
                                         case FailureSeen(_, _, _, _, _, _) =>
                                           RetryDelay(p, Min(TrailingFailures(s), 255))
                                         case LimitSignal(_, _) => 0
  {
    hide Replay, Effective, Classify, RetryDelay;
    EntryFollowsHistory(h, p, id);
    LastInOrderIsLastEffective(h, id, k);
  }

  /** A profile without events has no view; every other profile has one. */
  lemma ViewExists(h: seq<Event>, p: Policy, id: ProfileId, now: int)
    requires Replay(h, p).Ok?
    ensures ViewAt(Replay(h, p).value, id, now).Some? <==> exists k :: 0 <= k < |h| && h[k].profile == id
  {
    LatestTimeIsMaximum(h, p, id);
  }

  /** After a usage-limit signal, in order or late, the profile is shown neither available nor exhausted until a usage
      read arrives that is no older than the signal. A read of the same second counts only when it came after it. */
  lemma SignalGatesSelection(h: seq<Event>, p: Policy, k: nat, now: int)
    requires Replay(h, p).Ok? && k < |h| && h[k].LimitSignal?
    requires forall j :: 0 <= j < |h| && h[j].profile == h[k].profile && h[j].UsageRead? ==>
               h[j].at < h[k].at || (j < k && h[j].at == h[k].at)
    ensures
      var view := ViewAt(Replay(h, p).value, h[k].profile, now);
      view.Some? && view.value.availability != VAvailable && view.value.availability != VExhausted
  {
    hide Replay;
    var m := SomeEventIsLastInOrder(h, h[k].profile, k);
    LastInOrderIsLatest(h, h[k].profile, m, k);
    ViewFollowsHistory(h, p, h[k].profile, m, now);
  }

  /** No event of the profile is later in time than its last in-order event, nor as late and after it. */
  lemma LastInOrderIsLatest(h: seq<Event>, id: ProfileId, m: nat, k: nat)
    requires LastInOrder(h, id, m) && k < |h| && h[k].profile == id
    ensures h[k].at <= h[m].at && (m < k ==> h[k].at < h[m].at)
    decreases k
  {
    if k > m {
      var j :| 0 <= j < k && h[j].profile == h[k].profile && h[j].at > h[k].at;
      LastInOrderIsLatest(h, id, m, j);
    }
  }

  // ---- whole runs -----------------------------------------------------------------------------

  /** Every history of accepted events leaves a document the validator accepts. */
  lemma {:induction false} ReplayIsValid(h: seq<Event>, p: Policy)
    requires Replay(h, p).Ok?
    ensures ValidCache(Replay(h, p).value)
  {
    if h != [] {
      ReplayIsValid(h[..|h| - 1], p);
      ObserveKeepsValid(Replay(h[..|h| - 1], p).value, h[|h| - 1], p, Replay(h, p).value);
    }
  }

  function StoredAfter(h: seq<Event>, p: Policy, id: ProfileId): Stored {
    match Replay(h, p)
    case Err(_) => Stored.Unknown
    case Ok(d) => if EntryAt(d.entries, id).Some? then EntryAt(d.entries, id).value.availability else Stored.Unknown
  }

  /** One audit event for every event of the history, the ignored ones marked so. */
  function FullLog(h: seq<Event>, p: Policy): (log: seq<AuditEvent>)
    ensures |log| == |h|
  {
    if h == [] then []
    else
      var n := |h| - 1;
      var e := h[n];
      FullLog(h[..n], p)
      + [AuditEvent(|h|, e.profile, e.at, SourceOf(e), if InOrder(h, n) then KindOf(e) else OutOfOrderIgnored,
                    StoredAfter(h, p, e.profile))]
  }

  lemma LastEventsOfPush(audit: seq<AuditEvent>, event: AuditEvent)
    ensures LastEvents(LastEvents(audit) + [event]) == LastEvents(audit + [event])
  {
  }

  /** An accepted observation adds one audit event, stamped with the availability it leaves on record. */
  lemma ObserveLogs(d: Cache, e: Event, p: Policy, d2: Cache)
    requires DistinctProfiles(d.entries) && Observe(d, e, p) == Ok(d2)
    ensures d2.revision == d.revision + 1
    ensures
      var ignored := OutOfOrder(d.entries, e);
      var entry := EntryAt(d2.entries, e.profile);
      && entry.Some?
      && d2.audit == LastEvents(d.audit + [AuditEvent(d.revision + 1, e.profile, e.at, SourceOf(e),
                                                      if ignored then OutOfOrderIgnored else KindOf(e),
                                                      entry.value.availability)])
  {
    hide InputError, ReplaceEntry, LastEvents;
    if !OutOfOrder(d.entries, e) {
      NewEntryProfile(EntryAt(d.entries, e.profile), e, p);
      var entry := NewEntry(EntryAt(d.entries, e.profile), e, p).value;
      ReplaceEntryFrame(d.entries, entry, ReplaceEntry(d.entries, entry).value);
    }
  }

  lemma FullLogStep(h: seq<Event>, p: Policy)
    requires h != []
    ensures
      var n := |h| - 1;
      var e := h[n];
      FullLog(h, p) == FullLog(h[..n], p) + [AuditEvent(
        |h|, e.profile, e.at, SourceOf(e), if InOrder(h, n) then KindOf(e) else OutOfOrderIgnored,
        StoredAfter(h, p, e.profile))]
  {
  }

  /** The audit kept is the end of the full log, at most 512 events of it, and the revision counts the history. */
  lemma {:induction false} AuditIsTailOfLog(h: seq<Event>, p: Policy)
    requires Replay(h, p).Ok?
    ensures Replay(h, p).value.revision == |h|
    ensures Replay(h, p).value.audit == LastEvents(FullLog(h, p))
  {
    if h != [] {
      hide Observe, LastEvents, FullLog;
      var n := |h| - 1;
      var front, e := h[..n], h[n];
      AuditIsTailOfLog(front, p);
      EntryFollowsHistory(front, p, e.profile);
      OrderTestAgrees(h, Replay(front, p).value.entries, p);
      ReplayIsDistinct(front, p);
      var event := AuditEvent(|h|, e.profile, e.at, SourceOf(e), if InOrder(h, n) then KindOf(e) else OutOfOrderIgnored,
                              StoredAfter(h, p, e.profile));
      ObserveLogs(Replay(front, p).value, e, p, Replay(h, p).value);
      FullLogStep(h, p);
      LastEventsOfPush(FullLog(front, p), event);
    } else {
      assert LastEvents([]) == [];
    }
  }

  lemma {:induction false} LogRevisions(h: seq<Event>, p: Policy, k: nat)
    requires k < |h|
    ensures FullLog(h, p)[k].revision == k + 1
  {
    if k < |h| - 1 { LogRevisions(h[..|h| - 1], p, k); }
  }

  /** The audit holds the last min(n, 512) events with consecutive revisions ending at the current one. */
  lemma AuditRevisions(h: seq<Event>, p: Policy)
    requires Replay(h, p).Ok?
    ensures
      var d := Replay(h, p).value;
      && |d.audit| == Min(|h|, MAX_AUDIT_EVENTS)
      && forall i :: 0 <= i < |d.audit| ==> d.audit[i].revision == d.revision - |d.audit| + i + 1
  {
    hide Replay, FullLog;
    AuditIsTailOfLog(h, p);
    var d := Replay(h, p).value;
    forall i | 0 <= i < |d.audit| ensures d.audit[i].revision == d.revision - |d.audit| + i + 1 {
      LogRevisions(h, p, |h| - |d.audit| + i);
    }
  }
}
