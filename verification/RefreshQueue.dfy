/** Which idle profiles are due for a usage read, and how fast a bounded queue serves them. */
module RefreshQueue {
  import opened Prelude
  import opened ObservationModel
  import opened ObservationValidity
  import History = ObservationHistory
  import Sorting

  datatype Due = Due(at: int, id: ProfileId)

  const ByDueTime := (a: Due, b: Due) => a.at < b.at || (a.at == b.at && a.id <= b.id)
  const DueId := (x: Due) => x.id

  /** A profile never observed is due since ever, one under a signal is due now. */
  function RefreshAt(es: seq<Entry>, id: ProfileId, now: int): int {
    match EntryAt(es, id)
    case None => I64_MIN
    case Some(e) => if e.revalidationRequiredAt.Some? then now else e.nextRefreshAt
  }

  predicate IsDue(es: seq<Entry>, id: ProfileId, active: set<ProfileId>, now: int) {
    id !in active && RefreshAt(es, id, now) <= now
  }

  function DueList(es: seq<Entry>, ids: seq<ProfileId>, active: set<ProfileId>, now: int): seq<Due> {
    if ids == [] then []
    else
      (if IsDue(es, ids[0], active, now) then [Due(RefreshAt(es, ids[0], now), ids[0])] else [])
      + DueList(es, ids[1..], active, now)
  }

  function Ids(due: seq<Due>): seq<ProfileId> {
    seq(|due|, i requires 0 <= i < |due| => due[i].id)
  }

  function DueIdle(d: Cache, registered: seq<ProfileId>, active: set<ProfileId>, now: int, p: Policy)
    : Result<seq<ProfileId>, ObservationError>
  {
    if !ValidPolicy(p) then Err(InvalidInput)
    else
      var due := Sorting.Sort(DueList(d.entries, registered, active, now), ByDueTime);
      Ok(Ids(due[..Min(p.maxIdleRefresh, |due|)]))
  }

  function DueSet(es: seq<Entry>, ids: seq<ProfileId>, active: set<ProfileId>, now: int): set<ProfileId> {
    set id | id in ids && IsDue(es, id, active, now)
  }

  /** The first profile is due before the second, or at the same time with the smaller id. */
  predicate Before(es: seq<Entry>, x: ProfileId, y: ProfileId, now: int) {
    ByDueTime(Due(RefreshAt(es, x, now), x), Due(RefreshAt(es, y, now), y))
  }

  ghost predicate DistinctIds(ids: seq<ProfileId>) {
    forall i, j :: 0 <= i < j < |ids| ==> ids[i] != ids[j]
  }

  /** When a profile is due, decided by its last in-order event: one under a signal now, any other when the time to
      live of its read or the backoff of its failures has passed. */
  lemma DueTimeFollowsHistory(h: seq<Event>, p: Policy, id: ProfileId, k: nat, active: set<ProfileId>, now: int)
    requires History.Replay(h, p).Ok? && History.LastInOrder(h, id, k)
    ensures RefreshAt(History.Replay(h, p).value.entries, id, now)
            == match h[k]
               case LimitSignal(_, _) => now
               case UsageRead(_, _, _, _, at) => at + p.freshTtl
               case FailureSeen(_, _, _, _, _, at) =>
                 at + RetryDelay(p, Min(History.TrailingFailures(History.Effective(h, id)), 255))
    ensures
      var es := History.Replay(h, p).value.entries;
      IsDue(es, id, active, now) <==> id !in active && (h[k].LimitSignal? || now >= RefreshAt(es, id, now))
  {
    hide History.Replay, History.Effective, RetryDelay, Classify;
    History.EntryFollowsHistory(h, p, id);
    History.LastInOrderIsLastEffective(h, id, k);
  }

  /** A profile never seen is due since ever, before all others. */
  lemma NeverSeenIsDue(h: seq<Event>, p: Policy, id: ProfileId, now: int)
    requires History.Replay(h, p).Ok? && forall j :: 0 <= j < |h| ==> h[j].profile != id
    ensures RefreshAt(History.Replay(h, p).value.entries, id, now) == -0x8000_0000_0000_0000
  {
    hide History.Replay;
    History.LatestTimeIsMaximum(h, p, id);
  }

  // ---- the queue serves the least due profiles ------------------------------------------------

  lemma {:induction false} DueListMembers(es: seq<Entry>, ids: seq<ProfileId>, active: set<ProfileId>, now: int, x: Due)
    ensures x in DueList(es, ids, active, now) <==>
              x.id in ids && IsDue(es, x.id, active, now) && x.at == RefreshAt(es, x.id, now)
  {
    if ids != [] { DueListMembers(es, ids[1..], active, now, x); }
  }

  lemma {:induction false} DueListDistinct(es: seq<Entry>, ids: seq<ProfileId>, active: set<ProfileId>, now: int)
    requires DistinctIds(ids)
    ensures Sorting.DistinctBy(DueList(es, ids, active, now), DueId)
  {
    hide RefreshAt, IsDue;
    if ids != [] {
      var rest := DueList(es, ids[1..], active, now);
      DueListDistinct(es, ids[1..], active, now);
      forall i | 0 <= i < |rest| ensures DueId(rest[i]) != ids[0] {
        DueListMembers(es, ids[1..], active, now, rest[i]);
      }
    }
  }

  lemma {:induction false} DueListCounts(es: seq<Entry>, ids: seq<ProfileId>, active: set<ProfileId>, now: int)
    requires DistinctIds(ids)
    ensures |DueList(es, ids, active, now)| == |DueSet(es, ids, active, now)|
  {
    hide RefreshAt, IsDue;
    if ids != [] {
      DueListCounts(es, ids[1..], active, now);
      var rest := DueSet(es, ids[1..], active, now);
      assert ids[0] !in ids[1..];
      assert DueSet(es, ids, active, now) == if IsDue(es, ids[0], active, now) then rest + {ids[0]} else rest;
    }
  }

  lemma DueOrderIsTotal()
    ensures Sorting.TotalPreorder(ByDueTime)
  {
  }

  /** The sorted due list: each due profile once, at its due time, in due order. */
  lemma SortedDueList(es: seq<Entry>, ids: seq<ProfileId>, active: set<ProfileId>, now: int) returns (sorted: seq<Due>)
    requires DistinctIds(ids)
    ensures sorted == Sorting.Sort(DueList(es, ids, active, now), ByDueTime)
    ensures Sorting.SortedBy(sorted, ByDueTime) && Sorting.DistinctBy(sorted, DueId)
    ensures |sorted| == |DueSet(es, ids, active, now)|
    ensures forall x :: x in sorted <==> x.id in DueSet(es, ids, active, now) && x.at == RefreshAt(es, x.id, now)
  {
    hide RefreshAt, Sorting.Sort, DueList;
    var list := DueList(es, ids, active, now);
    sorted := Sorting.Sort(list, ByDueTime);
    DueListCounts(es, ids, active, now);
    DueListDistinct(es, ids, active, now);
    DueOrderIsTotal();
    Sorting.SortIsPermutation(list, ByDueTime);
    Sorting.SortKeepsDistinct(list, ByDueTime, DueId);
    forall x: Due
      ensures x in sorted <==> x.id in DueSet(es, ids, active, now) && x.at == RefreshAt(es, x.id, now)
    {
      DueListMembers(es, ids, active, now, x);
    }
  }

  /** The result lists due idle profiles without repetition, as many as the policy allows, in due order, and no
      profile left out was due before one returned. */
  lemma ReturnsLeastDue(d: Cache, registered: seq<ProfileId>, active: set<ProfileId>, now: int, p: Policy)
    requires ValidPolicy(p) && DistinctIds(registered)
    ensures
      var r := DueIdle(d, registered, active, now, p).value;
      var due := DueSet(d.entries, registered, active, now);
      && DistinctIds(r) && |r| == Min(p.maxIdleRefresh, |due|)
      && (forall id :: id in r ==> id in due)
      && (forall i, j :: 0 <= i < j < |r| ==> Before(d.entries, r[i], r[j], now))
      && (forall x, y :: x in r && y in due && y !in r ==> Before(d.entries, x, y, now))
  {
    hide RefreshAt, Sorting.Sort, DueList, DueSet;
    var due := DueSet(d.entries, registered, active, now);
    var sorted := SortedDueList(d.entries, registered, active, now);
    var k := Min(p.maxIdleRefresh, |sorted|);
    var r := DueIdle(d, registered, active, now, p).value;
    assert r == Ids(sorted[..k]);
    forall m | 0 <= m < k
      ensures r[m] == sorted[m].id && r[m] in r && r[m] in due
      ensures sorted[m] == Due(RefreshAt(d.entries, r[m], now), r[m])
    {
      assert sorted[m] in sorted;
    }
    assert forall i, j :: 0 <= i < j < k ==> DueId(sorted[i]) != DueId(sorted[j]);
    forall x, y | x in r && y in due && y !in r
      ensures Before(d.entries, x, y, now)
    {
      var i :| 0 <= i < |r| && r[i] == x;
      var waiting := Due(RefreshAt(d.entries, y, now), y);
      assert waiting in sorted;
      var j :| 0 <= j < |sorted| && sorted[j] == waiting;
      assert j >= k;
    }
  }

  // ---- rounds of refreshing -------------------------------------------------------------------

  /** No event on record is later than the clock. */
  ghost predicate NothingInFuture(es: seq<Entry>, now: int) {
    forall x :: x in es ==> x.latestEventAt <= now
  }

  /** One answer per returned profile, a usage read or a failure, stamped with the clock. */
  ghost predicate Answers(es: seq<Event>, ids: seq<ProfileId>, now: int) {
    |es| == |ids| && forall i :: 0 <= i < |es| ==> es[i].profile == ids[i] && es[i].at == now && !es[i].LimitSignal?
  }

  function ObserveAll(d: Cache, events: seq<Event>, p: Policy): Result<Cache, ObservationError>
    decreases |events|
  {
    if events == [] then Ok(d)
    else match Observe(d, events[0], p)
      case Err(x) => Err(x)
      case Ok(d1) => ObserveAll(d1, events[1..], p)
  }

  /** Answering a profile at the current time puts its next refresh in the future. */
  lemma AnswerIsNotDue(d: Cache, e: Event, p: Policy, d2: Cache)
    requires DistinctProfiles(d.entries) && NothingInFuture(d.entries, e.at) && !e.LimitSignal?
    requires Observe(d, e, p) == Ok(d2)
    ensures DistinctProfiles(d2.entries) && NothingInFuture(d2.entries, e.at)
    ensures RefreshAt(d2.entries, e.profile, e.at) > e.at
  {
    hide InputError, Observe, RetryDelay;
    assert InputError(e, p).None? by { AcceptedExactly(d, e, p); }
    AdmittedInput(e, p);
    var previous := EntryAt(d.entries, e.profile);
    assert !OutOfOrder(d.entries, e);
    ObserveOwn(d, e, p, d2);
    if e.FailureSeen? { RetryDelayBounds(p, FailureCount(previous)); }
    forall x | x in d2.entries ensures x.latestEventAt <= e.at {
      EntryAtMember(d2.entries, x);
      if x.profileId != e.profile {
        ObserveElsewhere(d, e, p, d2, x.profileId);
      }
    }
  }

  lemma {:induction false} AnswersAreNotDue(d: Cache, events: seq<Event>, ids: seq<ProfileId>, now: int, p: Policy,
                                            d2: Cache, id: ProfileId)
    requires DistinctProfiles(d.entries) && NothingInFuture(d.entries, now)
    requires Answers(events, ids, now) && ObserveAll(d, events, p) == Ok(d2)
    ensures DistinctProfiles(d2.entries) && NothingInFuture(d2.entries, now)
    ensures id !in ids ==> EntryAt(d2.entries, id) == EntryAt(d.entries, id)
    ensures id in ids || RefreshAt(d.entries, id, now) > now ==> RefreshAt(d2.entries, id, now) > now
    decreases |events|
  {
    hide Observe;
    if events != [] {
      var d1 := Observe(d, events[0], p).value;
      AnswerIsNotDue(d, events[0], p, d1);
      if id != ids[0] { ObserveElsewhere(d, events[0], p, d1, id); }
      AnswersAreNotDue(d1, events[1..], ids[1..], now, p, d2, id);
    }
  }

  /** One round: read the queue, answer every profile it returned. */
  ghost predicate Round(d: Cache, d2: Cache, registered: seq<ProfileId>, active: set<ProfileId>, now: int, p: Policy) {
    && ValidPolicy(p)
    && exists events ::
         && Answers(events, DueIdle(d, registered, active, now, p).value, now)
         && ObserveAll(d, events, p) == Ok(d2)
  }

  /** A round removes exactly the returned profiles from the due set. */
  lemma RoundServes(d: Cache, d2: Cache, registered: seq<ProfileId>, active: set<ProfileId>, now: int, p: Policy)
    requires DistinctProfiles(d.entries) && NothingInFuture(d.entries, now) && DistinctIds(registered)
    requires Round(d, d2, registered, active, now, p)
    ensures DistinctProfiles(d2.entries) && NothingInFuture(d2.entries, now)
    ensures
      var r := DueIdle(d, registered, active, now, p).value;
      var due := DueSet(d.entries, registered, active, now);
      && DueSet(d2.entries, registered, active, now) == due - (set id | id in r)
      && |DueSet(d2.entries, registered, active, now)| == |due| - Min(p.maxIdleRefresh, |due|)
  {
    hide DueList, Sorting.Sort, ObserveAll, RefreshAt;
    var r := DueIdle(d, registered, active, now, p).value;
    var events :| Answers(events, r, now) && ObserveAll(d, events, p) == Ok(d2);
    var due := DueSet(d.entries, registered, active, now);
    var served := set id | id in r;
    ReturnsLeastDue(d, registered, active, now, p);
    AnswersAreNotDue(d, events, r, now, p, d2, 0);
    forall id: ProfileId
      ensures id in DueSet(d2.entries, registered, active, now) <==> id in due - served
    {
      AnswersAreNotDue(d, events, r, now, p, d2, id);
      SameEntrySameRefresh(d.entries, d2.entries, id, now);
    }
    assert DueSet(d2.entries, registered, active, now) == due - served;
    DistinctCount(r, served);
    assert served <= due;
  }

  lemma SameEntrySameRefresh(es: seq<Entry>, fs: seq<Entry>, id: ProfileId, now: int)
    ensures EntryAt(es, id) == EntryAt(fs, id) ==> RefreshAt(es, id, now) == RefreshAt(fs, id, now)
  {
  }

  lemma {:induction false} DistinctCount(ids: seq<ProfileId>, all: set<ProfileId>)
    requires DistinctIds(ids) && forall id :: id in all <==> id in ids
    ensures |all| == |ids|
  {
    if ids == [] {
      assert all == {};
    } else {
      assert ids == [ids[0]] + ids[1..];
      assert forall id :: id in all - {ids[0]} <==> id in ids[1..];
      DistinctCount(ids[1..], all - {ids[0]});
    }
  }

  function Left(before: nat, rounds: nat, limit: nat): nat {
    if rounds * limit <= before then before - rounds * limit else 0
  }

  lemma LeftAfterOneMore(before: nat, rounds: nat, limit: nat)
    requires rounds > 0
    ensures Left(before, rounds, limit) == Left(before, rounds - 1, limit) - Min(limit, Left(before, rounds - 1, limit))
  {
    assert rounds * limit == (rounds - 1) * limit + limit;
  }

  /** At a fixed clock, after n rounds exactly max(0, due - n * limit) profiles are due. */
  lemma {:induction false} RoundsDrainQueue(ds: seq<Cache>, registered: seq<ProfileId>, active: set<ProfileId>,
      now: int,
                                            p: Policy)
    requires ds != [] && ValidPolicy(p) && DistinctIds(registered)
    requires DistinctProfiles(ds[0].entries) && NothingInFuture(ds[0].entries, now)
    requires forall i :: 0 <= i < |ds| - 1 ==> Round(ds[i], ds[i + 1], registered, active, now, p)
    ensures DistinctProfiles(ds[|ds| - 1].entries) && NothingInFuture(ds[|ds| - 1].entries, now)
    ensures |DueSet(ds[|ds| - 1].entries, registered, active, now)|
         == Left(|DueSet(ds[0].entries, registered, active, now)|, |ds| - 1, p.maxIdleRefresh)
  {
    hide Round, DueSet, NothingInFuture, DistinctProfiles, DueIdle, Left;
    var n := |ds| - 1;
    var before := |DueSet(ds[0].entries, registered, active, now)|;
    if n > 0 {
      RoundsDrainQueue(ds[..n], registered, active, now, p);
      assert Round(ds[n - 1], ds[n - 1 + 1], registered, active, now, p);
      RoundServes(ds[n - 1], ds[n], registered, active, now, p);
      LeftAfterOneMore(before, n, p.maxIdleRefresh);
    } else {
      NoRounds(before, p.maxIdleRefresh);
    }
  }

  lemma NoRounds(before: nat, limit: nat)
    ensures Left(before, 0, limit) == before
  {
  }

  /** The due set is empty after n rounds exactly when n is at least due / limit rounded up. */
  lemma QueueEmptiesInCeilingRounds(ds: seq<Cache>, registered: seq<ProfileId>, active: set<ProfileId>, now: int,
                                    p: Policy)
    requires ds != [] && ValidPolicy(p) && DistinctIds(registered)
    requires DistinctProfiles(ds[0].entries) && NothingInFuture(ds[0].entries, now)
    requires forall i :: 0 <= i < |ds| - 1 ==> Round(ds[i], ds[i + 1], registered, active, now, p)
    ensures
      var before := |DueSet(ds[0].entries, registered, active, now)|;
      var rounds := (before + p.maxIdleRefresh - 1) / p.maxIdleRefresh;
      DueSet(ds[|ds| - 1].entries, registered, active, now) == {} <==> |ds| - 1 >= rounds
  {
    hide Round, DueSet, NothingInFuture, DistinctProfiles, DueIdle;
    RoundsDrainQueue(ds, registered, active, now, p);
    CeilingDivision(|DueSet(ds[0].entries, registered, active, now)|, p.maxIdleRefresh, |ds| - 1);
  }

  lemma CeilingDivision(total: nat, k: nat, n: nat)
    requires k > 0
    ensures n >= (total + k - 1) / k <==> n * k >= total
  {
    var q := (total + k - 1) / k;
    if n >= q { Monotone(q, n, k); } else { Monotone(n + 1, q, k); }
  }

  lemma Monotone(a: nat, b: nat, k: nat)
    requires a <= b
    ensures a * k <= b * k
  {
  }

  // ---- a round is always accepted -------------------------------------------------------------

  function ProfilesOf(es: seq<Entry>): set<ProfileId> {
    set x | x in es :: x.profileId
  }

  lemma {:induction false} ProfileCount(es: seq<Entry>)
    requires DistinctProfiles(es)
    ensures |ProfilesOf(es)| == |es|
  {
    if es != [] {
      var front, last := es[..|es| - 1], es[|es| - 1];
      ProfileCount(front);
      assert es == front + [last];
      assert ProfilesOf(es) == ProfilesOf(front) + {last.profileId};
    }
  }

  /** Well-formed answers are all accepted when the deadlines fit, the revision has room and the profiles in the
      cache and in the registry are together no more than the cache can hold. */
  lemma {:induction false} AnswersAreAccepted(d: Cache, events: seq<Event>, ids: seq<ProfileId>, now: int, p: Policy,
                                              known: set<ProfileId>)
    requires DistinctProfiles(d.entries) && NothingInFuture(d.entries, now) && Answers(events, ids, now)
    requires forall i :: 0 <= i < |events| ==> InputError(events[i], p).None?
    requires now + p.freshTtl <= MAX_TIMESTAMP && now + p.retryMax <= MAX_TIMESTAMP
    requires d.revision + |events| <= U64_MAX
    requires ProfilesOf(d.entries) <= known && |known| <= MAX_ENTRIES && forall id :: id in ids ==> id in known
    ensures ObserveAll(d, events, p).Ok?
    decreases |events|
  {
    hide Observe, InputError;
    if events != [] {
      var e := events[0];
      OneAnswerIsAccepted(d, e, p, known);
      var d1 := Observe(d, e, p).value;
      AnswerIsNotDue(d, e, p, d1);
      OneAnswerProfiles(d, e, p, d1);
      AnswersAreAccepted(d1, events[1..], ids[1..], now, p, known);
    }
  }

  lemma OneAnswerIsAccepted(d: Cache, e: Event, p: Policy, known: set<ProfileId>)
    requires DistinctProfiles(d.entries) && NothingInFuture(d.entries, e.at) && !e.LimitSignal?
    requires InputError(e, p).None? && d.revision < U64_MAX
    requires e.at + p.freshTtl <= MAX_TIMESTAMP && e.at + p.retryMax <= MAX_TIMESTAMP
    requires ProfilesOf(d.entries) <= known && |known| <= MAX_ENTRIES && e.profile in known
    ensures Observe(d, e, p).Ok?
  {
    hide Observe, InputError, RetryDelay;
    AcceptedExactly(d, e, p);
    AdmittedInput(e, p);
    RetryDelayBounds(p, FailureCount(EntryAt(d.entries, e.profile)));
    if EntryAt(d.entries, e.profile).None? {
      ProfileCount(d.entries);
      assert e.profile !in ProfilesOf(d.entries);
      SubsetCount(ProfilesOf(d.entries) + {e.profile}, known);
    }
  }

  lemma {:induction false} SubsetCount(a: set<ProfileId>, b: set<ProfileId>)
    requires a <= b
    ensures |a| <= |b|
  {
    if a != {} {
      var x :| x in a;
      SubsetCount(a - {x}, b - {x});
    }
  }

  lemma OneAnswerProfiles(d: Cache, e: Event, p: Policy, d1: Cache)
    requires DistinctProfiles(d.entries) && Observe(d, e, p) == Ok(d1)
    ensures d1.revision == d.revision + 1
    ensures ProfilesOf(d1.entries) <= ProfilesOf(d.entries) + {e.profile}
  {
    hide InputError, NewEntry, ReplaceEntry;
    if !OutOfOrder(d.entries, e) {
      NewEntryProfile(EntryAt(d.entries, e.profile), e, p);
      var entry := NewEntry(EntryAt(d.entries, e.profile), e, p).value;
      ReplaceEntryFrame(d.entries, entry, ReplaceEntry(d.entries, entry).value);
    }
  }
}
