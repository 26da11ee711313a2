/** What an enabled pool is promised while others keep editing the definitions. */
module RoutingRuns {
  import opened Prelude
  import opened RoutingModel
  import Routing
  import Sorting

  datatype Attempt = Attempt(expected: nat, mutation: Mutation)

  ghost function After(d: Definitions, attempts: seq<Attempt>): Definitions
    decreases |attempts|
  {
    if attempts == [] then d
    else After(Apply(d, attempts[0].expected, attempts[0].mutation).0, attempts[1..])
  }

  ghost predicate IsEnabled(d: Definitions, id: Id) {
    PoolAt(d.pools, id).Some? && PoolAt(d.pools, id).value.activation == Enabled
  }

  /** The pool is enabled before every attempt. The last attempt may be the one that disables it. */
  ghost predicate EnabledThroughout(d: Definitions, attempts: seq<Attempt>, id: Id)
    decreases |attempts|
  {
    attempts != [] ==>
      && IsEnabled(d, id)
      && EnabledThroughout(Apply(d, attempts[0].expected, attempts[0].mutation).0, attempts[1..], id)
  }

  /** The pool still exists with its members in order and its domain, whose provider is unchanged and which still
      has every one of those members. */
  ghost predicate Kept(d: Definitions, e: Definitions, id: Id) {
    && PoolAt(d.pools, id).Some? && PoolAt(e.pools, id).Some?
    && var p, q := PoolAt(d.pools, id).value, PoolAt(e.pools, id).value;
    && q.profileIds == p.profileIds && q.domainId == p.domainId
    && DomainAt(d.domains, p.domainId).Some? && DomainAt(e.domains, p.domainId).Some?
    && DomainAt(e.domains, p.domainId).value.provider == DomainAt(d.domains, p.domainId).value.provider
    && forall i :: 0 <= i < |p.profileIds| ==> p.profileIds[i] in DomainAt(e.domains, p.domainId).value.profileIds
  }

  // ---- lookups in lists with distinct ids -----------------------------------------------------

  lemma PoolAtMember(ps: seq<Pool>, x: Pool)
    requires Sorting.DistinctBy(ps, PoolId)
    ensures x in ps <==> PoolAt(ps, x.id) == Some(x)
  {
    if x in ps {
      var i :| 0 <= i < |ps| && ps[i] == x;
      var k := PoolIndex(ps, x.id);
      assert k <= i;
      assert PoolId(ps[k]) == PoolId(ps[i]);
    }
  }

  lemma DomainAtMember(ds: seq<Domain>, x: Domain)
    requires Sorting.DistinctBy(ds, DomainId)
    ensures x in ds <==> DomainAt(ds, x.id) == Some(x)
  {
    if x in ds {
      var i :| 0 <= i < |ds| && ds[i] == x;
      var k := DomainIndex(ds, x.id);
      assert k <= i;
      assert DomainId(ds[k]) == DomainId(ds[i]);
    }
  }

  lemma ValidIdsDistinct(d: Definitions)
    requires ValidDefinitions(d)
    ensures Sorting.DistinctBy(d.pools, PoolId) && Sorting.DistinctBy(d.domains, DomainId)
  {
  }

  /** An element other than the one changed or removed at its index is still there. */
  lemma OthersStay<T(!new)>(xs: seq<T>, k: nat, y: T, x: T)
    requires k < |xs| && x in xs && x != xs[k]
    ensures x in xs[k := y] && x in xs[..k] + xs[k + 1..]
  {
    var i :| 0 <= i < |xs| && xs[i] == x;
    assert xs[k := y][i] == x;
    assert i < k ==> (xs[..k] + xs[k + 1..])[i] == x;
    assert i > k ==> (xs[..k] + xs[k + 1..])[i - 1] == x;
  }

  // ---- one mutation ---------------------------------------------------------------------------

  /** What a mutation can do to an enabled pool: rename it or disable it. */
  lemma EnabledPoolAfter(d: Definitions, m: Mutation, e: Definitions, id: Id)
    requires ValidDefinitions(d) && ValidDefinitions(e) && IsEnabled(d, id)
    requires Mutate(d, m).Ok? && e.pools == Mutate(d, m).value.definitions.pools
    ensures PoolAt(e.pools, id).Some?
    ensures
      var p, q := PoolAt(d.pools, id).value, PoolAt(e.pools, id).value;
      && (q.alias != p.alias ==> m == RenamePool(id, q.alias))
      && (q.activation != p.activation ==> m == SetPoolActivation(id, false))
      && q == p.(alias := q.alias, activation := q.activation)
  {
    hide ValidDefinitions, AliasOk, PoolMembers, CanonicalMembers, DomainAliasTaken, PoolAliasTaken, DomainProvider;
    ValidIdsDistinct(d);
    ValidIdsDistinct(e);
    var p := PoolAt(d.pools, id).value;
    PoolAtMember(d.pools, p);
    match m {
      case CreatePool(_, _, _, _) =>
        CreatedPools(d, m);
        PoolAtMember(e.pools, p);
      case RenamePool(pid, alias) => ChangedPool(d, e, pid, p);
      case ReplacePoolMembers(pid, _) => ChangedPool(d, e, pid, p);
      case SetPoolActivation(pid, _) => ChangedPool(d, e, pid, p);
      case RemovePool(pid) =>
        var k := PoolIndex(d.pools, pid);
        OthersStay(d.pools, k, p, p);
        PoolAtMember(e.pools, p);
      case _ =>
    }
  }

  lemma CreatedPools(d: Definitions, m: Mutation)
    requires m.CreatePool? && Mutate(d, m).Ok? && Sorting.DistinctBy(d.pools, PoolId)
    ensures forall x :: x in d.pools ==> x in Mutate(d, m).value.definitions.pools
  {
    hide AliasOk, PoolAliasTaken, DomainProvider, DomainAt;
    var added := Pool(m.id, m.alias, m.domainId, Disabled, m.profileIds);
    var all := d.pools + [added];
    assert forall i :: 0 <= i < |d.pools| ==> PoolId(d.pools[i]) != PoolId(added);
    assert Sorting.DistinctBy(all, PoolId);
    Sorting.SortKeepsDistinct(all, ByPoolId, PoolId);
    assert forall x :: x in d.pools ==> x in all;
  }

  /** A pool list changed at one pool's place finds the new pool there and every other pool unchanged. */
  lemma ChangedPool(d: Definitions, e: Definitions, pid: Id, p: Pool)
    requires Sorting.DistinctBy(d.pools, PoolId) && Sorting.DistinctBy(e.pools, PoolId) && p in d.pools
    requires PoolIndex(d.pools, pid) < |d.pools|
    requires
      var k := PoolIndex(d.pools, pid);
      e.pools == d.pools || (|e.pools| == |d.pools| && e.pools == d.pools[k := e.pools[k]] && e.pools[k].id == pid)
    ensures p.id != pid ==> PoolAt(e.pools, p.id) == Some(p)
    ensures p.id == pid ==> p == d.pools[PoolIndex(d.pools, pid)]
    ensures e.pools != d.pools ==> PoolAt(e.pools, pid) == Some(e.pools[PoolIndex(d.pools, pid)])
    ensures e.pools == d.pools ==> PoolAt(e.pools, p.id) == Some(p)
  {
    var k := PoolIndex(d.pools, pid);
    PoolAtMember(d.pools, p);
    PoolAtMember(d.pools, d.pools[k]);
    if e.pools != d.pools {
      PoolAtMember(e.pools, e.pools[k]);
      if p.id != pid {
        OthersStay(d.pools, k, e.pools[k], p);
        PoolAtMember(e.pools, p);
      }
    }
  }

  /** No mutation changes the provider of a domain that is still there afterwards. */
  lemma ProviderStays(d: Definitions, m: Mutation, e: Definitions, id: Id)
    requires ValidDefinitions(d) && ValidDefinitions(e)
    requires Mutate(d, m).Ok? && e.domains == Mutate(d, m).value.definitions.domains
    requires DomainAt(d.domains, id).Some? && DomainAt(e.domains, id).Some?
    ensures DomainAt(e.domains, id).value.provider == DomainAt(d.domains, id).value.provider
  {
    hide ValidDefinitions, AliasOk, PoolMembers, CanonicalMembers, DomainAliasTaken, PoolAliasTaken, DomainProvider;
    ValidIdsDistinct(d);
    ValidIdsDistinct(e);
    var x := DomainAt(d.domains, id).value;
    DomainAtMember(d.domains, x);
    match m {
      case CreateDomain(_, _, _, _) =>
        CreatedDomains(d, m);
        DomainAtMember(e.domains, x);
      case RenameDomain(did, _) => ChangedDomain(d, e, did, x);
      case ReplaceDomainMembers(did, _) => ChangedDomain(d, e, did, x);
      case RemoveDomain(did) =>
        var k := DomainIndex(d.domains, did);
        var y := DomainAt(e.domains, id).value;
        DomainAtMember(e.domains, y);
        assert y in d.domains;
        DomainAtMember(d.domains, y);
      case _ =>
    }
  }

  lemma CreatedDomains(d: Definitions, m: Mutation)
    requires m.CreateDomain? && Mutate(d, m).Ok? && Sorting.DistinctBy(d.domains, DomainId)
    ensures forall x :: x in d.domains ==> x in Mutate(d, m).value.definitions.domains
  {
    hide AliasOk, DomainAliasTaken, CanonicalMembers, PoolAt;
    var members := CanonicalMembers(m.profileIds, MAX_DOMAIN_PROFILE_IDS).value;
    var added := Domain(m.id, m.alias, m.provider, members);
    var all := d.domains + [added];
    assert forall i :: 0 <= i < |d.domains| ==> DomainId(d.domains[i]) != DomainId(added);
    assert Sorting.DistinctBy(all, DomainId);
    Sorting.SortKeepsDistinct(all, ByDomainId, DomainId);
    assert forall x :: x in d.domains ==> x in all;
  }

  lemma ChangedDomain(d: Definitions, e: Definitions, did: Id, x: Domain)
    requires Sorting.DistinctBy(d.domains, DomainId) && Sorting.DistinctBy(e.domains, DomainId) && x in d.domains
    requires DomainIndex(d.domains, did) < |d.domains|
    requires
      var k := DomainIndex(d.domains, did);
      e.domains == d.domains
      || (|e.domains| == |d.domains| && e.domains == d.domains[k := e.domains[k]] && e.domains[k].id == did
          && e.domains[k].provider == d.domains[k].provider)
    ensures DomainAt(e.domains, x.id).Some? && DomainAt(e.domains, x.id).value.provider == x.provider
  {
    var k := DomainIndex(d.domains, did);
    DomainAtMember(d.domains, x);
    DomainAtMember(d.domains, d.domains[k]);
    if e.domains != d.domains {
      DomainAtMember(e.domains, e.domains[k]);
      if x.id != did {
        OthersStay(d.domains, k, e.domains[k], x);
        DomainAtMember(e.domains, x);
      }
    }
  }

  lemma PoolInValid(d: Definitions, id: Id)
    requires ValidDefinitions(d) && PoolAt(d.pools, id).Some?
    ensures PoolOk(d.domains, PoolAt(d.pools, id).value)
  {
  }

  /** One attempt, accepted or refused, keeps an enabled pool's members and domain. */
  lemma AttemptKeepsPool(d: Definitions, expected: nat, m: Mutation, id: Id)
    requires ValidDefinitions(d) && IsEnabled(d, id)
    ensures ValidDefinitions(Apply(d, expected, m).0)
    ensures Kept(d, Apply(d, expected, m).0, id)
  {
    hide ValidDefinitions, Mutate, DomainAt, PoolAt;
    var e := Apply(d, expected, m).0;
    PoolInValid(d, id);
    if Apply(d, expected, m).1.Ok? {
      EnabledPoolAfter(d, m, e, id);
      PoolInValid(e, id);
      ProviderStays(d, m, e, PoolAt(d.pools, id).value.domainId);
    }
  }

  // ---- runs -----------------------------------------------------------------------------------

  lemma KeptIsTransitive(d: Definitions, e: Definitions, f: Definitions, id: Id)
    requires Kept(d, e, id) && Kept(e, f, id)
    ensures Kept(d, f, id)
  {
  }

  lemma KeptAtOnce(d: Definitions, id: Id)
    requires ValidDefinitions(d) && PoolAt(d.pools, id).Some?
    ensures Kept(d, d, id)
  {
    PoolInValid(d, id);
  }

  /** While a pool stays enabled no run of mutations changes its members, their order, its domain or the domain's
      provider, removes the pool or the domain, or drops one of its members from the domain. */
  lemma {:induction false} EnabledPoolIsFixed(d: Definitions, attempts: seq<Attempt>, id: Id)
    requires ValidDefinitions(d) && PoolAt(d.pools, id).Some? && EnabledThroughout(d, attempts, id)
    ensures ValidDefinitions(After(d, attempts)) && Kept(d, After(d, attempts), id)
    decreases |attempts|
  {
    hide ValidDefinitions, Apply, Kept;
    if attempts == [] {
      KeptAtOnce(d, id);
    } else {
      var e := Apply(d, attempts[0].expected, attempts[0].mutation).0;
      AttemptKeepsPool(d, attempts[0].expected, attempts[0].mutation, id);
      KeptHasPool(d, e, id);
      EnabledPoolIsFixed(e, attempts[1..], id);
      KeptIsTransitive(d, e, After(d, attempts), id);
    }
  }

  lemma KeptHasPool(d: Definitions, e: Definitions, id: Id)
    requires Kept(d, e, id)
    ensures PoolAt(e.pools, id).Some?
  {
  }

  /** A snapshot of an enabled pool authorizes handoffs between any two of its members for as long as the pool has
      stayed enabled since. */
  lemma SnapshotStaysAuthorized(d: Definitions, attempts: seq<Attempt>, poolId: Id, source: Id, provider: Provider,
                                a: Id, b: Id)
    requires ValidDefinitions(d) && EnabledThroughout(d, attempts, poolId)
    requires EnabledPoolForSource(d, poolId, source, provider).Ok?
    requires
      var members := EnabledPoolForSource(d, poolId, source, provider).value.profileIds;
      a in members && b in members && a != b
    ensures
      var snapshot := EnabledPoolForSource(d, poolId, source, provider).value;
      AuthorizeHandoff(After(d, attempts), snapshot.domainId, a, b, provider) == Ok(snapshot.domainId)
  {
    hide Apply, After, EnabledThroughout, Found, ValidDefinitions;
    var e := After(d, attempts);
    var pool := PoolAt(d.pools, poolId).value;
    EnabledPoolIsFixed(d, attempts, poolId);
    var domain := DomainAt(e.domains, pool.domainId).value;
    DomainInValid(e, pool.domainId);
    Routing.FoundIsMember(domain.profileIds, a);
    Routing.FoundIsMember(domain.profileIds, b);
  }

  lemma DomainInValid(d: Definitions, id: Id)
    requires ValidDefinitions(d) && DomainAt(d.domains, id).Some?
    ensures DomainAt(d.domains, id).value.id == id && StrictlySorted(DomainAt(d.domains, id).value.profileIds)
  {
  }

  /** A profile takes part in handoffs of one trust domain only. */
  lemma AuthorizationNamesOneDomain(d: Definitions, t: Id, u: Id, a: Id, b: Id, c: Id, p: Provider, q: Provider)
    requires ValidDefinitions(d)
    requires AuthorizeHandoff(d, t, a, b, p).Ok? && AuthorizeHandoff(d, u, a, c, q).Ok?
    ensures t == u && p == q
  {
    var i, j := DomainIndex(d.domains, t), DomainIndex(d.domains, u);
    var x, y := d.domains[i], d.domains[j];
    DomainInValid(d, t);
    DomainInValid(d, u);
    Routing.FoundIsMember(x.profileIds, a);
    Routing.FoundIsMember(y.profileIds, a);
    SharedProfile(d, i, j, a);
  }

  lemma SharedProfile(d: Definitions, i: nat, j: nat, a: Id)
    requires ValidDomains(d.domains) && i < |d.domains| && j < |d.domains|
    requires a in d.domains[i].profileIds && a in d.domains[j].profileIds
    ensures i == j
  {
    assert i < j ==> DomainsApart(d.domains[i], d.domains[j]);
    assert j < i ==> DomainsApart(d.domains[j], d.domains[i]);
  }
}
