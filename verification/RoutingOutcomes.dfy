/** What each accepted mutation makes of trust domains and pools, told by lookups, and what a request must say. */
module RoutingOutcomes {
  import opened Prelude
  import opened RoutingModel
  import opened RoutingRuns
  import opened RoutingAcceptance
  import Routing
  import Sorting

  // ---- one list after one change --------------------------------------------------------------

  lemma PoolLookup(ps: seq<Pool>, qs: seq<Pool>, id: Id, found: Option<Pool>)
    requires Sorting.DistinctBy(ps, PoolId) && Sorting.DistinctBy(qs, PoolId)
    requires found.Some? ==> found.value.id == id
    requires forall q :: q in qs <==> (q in ps && q.id != id) || found == Some(q)
    ensures forall i :: PoolAt(qs, i) == if i == id then found else PoolAt(ps, i)
  {
    forall i ensures PoolAt(qs, i) == if i == id then found else PoolAt(ps, i) {
      if PoolAt(qs, i).Some? {
        var q := PoolAt(qs, i).value;
        PoolAtMember(qs, q);
        if i != id { PoolAtMember(ps, q); }
      }
      if i == id && found.Some? { PoolAtMember(qs, found.value); }
      if i != id && PoolAt(ps, i).Some? {
        PoolAtMember(ps, PoolAt(ps, i).value);
        PoolAtMember(qs, PoolAt(ps, i).value);
      }
    }
  }

  lemma SortedPoolsDistinct(ps: seq<Pool>)
    requires PoolIdsSorted(ps)
    ensures Sorting.DistinctBy(ps, PoolId)
  {
  }

  /** Under this id the pool is found as given, and every other pool as before; no domain changed. */
  ghost predicate PoolBecomes(d: Definitions, e: Definitions, id: Id, found: Option<Pool>) {
    e.domains == d.domains && forall i :: PoolAt(e.pools, i) == if i == id then found else PoolAt(d.pools, i)
  }

  ghost predicate DomainBecomes(d: Definitions, e: Definitions, id: Id, found: Option<Domain>) {
    e.pools == d.pools && forall i :: DomainAt(e.domains, i) == if i == id then found else DomainAt(d.domains, i)
  }

  lemma ReplacedPoolFound(d: Definitions, e: Definitions, k: nat, p: Pool)
    requires PoolIdsSorted(d.pools) && k < |d.pools| && p.id == d.pools[k].id
    requires e.domains == d.domains && e.pools == d.pools[k := p]
    ensures PoolBecomes(d, e, p.id, Some(p)) && PoolAt(d.pools, p.id) == Some(d.pools[k])
  {
    PoolReplaced(d.pools, k, p);
    SortedPoolsDistinct(d.pools);
    SortedPoolsDistinct(e.pools);
    PoolLookup(d.pools, e.pools, p.id, Some(p));
    PoolAtMember(d.pools, d.pools[k]);
  }

  lemma RemovedPoolFound(d: Definitions, e: Definitions, k: nat)
    requires PoolIdsSorted(d.pools) && k < |d.pools|
    requires e.domains == d.domains && e.pools == d.pools[..k] + d.pools[k + 1..]
    ensures PoolBecomes(d, e, d.pools[k].id, None) && e.pools != d.pools
  {
    PoolRemoved(d.pools, k);
    SortedPoolsDistinct(d.pools);
    SortedPoolsDistinct(e.pools);
    PoolLookup(d.pools, e.pools, d.pools[k].id, None);
    assert |e.pools| != |d.pools|;
  }

  lemma AddedPoolFound(d: Definitions, e: Definitions, p: Pool)
    requires PoolIdsSorted(d.pools) && PoolAt(d.pools, p.id).None?
    requires e.domains == d.domains && e.pools == Sorting.Sort(d.pools + [p], ByPoolId)
    ensures PoolBecomes(d, e, p.id, Some(p)) && e.pools != d.pools
  {
    PoolAdded(d.pools, p);
    SortedPoolsDistinct(d.pools);
    SortedPoolsDistinct(e.pools);
    PoolLookup(d.pools, e.pools, p.id, Some(p));
    assert |e.pools| != |d.pools|;
  }

  lemma ValidIdsSorted(d: Definitions)
    requires ValidDefinitions(d)
    ensures PoolIdsSorted(d.pools) && DomainIdsSorted(d.domains)
  {
  }

  // ---- what a request must say ----------------------------------------------------------------

  /** The conditions on a request that are checked before the document is validated as a whole. */
  predicate Requested(d: Definitions, m: Mutation) {
    match m
    case CreateDomain(id, alias, provider, ids) =>
      && AliasOk(alias) && |ids| <= MAX_DOMAIN_PROFILE_IDS && Distinct(ids)
      && DomainAt(d.domains, id).None? && PoolAt(d.pools, id).None?
      && !DomainAliasTaken(d.domains, provider, alias)
    case RenameDomain(id, alias) =>
      var x := DomainAt(d.domains, id);
      AliasOk(alias) && x.Some? && (alias == x.value.alias || !DomainAliasTaken(d.domains, x.value.provider, alias))
    case ReplaceDomainMembers(id, ids) =>
      |ids| <= MAX_DOMAIN_PROFILE_IDS && Distinct(ids) && DomainAt(d.domains, id).Some?
    case RemoveDomain(id) =>
      DomainAt(d.domains, id).Some? && forall i :: 0 <= i < |d.pools| ==> d.pools[i].domainId != id
    case CreatePool(id, alias, domainId, ids) =>
      && AliasOk(alias) && 2 <= |ids| <= MAX_POOL_PROFILE_IDS && Distinct(ids)
      && DomainAt(d.domains, domainId).Some? && DomainAt(d.domains, id).None? && PoolAt(d.pools, id).None?
      && !PoolAliasUsed(d, id, DomainAt(d.domains, domainId).value.provider, alias)
    case RenamePool(id, alias) =>
      var p := PoolAt(d.pools, id);
      AliasOk(alias) && p.Some?
      && (alias == p.value.alias
          || (DomainAt(d.domains, p.value.domainId).Some?
              && !PoolAliasUsed(d, id, DomainAt(d.domains, p.value.domainId).value.provider, alias)))
    case ReplacePoolMembers(id, ids) =>
      && 2 <= |ids| <= MAX_POOL_PROFILE_IDS && Distinct(ids)
      && PoolAt(d.pools, id).Some? && PoolAt(d.pools, id).value.activation == Disabled
    case SetPoolActivation(id, _) => PoolAt(d.pools, id).Some?
    case RemovePool(id) => PoolAt(d.pools, id).Some? && PoolAt(d.pools, id).value.activation == Disabled
  }

  /** A pool of another id has this alias under this provider. */
  predicate PoolAliasUsed(d: Definitions, id: Id, provider: Provider, alias: string) {
    exists i :: 0 <= i < |d.pools| && d.pools[i].id != id && d.pools[i].alias == alias
                && DomainProvider(d.domains, d.pools[i].domainId) == Some(provider)
  }

  lemma CanonicalExactly(ids: seq<Id>, maximum: nat)
    ensures CanonicalMembers(ids, maximum).Ok? <==> |ids| <= maximum && Distinct(ids)
  {
    var sorted := Sorting.Sort(ids, ById);
    var key := (x: Id) => x;
    assert Sorting.TotalPreorder(ById);
    Sorting.SortIsPermutation(ids, ById);
    if Distinct(ids) {
      Sorting.SortKeepsDistinct(ids, ById, key);
      forall i, j | 0 <= i < j < |sorted| ensures sorted[i] < sorted[j] {
        assert key(sorted[i]) != key(sorted[j]) && ById(sorted[i], sorted[j]);
      }
    } else if StrictlySorted(sorted) {
      var i, j :| 0 <= i < j < |ids| && ids[i] == ids[j];
      CountsTwice(ids, i, j);
      CountsOnce(sorted, ids[i]);
    }
  }

  lemma CountsTwice(ids: seq<Id>, i: nat, j: nat)
    requires i < j < |ids| && ids[i] == ids[j]
    ensures multiset(ids)[ids[i]] >= 2
  {
    assert ids == ids[..j] + ids[j..];
    assert ids[..j][i] == ids[i] && ids[j..][0] == ids[i];
    assert ids[i] in multiset(ids[..j]) && ids[i] in multiset(ids[j..]);
  }

  lemma CountsOnce(xs: seq<Id>, x: Id)
    requires StrictlySorted(xs)
    ensures multiset(xs)[x] <= 1
  {
    if x in xs {
      var m :| 0 <= m < |xs| && xs[m] == x;
      assert xs == xs[..m] + [xs[m]] + xs[m + 1..];
      assert x !in xs[..m] && x !in xs[m + 1..];
    }
  }

  lemma OtherPoolAlias(d: Definitions, k: nat, id: Id, provider: Provider, alias: string)
    requires PoolIdsSorted(d.pools)
    requires if k < |d.pools| then d.pools[k].id == id else PoolAt(d.pools, id).None?
    ensures PoolAliasTaken(d.domains, d.pools, k, provider, alias) <==> PoolAliasUsed(d, id, provider, alias)
  {
    hide DomainProvider;
    assert forall i :: 0 <= i < |d.pools| ==> (i != k <==> d.pools[i].id != id);
  }

  /** The checks before the whole-document validator pass exactly for the requests above. */
  lemma MutatesExactly(d: Definitions, m: Mutation)
    requires ValidDefinitions(d)
    ensures Mutate(d, m).Ok? <==> Requested(d, m)
  {
    hide ValidDefinitions, AliasOk, CanonicalMembers, Distinct, DomainAliasTaken, PoolAliasTaken, PoolAliasUsed,
         Sorting.Sort;
    ValidIdsSorted(d);
    match m
    case CreateDomain(id, alias, provider, ids) => CanonicalExactly(ids, MAX_DOMAIN_PROFILE_IDS);
    case ReplaceDomainMembers(id, ids) => CanonicalExactly(ids, MAX_DOMAIN_PROFILE_IDS);
    case CreatePool(id, alias, domainId, ids) =>
      if DomainAt(d.domains, domainId).Some? && PoolAt(d.pools, id).None? {
        OtherPoolAlias(d, |d.pools|, id, DomainAt(d.domains, domainId).value.provider, alias);
      }
    case RenamePool(id, alias) =>
      if PoolAt(d.pools, id).Some? && DomainAt(d.domains, PoolAt(d.pools, id).value.domainId).Some? {
        OtherPoolAlias(d, PoolIndex(d.pools, id), id,
            DomainAt(d.domains, PoolAt(d.pools, id).value.domainId).value.provider,
                       alias);
      }
    case _ =>
  }

  // ---- what an accepted mutation leaves -------------------------------------------------------

  /** What the mutation leaves: the pool or domain it names as asked, and everything else as before. */
  ghost predicate Leaves(d: Definitions, m: Mutation, e: Definitions) {
    match m
    case CreateDomain(id, alias, provider, ids) =>
      && DomainAt(e.domains, id).Some? && DomainBecomes(d, e, id, DomainAt(e.domains, id))
      && var x := DomainAt(e.domains, id).value;
         x.alias == alias && x.provider == provider && forall u :: u in x.profileIds <==> u in ids
    case RenameDomain(id, alias) =>
      && DomainAt(d.domains, id).Some?
      && DomainBecomes(d, e, id, Some(DomainAt(d.domains, id).value.(alias := alias)))
    case ReplaceDomainMembers(id, ids) =>
      && DomainAt(d.domains, id).Some? && DomainAt(e.domains, id).Some?
         && DomainBecomes(d, e, id, DomainAt(e.domains, id))
      && var x, y := DomainAt(d.domains, id).value, DomainAt(e.domains, id).value;
         y == x.(profileIds := y.profileIds) && forall u :: u in y.profileIds <==> u in ids
    case RemoveDomain(id) => DomainAt(d.domains, id).Some? && DomainBecomes(d, e, id, None)
    case CreatePool(id, alias, domainId, ids) => PoolBecomes(d, e, id, Some(Pool(id, alias, domainId, Disabled, ids)))
    case RenamePool(id, alias) =>
      PoolAt(d.pools, id).Some? && PoolBecomes(d, e, id, Some(PoolAt(d.pools, id).value.(alias := alias)))
    case ReplacePoolMembers(id, ids) =>
      PoolAt(d.pools, id).Some? && PoolBecomes(d, e, id, Some(PoolAt(d.pools, id).value.(profileIds := ids)))
    case SetPoolActivation(id, enabled) =>
      PoolAt(d.pools, id).Some?
      && PoolBecomes(d, e, id, Some(PoolAt(d.pools, id).value.(activation := if enabled then Enabled else Disabled)))
    case RemovePool(id) => PoolAt(d.pools, id).Some? && PoolBecomes(d, e, id, None)
  }

  lemma PoolMutationLeaves(d: Definitions, m: Mutation)
    requires ValidDefinitions(d) && Mutate(d, m).Ok?
    requires m.CreatePool? || m.RenamePool? || m.ReplacePoolMembers? || m.SetPoolActivation? || m.RemovePool?
    ensures Leaves(d, m, Mutate(d, m).value.definitions)
    ensures Mutate(d, m).value.changed <==> Mutate(d, m).value.definitions.pools != d.pools
  {
    hide ValidDefinitions, AliasOk, DomainProvider, PoolAliasTaken, Sorting.Sort;
    ValidIdsSorted(d);
    var e := Mutate(d, m).value.definitions;
    if m.CreatePool? {
      AddedPoolFound(d, e, Pool(m.id, m.alias, m.domainId, Disabled, m.profileIds));
    } else {
      var k := PoolIndex(d.pools, m.id);
      if m.RemovePool? {
        RemovedPoolFound(d, e, k);
      } else {
        assert e.pools == d.pools ==> d.pools == d.pools[k := d.pools[k]];
        assert e.pools == d.pools[k := e.pools[k]];
        ReplacedPoolFound(d, e, k, e.pools[k]);
      }
    }
  }

  lemma CreateDomainLeaves(d: Definitions, m: Mutation)
    requires ValidDefinitions(d) && m.CreateDomain? && Mutate(d, m).Ok?
    ensures Leaves(d, m, Mutate(d, m).value.definitions)
    ensures Mutate(d, m).value.changed && Mutate(d, m).value.definitions.domains != d.domains
  {
    hide ValidDefinitions, AliasOk, DomainAliasTaken, Sorting.Sort, CanonicalMembers, DomainAt, PoolAt;
    ValidIdsSorted(d);
    CanonicalKeepsMembers(m.profileIds, MAX_DOMAIN_PROFILE_IDS);
    var members := CanonicalMembers(m.profileIds, MAX_DOMAIN_PROFILE_IDS).value;
    DomainAdded(d.domains, Domain(m.id, m.alias, m.provider, members));
    assert |Mutate(d, m).value.definitions.domains| != |d.domains|;
  }

  lemma RemoveDomainLeaves(d: Definitions, m: Mutation)
    requires ValidDefinitions(d) && m.RemoveDomain? && Mutate(d, m).Ok?
    ensures Leaves(d, m, Mutate(d, m).value.definitions)
    ensures Mutate(d, m).value.changed && Mutate(d, m).value.definitions.domains != d.domains
  {
    hide ValidDefinitions;
    ValidIdsSorted(d);
    DomainRemoved(d.domains, DomainIndex(d.domains, m.id));
    assert |Mutate(d, m).value.definitions.domains| != |d.domains|;
  }

  lemma ChangeDomainLeaves(d: Definitions, m: Mutation)
    requires ValidDefinitions(d) && (m.RenameDomain? || m.ReplaceDomainMembers?) && Mutate(d, m).Ok?
    ensures Leaves(d, m, Mutate(d, m).value.definitions)
    ensures Mutate(d, m).value.changed <==> Mutate(d, m).value.definitions.domains != d.domains
  {
    hide ValidDefinitions, AliasOk, DomainAliasTaken, CanonicalMembers;
    ValidIdsSorted(d);
    var k, e := DomainIndex(d.domains, m.id), Mutate(d, m).value.definitions;
    if m.ReplaceDomainMembers? { CanonicalKeepsMembers(m.profileIds, MAX_DOMAIN_PROFILE_IDS); }
    assert d.domains == d.domains[k := d.domains[k]];
    assert e.domains == d.domains[k := e.domains[k]];
    assert e.domains[k] == d.domains[k] <==> !Mutate(d, m).value.changed;
    DomainReplaced(d.domains, k, e.domains[k]);
  }

  /** An accepted mutation leaves what it was asked for. It reports a change exactly when it made one, and then counts
      one revision. */
  lemma AppliedOutcome(d: Definitions, expected: nat, m: Mutation)
    requires ValidDefinitions(d) && Apply(d, expected, m).1.Ok?
    ensures
      var (e, r) := Apply(d, expected, m);
      && Leaves(d, m, e) && (r.value.changed <==> e.domains != d.domains || e.pools != d.pools)
      && r.value.revision == e.revision == d.revision + if r.value.changed then 1 else 0
  {
    hide ValidDefinitions, Mutate, Leaves;
    var c := Mutate(d, m).value.definitions;
    match m {
      case CreateDomain(_, _, _, _) => CreateDomainLeaves(d, m);
      case RenameDomain(_, _) => ChangeDomainLeaves(d, m);
      case ReplaceDomainMembers(_, _) => ChangeDomainLeaves(d, m);
      case RemoveDomain(_) => RemoveDomainLeaves(d, m);
      case _ => PoolMutationLeaves(d, m);
    }
    OneSideOnly(d, m);
    LeavesIgnoresRevision(d, m, c, Apply(d, expected, m).0);
  }

  /** A mutation of pools leaves the domains, and the other way round; none touches the revision. */
  lemma OneSideOnly(d: Definitions, m: Mutation)
    requires Mutate(d, m).Ok?
    ensures
      var c := Mutate(d, m).value.definitions;
      && c.revision == d.revision
      && if m.CreateDomain? || m.RenameDomain? || m.ReplaceDomainMembers? || m.RemoveDomain? then c.pools == d.pools
         else c.domains == d.domains
  {
    hide AliasOk, DomainProvider, PoolAliasTaken, DomainAliasTaken, Sorting.Sort, CanonicalMembers, PoolMembers;
  }

  lemma LeavesIgnoresRevision(d: Definitions, m: Mutation, c: Definitions, e: Definitions)
    requires e.domains == c.domains && e.pools == c.pools && Leaves(d, m, c)
    ensures Leaves(d, m, e)
  {
  }

  // ---- exactly the accepted attempts ----------------------------------------------------------

  lemma {:induction false} SortedIsUnique(a: seq<Id>, b: seq<Id>)
    requires StrictlySorted(a) && StrictlySorted(b) && forall x :: x in a <==> x in b
    ensures a == b
  {
    if b != [] { assert b[|b| - 1] in a; }
    if a != [] {
      assert a[|a| - 1] in b && b != [];
      var x := a[|a| - 1];
      assert x == b[|b| - 1];
      var m, n := a[..|a| - 1], b[..|b| - 1];
      forall y ensures y in m <==> y in n {
        assert y in m <==> y in a && y != x;
        assert y in n <==> y in b && y != x;
      }
      SortedIsUnique(m, n);
      assert a == m + [x] && b == n + [x];
    }
  }

  /** A request that holds already changes nothing, and every other accepted request changes something. */
  lemma ChangesExactly(d: Definitions, m: Mutation)
    requires ValidDefinitions(d) && Mutate(d, m).Ok?
    ensures Mutate(d, m).value.changed <==> !Leaves(d, m, d)
  {
    hide ValidDefinitions, AliasOk, DomainAliasTaken, PoolAliasTaken, DomainProvider, Sorting.Sort, CanonicalMembers;
    match m
    case ReplaceDomainMembers(id, ids) =>
      CanonicalKeepsMembers(ids, MAX_DOMAIN_PROFILE_IDS);
      DomainInValid(d, id);
      if Leaves(d, m, d) {
        SortedIsUnique(DomainAt(d.domains, id).value.profileIds, CanonicalMembers(ids, MAX_DOMAIN_PROFILE_IDS).value);
      }
    case _ =>
  }

  /** An attempt is accepted exactly when it names the current revision, its request is in order, and, unless it holds
      already, it is admissible and a revision is left. */
  lemma AcceptedExactly(d: Definitions, expected: nat, m: Mutation)
    requires ValidDefinitions(d)
    ensures Apply(d, expected, m).1.Ok? <==>
              && d.revision == expected && Requested(d, m)
              && (Leaves(d, m, d) || (d.revision < U64_MAX && Admissible(d, m)))
  {
    hide ValidDefinitions, Mutate, Admissible, Requested, Leaves, Apply;
    AppliedExactly(d, expected, m);
    MutatesExactly(d, m);
    if Mutate(d, m).Ok? { ChangesExactly(d, m); }
  }

  // ---- what is asked of the definitions -------------------------------------------------------

  /** A snapshot is given exactly of an enabled pool of the provider that has the source; it lists the pool's members in
      order, under the pool's and the domain's own names. */
  lemma SnapshotExactly(d: Definitions, poolId: Id, source: Id, provider: Provider)
    requires ValidDefinitions(d)
    ensures
      var r, p := EnabledPoolForSource(d, poolId, source, provider), PoolAt(d.pools, poolId);
      && (r.Ok? <==>
            p.Some? && p.value.activation == Enabled && DomainProvider(d.domains, p.value.domainId) == Some(provider)
            && source in p.value.profileIds)
      && (r.Ok? ==>
            && DomainAt(d.domains, p.value.domainId).Some?
            && r.value == EnabledPool(poolId, p.value.alias, p.value.domainId,
                                      DomainAt(d.domains, p.value.domainId).value.alias, provider, p.value.profileIds))
      && (p.None? ==> r == Err(NotFound)) && (p.Some? && p.value.activation != Enabled ==> r == Err(PoolDisabled))
  {
    hide ValidDefinitions;
  }

  /** A handoff is authorized exactly between two different members of an existing domain of the provider. */
  lemma AuthorizedExactly(d: Definitions, domainId: Id, source: Id, target: Id, provider: Provider)
    requires ValidDefinitions(d)
    ensures
      var r, x := AuthorizeHandoff(d, domainId, source, target, provider), DomainAt(d.domains, domainId);
      && (r.Ok? <==> x.Some? && x.value.provider == provider && source != target
                     && source in x.value.profileIds && target in x.value.profileIds)
      && (r.Ok? ==> r.value == domainId) && (x.None? ==> r == Err(NotFound))
      && (x.Some? && r.Err? ==> r == Err(InvalidMembership))
  {
    hide ValidDefinitions, Found;
    if DomainAt(d.domains, domainId).Some? {
      DomainInValid(d, domainId);
      Routing.FoundIsMember(DomainAt(d.domains, domainId).value.profileIds, source);
      Routing.FoundIsMember(DomainAt(d.domains, domainId).value.profileIds, target);
    }
  }

  /** An enabled pool hands out a snapshot from the moment it is enabled. */
  lemma EnablingEnables(d: Definitions, expected: nat, id: Id, source: Id)
    requires ValidDefinitions(d) && Apply(d, expected, SetPoolActivation(id, true)).1.Ok?
    requires PoolAt(d.pools, id).Some? && source in PoolAt(d.pools, id).value.profileIds
    ensures
      var e, p := Apply(d, expected, SetPoolActivation(id, true)).0, PoolAt(d.pools, id).value;
      && DomainAt(d.domains, p.domainId).Some?
      && var r := EnabledPoolForSource(e, id, source, DomainAt(d.domains, p.domainId).value.provider);
         r.Ok? && r.value.profileIds == p.profileIds
  {
    hide ValidDefinitions, Apply;
    AppliedOutcome(d, expected, SetPoolActivation(id, true));
    PoolInValid(d, id);
  }
}
