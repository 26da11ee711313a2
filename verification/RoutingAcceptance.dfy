/** Which changed definitions the validator takes: an exact condition on the request for each of the nine mutations. */
module RoutingAcceptance {
  import opened Prelude
  import opened RoutingModel
  import opened RoutingRuns
  import Sorting

  // ---- totals ---------------------------------------------------------------------------------

  lemma {:induction false} TotalOfSum<T>(xs: seq<T>, ys: seq<T>, size: T -> nat)
    ensures Total(xs + ys, size) == Total(xs, size) + Total(ys, size)
  {
    if ys == [] {
      assert xs + ys == xs;
    } else {
      var n := |ys| - 1;
      assert (xs + ys)[..|xs| + n] == xs + ys[..n];
      TotalOfSum(xs, ys[..n], size);
    }
  }

  lemma TotalOfOne<T>(x: T, size: T -> nat)
    ensures Total([x], size) == size(x)
  {
    assert [x][..0] == [];
  }

  lemma TotalAround<T>(xs: seq<T>, k: nat, y: T, size: T -> nat)
    requires k < |xs|
    ensures Total(xs[k := y], size) == Total(xs, size) - size(xs[k]) + size(y)
    ensures Total(xs[..k] + xs[k + 1..], size) == Total(xs, size) - size(xs[k])
  {
    var left, right := xs[..k], xs[k + 1..];
    assert xs == left + ([xs[k]] + right) && xs[k := y] == left + ([y] + right);
    TotalOfSum(left, [xs[k]] + right, size);
    TotalOfSum(left, [y] + right, size);
    TotalOfSum([xs[k]], right, size);
    TotalOfSum([y], right, size);
    TotalOfSum(left, right, size);
    TotalOfOne(xs[k], size);
    TotalOfOne(y, size);
  }

  lemma {:induction false} TotalOfInsert<T>(x: T, xs: seq<T>, le: (T, T) -> bool, size: T -> nat)
    ensures Total(Sorting.Insert(x, xs, le), size) == Total(xs, size) + size(x)
  {
    if xs == [] {
      TotalOfOne(x, size);
    } else if le(xs[|xs| - 1], x) {
      TotalOfSum(xs, [x], size);
      TotalOfOne(x, size);
    } else {
      var front, last := xs[..|xs| - 1], xs[|xs| - 1];
      TotalOfInsert(x, front, le, size);
      TotalOfSum(Sorting.Insert(x, front, le), [last], size);
      TotalOfOne(last, size);
    }
  }

  lemma {:induction false} TotalOfSort<T>(xs: seq<T>, le: (T, T) -> bool, size: T -> nat)
    ensures Total(Sorting.Sort(xs, le), size) == Total(xs, size)
  {
    if xs != [] {
      TotalOfSort(xs[..|xs| - 1], le, size);
      TotalOfInsert(xs[|xs| - 1], Sorting.Sort(xs[..|xs| - 1], le), le, size);
    }
  }

  // ---- the invariant by members ---------------------------------------------------------------

  lemma ApartIsSymmetric(x: Domain, y: Domain)
    ensures DomainsApart(x, y) <==> DomainsApart(y, x)
  {
  }

  /** The domain part of the invariant, said of members instead of positions. */
  lemma DomainsByMembers(ds: seq<Domain>)
    ensures ValidDomains(ds) <==>
              && DomainIdsSorted(ds) && (forall x :: x in ds ==> DomainOk(x))
              && (forall x, y :: x in ds && y in ds && x.id != y.id ==> DomainsApart(x, y))
  {
    hide DomainOk, DomainsApart;
    if ValidDomains(ds) {
      forall x, y | x in ds && y in ds && x.id != y.id ensures DomainsApart(x, y) {
        var i :| 0 <= i < |ds| && ds[i] == x;
        var j :| 0 <= j < |ds| && ds[j] == y;
        ApartIsSymmetric(x, y);
        assert i < j ==> DomainsApart(ds[i], ds[j]);
        assert j < i ==> DomainsApart(ds[j], ds[i]);
      }
    }
  }

  lemma PoolsByMembers(ds: seq<Domain>, ps: seq<Pool>)
    ensures ValidPools(ds, ps) <==>
              && PoolIdsSorted(ps) && (forall p :: p in ps ==> PoolOk(ds, p) && DomainAt(ds, p.id).None?)
              && (forall p, q :: p in ps && q in ps && p.id != q.id ==> PoolsApart(ds, p, q))
  {
    hide PoolOk, DomainAt, DomainProvider;
    if ValidPools(ds, ps) {
      forall p, q | p in ps && q in ps && p.id != q.id ensures PoolsApart(ds, p, q) {
        var i :| 0 <= i < |ps| && ps[i] == p;
        var j :| 0 <= j < |ps| && ps[j] == q;
        assert i < j ==> PoolsApart(ds, ps[i], ps[j]);
        assert j < i ==> PoolsApart(ds, ps[j], ps[i]);
      }
    }
  }

  // ---- lists after one change -----------------------------------------------------------------

  /** Changing one element at its place, under the same id. */
  lemma DomainReplaced(ds: seq<Domain>, k: nat, x: Domain)
    requires DomainIdsSorted(ds) && k < |ds| && x.id == ds[k].id
    ensures DomainIdsSorted(ds[k := x])
    ensures forall y :: y in ds[k := x] <==> y == x || (y in ds && y.id != x.id)
    ensures forall id :: DomainAt(ds[k := x], id) == if id == x.id then Some(x) else DomainAt(ds, id)
  {
    var es := ds[k := x];
    assert Sorting.DistinctBy(ds, DomainId) && Sorting.DistinctBy(es, DomainId);
    assert es[k] == x;
    forall y | y in ds && y.id != x.id ensures y in es { OthersStay(ds, k, x, y); }
    forall y | y in es && y != x ensures y in ds && y.id != x.id { OthersStay(es, k, ds[k], y); }
    forall id ensures DomainAt(es, id) == if id == x.id then Some(x) else DomainAt(ds, id) {
      DomainAtMember(es, x);
      if id != x.id { SameLookup(ds, es, id); }
    }
  }

  /** Two lists that agree on one id find the same domain under it. */
  lemma SameLookup(ds: seq<Domain>, es: seq<Domain>, id: Id)
    requires Sorting.DistinctBy(ds, DomainId) && Sorting.DistinctBy(es, DomainId)
    requires forall y :: y in ds && y.id == id <==> y in es && y.id == id
    ensures DomainAt(ds, id) == DomainAt(es, id)
  {
    if DomainAt(ds, id).Some? { DomainAtMember(es, DomainAt(ds, id).value); }
    if DomainAt(es, id).Some? { DomainAtMember(ds, DomainAt(es, id).value); }
  }

  lemma DomainRemoved(ds: seq<Domain>, k: nat)
    requires DomainIdsSorted(ds) && k < |ds|
    ensures DomainIdsSorted(ds[..k] + ds[k + 1..])
    ensures forall y :: y in ds[..k] + ds[k + 1..] <==> y in ds && y.id != ds[k].id
    ensures forall id :: id != ds[k].id ==> DomainAt(ds[..k] + ds[k + 1..], id) == DomainAt(ds, id)
    ensures DomainAt(ds[..k] + ds[k + 1..], ds[k].id).None?
  {
    var es := ds[..k] + ds[k + 1..];
    assert forall i :: 0 <= i < |es| ==> es[i] == ds[if i < k then i else i + 1];
    assert Sorting.DistinctBy(ds, DomainId) && Sorting.DistinctBy(es, DomainId);
    forall y | y in ds && y.id != ds[k].id ensures y in es { OthersStay(ds, k, y, y); }
    forall id | id != ds[k].id ensures DomainAt(es, id) == DomainAt(ds, id) { SameLookup(ds, es, id); }
  }

  lemma DomainAdded(ds: seq<Domain>, x: Domain)
    requires DomainIdsSorted(ds) && DomainAt(ds, x.id).None?
    ensures
      var es := Sorting.Sort(ds + [x], ByDomainId);
      && DomainIdsSorted(es) && |es| == |ds| + 1
      && (forall y :: y in es <==> y in ds || y == x)
      && (forall id :: DomainAt(es, id) == if id == x.id then Some(x) else DomainAt(ds, id))
  {
    var all := ds + [x];
    var es := Sorting.Sort(all, ByDomainId);
    assert forall i :: 0 <= i < |ds| ==> ds[i].id != x.id;
    assert Sorting.DistinctBy(all, DomainId) && Sorting.DistinctBy(ds, DomainId);
    Sorting.SortKeepsDistinct(all, ByDomainId, DomainId);
    Sorting.SortIsPermutation(all, ByDomainId);
    forall i, j | 0 <= i < j < |es| ensures es[i].id < es[j].id {
      assert ByDomainId(es[i], es[j]) && DomainId(es[i]) != DomainId(es[j]);
    }
    assert all[|ds|] == x;
    forall id ensures DomainAt(es, id) == if id == x.id then Some(x) else DomainAt(ds, id) {
      DomainAtMember(es, x);
      if id != x.id { SameLookup(ds, es, id); }
    }
  }

  lemma PoolReplaced(ps: seq<Pool>, k: nat, p: Pool)
    requires PoolIdsSorted(ps) && k < |ps| && p.id == ps[k].id
    ensures PoolIdsSorted(ps[k := p])
    ensures forall q :: q in ps[k := p] <==> q == p || (q in ps && q.id != p.id)
  {
    var qs := ps[k := p];
    assert qs[k] == p;
    forall q | q in ps && q.id != p.id ensures q in qs { OthersStay(ps, k, p, q); }
    forall q | q in qs && q != p ensures q in ps && q.id != p.id { OthersStay(qs, k, ps[k], q); }
  }

  lemma PoolRemoved(ps: seq<Pool>, k: nat)
    requires PoolIdsSorted(ps) && k < |ps|
    ensures PoolIdsSorted(ps[..k] + ps[k + 1..])
    ensures forall q :: q in ps[..k] + ps[k + 1..] <==> q in ps && q.id != ps[k].id
  {
    var qs := ps[..k] + ps[k + 1..];
    assert forall i :: 0 <= i < |qs| ==> qs[i] == ps[if i < k then i else i + 1];
    forall q | q in ps && q.id != ps[k].id ensures q in qs { OthersStay(ps, k, q, q); }
  }

  lemma PoolAdded(ps: seq<Pool>, p: Pool)
    requires PoolIdsSorted(ps) && PoolAt(ps, p.id).None?
    ensures
      var qs := Sorting.Sort(ps + [p], ByPoolId);
      PoolIdsSorted(qs) && |qs| == |ps| + 1 && forall q :: q in qs <==> q in ps || q == p
  {
    var all := ps + [p];
    var qs := Sorting.Sort(all, ByPoolId);
    assert forall i :: 0 <= i < |ps| ==> ps[i].id != p.id;
    assert Sorting.DistinctBy(all, PoolId);
    Sorting.SortKeepsDistinct(all, ByPoolId, PoolId);
    Sorting.SortIsPermutation(all, ByPoolId);
    forall i, j | 0 <= i < j < |qs| ensures qs[i].id < qs[j].id {
      assert ByPoolId(qs[i], qs[j]) && PoolId(qs[i]) != PoolId(qs[j]);
    }
    assert all[|ps|] == p;
  }

  // ---- the invariant after one change ---------------------------------------------------------

  predicate Contains(members: seq<Id>, ids: seq<Id>) {
    forall i :: 0 <= i < |ids| ==> ids[i] in members
  }

  predicate ApartFromOthers(ds: seq<Domain>, x: Domain) {
    forall i :: 0 <= i < |ds| && ds[i].id != x.id ==> DomainsApart(x, ds[i])
  }

  predicate PoolApartFromOthers(ds: seq<Domain>, ps: seq<Pool>, p: Pool) {
    forall i :: 0 <= i < |ps| && ps[i].id != p.id ==> PoolsApart(ds, p, ps[i])
  }

  /** Every pool of the domain keeps its members. */
  predicate PoolsStayInside(ps: seq<Pool>, x: Domain) {
    forall i :: 0 <= i < |ps| && ps[i].domainId == x.id ==> Contains(x.profileIds, ps[i].profileIds)
  }

  lemma ReplacedDomain(ds: seq<Domain>, k: nat, x: Domain)
    requires ValidDomains(ds) && k < |ds| && x.id == ds[k].id
    ensures ValidDomains(ds[k := x]) <==> DomainOk(x) && ApartFromOthers(ds, x)
  {
    hide DomainOk, DomainsApart, ValidDomains;
    var es := ds[k := x];
    DomainsByMembers(ds);
    DomainsByMembers(es);
    DomainReplaced(ds, k, x);
    assert x in es;
    forall y, z | y in es && z in es && y.id != z.id && DomainOk(x) && ApartFromOthers(ds, x)
      ensures DomainsApart(y, z)
    {
      ApartIsSymmetric(y, z);
    }
    assert forall i :: 0 <= i < |ds| && ds[i].id != x.id ==> ds[i] in es;
  }

  lemma PoolAfterDomain(ds: seq<Domain>, es: seq<Domain>, ps: seq<Pool>, x: Domain, p: Pool)
    requires PoolOk(ds, p) && DomainAt(ds, p.id).None?
    requires forall id :: DomainAt(es, id) == if id == x.id then Some(x) else DomainAt(ds, id)
    requires p.id != x.id
    ensures DomainAt(es, p.id).None?
    ensures PoolOk(es, p) <==> p.domainId != x.id || Contains(x.profileIds, p.profileIds)
    ensures (p.domainId == x.id ==> DomainProvider(ds, p.domainId) == Some(x.provider)) ==>
              DomainProvider(es, p.domainId) == DomainProvider(ds, p.domainId)
  {
    hide AliasOk, Distinct;
  }

  lemma PoolsAfterReplacedDomain(ds: seq<Domain>, ps: seq<Pool>, k: nat, x: Domain)
    requires ValidDomains(ds) && ValidPools(ds, ps) && k < |ds|
    requires x.id == ds[k].id && x.provider == ds[k].provider
    ensures ValidPools(ds[k := x], ps) <==> PoolsStayInside(ps, x)
  {
    hide DomainOk, DomainsApart, PoolOk, AliasOk;
    var es := ds[k := x];
    DomainReplaced(ds, k, x);
    DomainFound(ds, k);
    forall i | 0 <= i < |ps|
      ensures DomainAt(es, ps[i].id).None?
      ensures PoolOk(es, ps[i]) <==> ps[i].domainId != x.id || Contains(x.profileIds, ps[i].profileIds)
      ensures DomainProvider(es, ps[i].domainId) == DomainProvider(ds, ps[i].domainId)
    {
      PoolAfterDomain(ds, es, ps, x, ps[i]);
    }
  }

  lemma DomainFound(ds: seq<Domain>, k: nat)
    requires DomainIdsSorted(ds) && k < |ds|
    ensures DomainAt(ds, ds[k].id) == Some(ds[k])
  {
    assert Sorting.DistinctBy(ds, DomainId);
    DomainAtMember(ds, ds[k]);
  }

  lemma AddedDomain(ds: seq<Domain>, ps: seq<Pool>, x: Domain)
    requires ValidDomains(ds) && ValidPools(ds, ps) && DomainAt(ds, x.id).None? && PoolAt(ps, x.id).None?
    ensures
      var es := Sorting.Sort(ds + [x], ByDomainId);
      (ValidDomains(es) <==> DomainOk(x) && ApartFromOthers(ds, x)) && ValidPools(es, ps)
  {
    hide DomainOk, DomainsApart, ValidDomains, PoolOk, AliasOk, Sorting.Sort;
    var es := Sorting.Sort(ds + [x], ByDomainId);
    DomainsByMembers(ds);
    DomainsByMembers(es);
    DomainAdded(ds, x);
    forall y, z | y in es && z in es && y.id != z.id && DomainOk(x) && ApartFromOthers(ds, x)
      ensures DomainsApart(y, z)
    {
      ApartIsSymmetric(y, z);
    }
    NewIdIsApart(ds, x, es);
    forall i | 0 <= i < |ps|
      ensures DomainAt(es, ps[i].id).None? && PoolOk(es, ps[i])
      ensures DomainProvider(es, ps[i].domainId) == DomainProvider(ds, ps[i].domainId)
    {
      PoolIdDiffers(ps, i, x.id);
      PoolDomainExists(ds, ps[i]);
      PoolAfterDomain(ds, es, ps, x, ps[i]);
    }
  }

  lemma NewIdIsApart(ds: seq<Domain>, x: Domain, es: seq<Domain>)
    requires DomainAt(ds, x.id).None? && forall y :: y in es <==> y in ds || y == x
    ensures forall i :: 0 <= i < |ds| ==> ds[i].id != x.id && ds[i] in es
    ensures x in es
  {
    assert forall i :: 0 <= i < |ds| ==> ds[i] in ds;
  }

  lemma PoolIdDiffers(ps: seq<Pool>, i: nat, id: Id)
    requires PoolAt(ps, id).None? && i < |ps|
    ensures ps[i].id != id
  {
  }

  lemma PoolDomainExists(ds: seq<Domain>, p: Pool)
    requires PoolOk(ds, p)
    ensures DomainAt(ds, p.domainId).Some?
  {
  }

  lemma RemovedDomain(ds: seq<Domain>, ps: seq<Pool>, k: nat)
    requires ValidDomains(ds) && ValidPools(ds, ps) && k < |ds|
    requires forall i :: 0 <= i < |ps| ==> ps[i].domainId != ds[k].id
    ensures ValidDomains(ds[..k] + ds[k + 1..]) && ValidPools(ds[..k] + ds[k + 1..], ps)
  {
    hide DomainOk, DomainsApart, ValidDomains, AliasOk, Distinct;
    var es := ds[..k] + ds[k + 1..];
    DomainsByMembers(ds);
    DomainsByMembers(es);
    DomainRemoved(ds, k);
    forall i | 0 <= i < |ps|
      ensures DomainAt(es, ps[i].id).None? && PoolOk(es, ps[i])
      ensures DomainProvider(es, ps[i].domainId) == DomainProvider(ds, ps[i].domainId)
    {
      assert PoolOk(ds, ps[i]) && DomainAt(es, ps[i].domainId) == DomainAt(ds, ps[i].domainId);
    }
  }

  lemma ReplacedPool(ds: seq<Domain>, ps: seq<Pool>, k: nat, p: Pool)
    requires ValidPools(ds, ps) && k < |ps| && p.id == ps[k].id
    ensures ValidPools(ds, ps[k := p]) <==> PoolOk(ds, p) && PoolApartFromOthers(ds, ps, p)
  {
    hide PoolOk, DomainAt, DomainProvider, ValidPools;
    var qs := ps[k := p];
    PoolsByMembers(ds, ps);
    PoolsByMembers(ds, qs);
    PoolReplaced(ps, k, p);
    assert p in qs && ps[k] in ps;
    assert forall i :: 0 <= i < |ps| && ps[i].id != p.id ==> ps[i] in qs;
  }

  lemma AddedPool(ds: seq<Domain>, ps: seq<Pool>, p: Pool)
    requires ValidPools(ds, ps) && PoolAt(ps, p.id).None? && DomainAt(ds, p.id).None?
    ensures ValidPools(ds, Sorting.Sort(ps + [p], ByPoolId)) <==> PoolOk(ds, p) && PoolApartFromOthers(ds, ps, p)
  {
    hide PoolOk, DomainAt, DomainProvider, ValidPools, Sorting.Sort;
    var qs := Sorting.Sort(ps + [p], ByPoolId);
    PoolsByMembers(ds, ps);
    PoolsByMembers(ds, qs);
    PoolAdded(ps, p);
    assert p in qs;
    forall i | 0 <= i < |ps| ensures ps[i].id != p.id && ps[i] in qs { PoolIdDiffers(ps, i, p.id); }
  }

  lemma RemovedPool(ds: seq<Domain>, ps: seq<Pool>, k: nat)
    requires ValidPools(ds, ps) && k < |ps|
    ensures ValidPools(ds, ps[..k] + ps[k + 1..])
  {
    hide PoolOk, DomainAt, DomainProvider, ValidPools;
    PoolsByMembers(ds, ps);
    PoolsByMembers(ds, ps[..k] + ps[k + 1..]);
    PoolRemoved(ps, k);
  }

  // ---- what a request must satisfy ------------------------------------------------------------

  function Edges(d: Definitions): nat {
    Total(d.domains, DomainSize) + Total(d.pools, PoolSize)
  }

  /** None of these profiles belongs to a domain other than this one. */
  predicate FreeFor(ds: seq<Domain>, id: Id, ids: seq<Id>) {
    forall i :: 0 <= i < |ds| && ds[i].id != id ==> forall j :: 0 <= j < |ids| ==> ids[j] !in ds[i].profileIds
  }

  /** The conditions on a request that only the whole-document validator enforces. */
  predicate Admissible(d: Definitions, m: Mutation) {
    match m
    case CreateDomain(id, _, _, ids) =>
      |d.domains| < MAX_TRUST_DOMAINS && FreeFor(d.domains, id, ids) && Edges(d) + |ids| <= MAX_MEMBERSHIP_EDGES
    case ReplaceDomainMembers(id, ids) =>
      var x := DomainAt(d.domains, id);
      x.Some? && FreeFor(d.domains, id, ids)
      && (forall i :: 0 <= i < |d.pools| && d.pools[i].domainId == id ==> Contains(ids, d.pools[i].profileIds))
      && Edges(d) - |x.value.profileIds| + |ids| <= MAX_MEMBERSHIP_EDGES
    case CreatePool(_, _, domainId, ids) =>
      var x := DomainAt(d.domains, domainId);
      x.Some? && |d.pools| < MAX_POOLS && Contains(x.value.profileIds, ids) && Edges(d) + |ids| <= MAX_MEMBERSHIP_EDGES
    case ReplacePoolMembers(id, ids) =>
      var p := PoolAt(d.pools, id);
      p.Some? && DomainAt(d.domains, p.value.domainId).Some?
      && Contains(DomainAt(d.domains, p.value.domainId).value.profileIds, ids)
      && Edges(d) - |p.value.profileIds| + |ids| <= MAX_MEMBERSHIP_EDGES
    case _ => true
  }

  lemma CanonicalKeepsMembers(ids: seq<Id>, maximum: nat)
    requires CanonicalMembers(ids, maximum).Ok?
    ensures
      var members := CanonicalMembers(ids, maximum).value;
      |members| == |ids| <= maximum && StrictlySorted(members) && forall x :: x in members <==> x in ids
  {
    Sorting.SortIsPermutation(ids, ById);
    var members := CanonicalMembers(ids, maximum).value;
    assert forall x :: x in members <==> x in multiset(members);
    assert forall x :: x in ids <==> x in multiset(ids);
  }

  /** For a domain with these members and a free alias, standing apart is the profiles being free. */
  lemma ApartIsFree(ds: seq<Domain>, x: Domain, ids: seq<Id>)
    requires forall y :: y in x.profileIds <==> y in ids
    requires forall i :: 0 <= i < |ds| && ds[i].id != x.id && ds[i].provider == x.provider ==> ds[i].alias != x.alias
    ensures ApartFromOthers(ds, x) <==> FreeFor(ds, x.id, ids)
  {
    forall i | 0 <= i < |ds| && ds[i].id != x.id
      ensures DomainsApart(x, ds[i]) <==> forall j :: 0 <= j < |ids| ==> ids[j] !in ds[i].profileIds
    {
      var ys := ds[i].profileIds;
      assert (forall j :: 0 <= j < |ids| ==> ids[j] !in ys) <==> (forall y :: y in ids ==> y !in ys);
      assert (forall j :: 0 <= j < |ys| ==> ys[j] !in x.profileIds) <==> (forall y :: y in ys ==> y !in x.profileIds);
    }
  }

  lemma ContainsSame(a: seq<Id>, b: seq<Id>, ids: seq<Id>)
    requires forall y :: y in a <==> y in b
    ensures Contains(a, ids) <==> Contains(b, ids)
  {
  }

  lemma CreateDomainAdmitted(d: Definitions, m: Mutation)
    requires ValidDefinitions(d) && m.CreateDomain? && Mutate(d, m).Ok?
    ensures ValidDefinitions(Mutate(d, m).value.definitions) <==> Admissible(d, m)
  {
    hide AliasOk, CanonicalMembers, ValidDomains, ValidPools, Total, Sorting.Sort;
    CanonicalKeepsMembers(m.profileIds, MAX_DOMAIN_PROFILE_IDS);
    var x := Domain(m.id, m.alias, m.provider, CanonicalMembers(m.profileIds, MAX_DOMAIN_PROFILE_IDS).value);
    AddedDomain(d.domains, d.pools, x);
    ApartIsFree(d.domains, x, m.profileIds);
    TotalOfSort(d.domains + [x], ByDomainId, DomainSize);
    TotalOfSum(d.domains, [x], DomainSize);
    TotalOfOne(x, DomainSize);
  }

  lemma RenameDomainAdmitted(d: Definitions, m: Mutation)
    requires ValidDefinitions(d) && m.RenameDomain? && Mutate(d, m).Ok? && Mutate(d, m).value.changed
    ensures ValidDefinitions(Mutate(d, m).value.definitions)
  {
    hide AliasOk, ValidPools, Total;
    var k := DomainIndex(d.domains, m.id);
    var x := d.domains[k].(alias := m.alias);
    DomainHolds(d.domains, k);
    hide ValidDomains;
    ReplacedDomain(d.domains, k, x);
    PoolsAfterReplacedDomain(d.domains, d.pools, k, x);
    PoolsAreInside(d.domains, d.pools, k);
    TotalAround(d.domains, k, x, DomainSize);
  }

  lemma DomainHolds(ds: seq<Domain>, k: nat)
    requires ValidDomains(ds) && k < |ds|
    ensures DomainOk(ds[k]) && ApartFromOthers(ds, ds[k])
  {
    hide DomainOk, DomainsApart, ValidDomains;
    DomainsByMembers(ds);
    assert ds[k] in ds && forall i :: 0 <= i < |ds| ==> ds[i] in ds;
  }

  lemma PoolsAreInside(ds: seq<Domain>, ps: seq<Pool>, k: nat)
    requires ValidDomains(ds) && ValidPools(ds, ps) && k < |ds|
    ensures PoolsStayInside(ps, ds[k])
  {
    DomainFound(ds, k);
    assert forall i :: 0 <= i < |ps| ==> PoolOk(ds, ps[i]);
  }

  lemma ReplaceDomainAdmitted(d: Definitions, m: Mutation)
    requires ValidDefinitions(d) && m.ReplaceDomainMembers? && Mutate(d, m).Ok? && Mutate(d, m).value.changed
    ensures ValidDefinitions(Mutate(d, m).value.definitions) <==> Admissible(d, m)
  {
    hide AliasOk, CanonicalMembers, ValidPools, Total;
    CanonicalKeepsMembers(m.profileIds, MAX_DOMAIN_PROFILE_IDS);
    var members := CanonicalMembers(m.profileIds, MAX_DOMAIN_PROFILE_IDS).value;
    var k := DomainIndex(d.domains, m.id);
    var x := d.domains[k].(profileIds := members);
    DomainHolds(d.domains, k);
    hide ValidDomains;
    ReplacedDomain(d.domains, k, x);
    ApartIsFree(d.domains, x, m.profileIds);
    PoolsAfterReplacedDomain(d.domains, d.pools, k, x);
    forall i | 0 <= i < |d.pools|
      ensures Contains(members, d.pools[i].profileIds) <==> Contains(m.profileIds, d.pools[i].profileIds)
    {
      ContainsSame(members, m.profileIds, d.pools[i].profileIds);
    }
    TotalAround(d.domains, k, x, DomainSize);
  }

  lemma RemoveDomainAdmitted(d: Definitions, m: Mutation)
    requires ValidDefinitions(d) && m.RemoveDomain? && Mutate(d, m).Ok?
    ensures ValidDefinitions(Mutate(d, m).value.definitions)
  {
    hide ValidDomains, ValidPools, Total;
    var k := DomainIndex(d.domains, m.id);
    RemovedDomain(d.domains, d.pools, k);
    TotalAround(d.domains, k, d.domains[k], DomainSize);
  }

  lemma CreatePoolAdmitted(d: Definitions, m: Mutation)
    requires ValidDefinitions(d) && m.CreatePool? && Mutate(d, m).Ok?
    ensures ValidDefinitions(Mutate(d, m).value.definitions) <==> Admissible(d, m)
  {
    hide AliasOk, Distinct, ValidDomains, ValidPools, Total, Sorting.Sort;
    var p := Pool(m.id, m.alias, m.domainId, Disabled, m.profileIds);
    AddedPool(d.domains, d.pools, p);
    TotalOfSort(d.pools + [p], ByPoolId, PoolSize);
    TotalOfSum(d.pools, [p], PoolSize);
    TotalOfOne(p, PoolSize);
    assert PoolApartFromOthers(d.domains, d.pools, p);
  }

  lemma PoolHolds(ds: seq<Domain>, ps: seq<Pool>, k: nat)
    requires ValidPools(ds, ps) && k < |ps|
    ensures PoolOk(ds, ps[k]) && PoolApartFromOthers(ds, ps, ps[k])
  {
    hide PoolOk, DomainAt, DomainProvider, ValidPools;
    PoolsByMembers(ds, ps);
    assert ps[k] in ps && forall i :: 0 <= i < |ps| ==> ps[i] in ps;
  }

  lemma ChangePoolAdmitted(d: Definitions, m: Mutation)
    requires ValidDefinitions(d) && (m.RenamePool? || m.SetPoolActivation?) && Mutate(d, m).Ok?
             && Mutate(d, m).value.changed
    ensures ValidDefinitions(Mutate(d, m).value.definitions)
  {
    hide AliasOk, Distinct, ValidDomains, ValidPools, Total, DomainAt;
    var k := PoolIndex(d.pools, m.id);
    var p := Mutate(d, m).value.definitions.pools[k];
    PoolHolds(d.domains, d.pools, k);
    ReplacedPool(d.domains, d.pools, k, p);
    TotalAround(d.pools, k, p, PoolSize);
    OtherIndices(d.pools, k);
    assert PoolApartFromOthers(d.domains, d.pools, p);
  }

  lemma OtherIndices(ps: seq<Pool>, k: nat)
    requires k < |ps|
    ensures forall i :: 0 <= i < |ps| && ps[i].id != ps[k].id ==> i != k
  {
  }

  lemma ReplacePoolAdmitted(d: Definitions, m: Mutation)
    requires ValidDefinitions(d) && m.ReplacePoolMembers? && Mutate(d, m).Ok? && Mutate(d, m).value.changed
    ensures ValidDefinitions(Mutate(d, m).value.definitions) <==> Admissible(d, m)
  {
    hide AliasOk, Distinct, ValidDomains, ValidPools, Total;
    var k := PoolIndex(d.pools, m.id);
    var p := d.pools[k].(profileIds := m.profileIds);
    PoolHolds(d.domains, d.pools, k);
    ReplacedPool(d.domains, d.pools, k, p);
    TotalAround(d.pools, k, p, PoolSize);
    assert PoolApartFromOthers(d.domains, d.pools, p);
  }

  lemma RemovePoolAdmitted(d: Definitions, m: Mutation)
    requires ValidDefinitions(d) && m.RemovePool? && Mutate(d, m).Ok?
    ensures ValidDefinitions(Mutate(d, m).value.definitions)
  {
    hide ValidDomains, ValidPools, Total;
    var k := PoolIndex(d.pools, m.id);
    RemovedPool(d.domains, d.pools, k);
    TotalAround(d.pools, k, d.pools[k], PoolSize);
  }

  /** The validator takes a changed document exactly when the request is admissible; it never refuses a rename, an
      activation change or a removal. */
  lemma ValidatorTakesExactly(d: Definitions, m: Mutation)
    requires ValidDefinitions(d) && Mutate(d, m).Ok? && Mutate(d, m).value.changed
    ensures ValidDefinitions(Mutate(d, m).value.definitions) <==> Admissible(d, m)
  {
    hide ValidDefinitions, Mutate;
    match m
    case CreateDomain(_, _, _, _) => CreateDomainAdmitted(d, m);
    case RenameDomain(_, _) => RenameDomainAdmitted(d, m);
    case ReplaceDomainMembers(_, _) => ReplaceDomainAdmitted(d, m);
    case RemoveDomain(_) => RemoveDomainAdmitted(d, m);
    case CreatePool(_, _, _, _) => CreatePoolAdmitted(d, m);
    case RenamePool(_, _) => ChangePoolAdmitted(d, m);
    case ReplacePoolMembers(_, _) => ReplacePoolAdmitted(d, m);
    case SetPoolActivation(_, _) => ChangePoolAdmitted(d, m);
    case RemovePool(_) => RemovePoolAdmitted(d, m);
  }

  lemma RevisionIsNotValidated(d: Definitions, revision: nat)
    ensures ValidDefinitions(d.(revision := revision)) <==> ValidDefinitions(d)
  {
  }

  lemma UnchangedIsSame(d: Definitions, m: Mutation)
    requires Mutate(d, m).Ok? && !Mutate(d, m).value.changed
    ensures Mutate(d, m).value.definitions == d
  {
  }

  /** Exactly the attempts that are accepted. */
  lemma AppliedExactly(d: Definitions, expected: nat, m: Mutation)
    requires ValidDefinitions(d)
    ensures Apply(d, expected, m).1.Ok? <==>
              && d.revision == expected && Mutate(d, m).Ok?
              && (Mutate(d, m).value.changed ==> d.revision < U64_MAX && Admissible(d, m))
  {
    hide ValidDefinitions, Mutate, Admissible;
    if Mutate(d, m).Ok? {
      RevisionIsNotValidated(Mutate(d, m).value.definitions, d.revision + 1);
      if Mutate(d, m).value.changed { ValidatorTakesExactly(d, m); } else { UnchangedIsSame(d, m); }
    }
  }
}
