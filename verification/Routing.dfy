/** The routing definitions as the program edits and validates them in place. */
module Routing {
  import opened Prelude
  import opened RoutingModel
  import Sorting

  class RoutingDefinitions {
    var schemaVersion: nat
    var revision: nat
    var domains: seq<Domain>
    var pools: seq<Pool>

    ghost function Value(): Definitions
      reads this
    {
      Definitions(schemaVersion, revision, domains, pools)
    }

    constructor (d: Definitions)
      ensures Value() == d
    {
      schemaVersion, revision, domains, pools := d.schemaVersion, d.revision, d.domains, d.pools;
    }

    /** Checks everything on a copy and only then replaces the document. */
    method Apply(expected: nat, m: Mutation) returns (r: Result<Outcome, DefinitionError>)
      modifies this
      ensures (Value(), r) == RoutingModel.Apply(old(Value()), expected, m)
    {
      hide Mutate, ValidDefinitions;
      if revision != expected {
        return Err(RevisionConflict);
      }
      var candidate := new RoutingDefinitions(Definitions(schemaVersion, revision, domains, pools));
      var changed := candidate.ApplyMutation(m);
      if changed.Err? {
        return Err(changed.error);
      }
      if changed.value {
        if candidate.revision + 1 > U64_MAX {
          return Err(RevisionOverflow);
        }
        candidate.revision := candidate.revision + 1;
      }
      var ok := candidate.Validate();
      if !ok {
        return Err(Invalid);
      }
      if changed.value {
        revision, domains, pools := candidate.revision, candidate.domains, candidate.pools;
      }
      return Ok(Outcome(changed.value, revision));
    }

    method ApplyMutation(m: Mutation) returns (r: Result<bool, DefinitionError>)
      modifies `domains, `pools
      ensures match Mutate(old(Value()), m)
              case Ok(Candidate(d, changed)) => r == Ok(changed) && Value() == d && (!changed ==> d == old(Value()))
              case Err(x) => r == Err(x)
    {
      hide AliasOk, CanonicalMembers, PoolMembers, DomainAliasTaken, PoolAliasTaken;
      match m {
        case CreateDomain(id, alias, provider, profileIds) =>
          if !AliasOk(alias) { return Err(InvalidAlias); }
          var members := CanonicalMembers(profileIds, MAX_DOMAIN_PROFILE_IDS);
          if members.Err? { return Err(members.error); }
          if DomainAt(domains, id).Some? || PoolAt(pools, id).Some? || DomainAliasTaken(domains, provider, alias) {
            return Err(AlreadyExists);
          }
          domains := domains + [Domain(id, alias, provider, members.value)];
          domains := Sorting.Sort(domains, ByDomainId);
          return Ok(true);
        case RenameDomain(id, alias) =>
          if !AliasOk(alias) { return Err(InvalidAlias); }
          var k := DomainIndex(domains, id);
          if k == |domains| { return Err(NotFound); }
          if domains[k].alias == alias { return Ok(false); }
          if DomainAliasTaken(domains, domains[k].provider, alias) { return Err(AlreadyExists); }
          domains := domains[k := domains[k].(alias := alias)];
          return Ok(true);
        case ReplaceDomainMembers(id, profileIds) =>
          var members := CanonicalMembers(profileIds, MAX_DOMAIN_PROFILE_IDS);
          if members.Err? { return Err(members.error); }
          var k := DomainIndex(domains, id);
          if k == |domains| { return Err(NotFound); }
          if domains[k].profileIds == members.value { return Ok(false); }
          domains := domains[k := domains[k].(profileIds := members.value)];
          return Ok(true);
        case RemoveDomain(id) =>
          var k := DomainIndex(domains, id);
          if k == |domains| { return Err(NotFound); }
          if exists i :: 0 <= i < |pools| && pools[i].domainId == id { return Err(DomainInUse); }
          domains := domains[..k] + domains[k + 1..];
          return Ok(true);
        case CreatePool(id, alias, domainId, profileIds) =>
          if !AliasOk(alias) { return Err(InvalidAlias); }
          var members := PoolMembers(profileIds);
          if members.Err? { return Err(members.error); }
          var provider := DomainProvider(domains, domainId);
          if provider.None? { return Err(NotFound); }
          if PoolAt(pools, id).Some? || DomainAt(domains, id).Some?
             || PoolAliasTaken(domains, pools, |pools|, provider.value, alias)
          {
            return Err(AlreadyExists);
          }
          pools := pools + [Pool(id, alias, domainId, Disabled, members.value)];
          pools := Sorting.Sort(pools, ByPoolId);
          return Ok(true);
        case RenamePool(id, alias) =>
          if !AliasOk(alias) { return Err(InvalidAlias); }
          var k := PoolIndex(pools, id);
          if k == |pools| { return Err(NotFound); }
          if pools[k].alias == alias { return Ok(false); }
          var provider := DomainProvider(domains, pools[k].domainId);
          if provider.None? { return Err(NotFound); }
          if PoolAliasTaken(domains, pools, k, provider.value, alias) { return Err(AlreadyExists); }
          pools := pools[k := pools[k].(alias := alias)];
          return Ok(true);
        case ReplacePoolMembers(id, profileIds) =>
          var members := PoolMembers(profileIds);
          if members.Err? { return Err(members.error); }
          var k := PoolIndex(pools, id);
          if k == |pools| { return Err(NotFound); }
          if pools[k].activation == Enabled { return Err(PoolEnabled); }
          if pools[k].profileIds == members.value { return Ok(false); }
          pools := pools[k := pools[k].(profileIds := members.value)];
          return Ok(true);
        case SetPoolActivation(id, enabled) =>
          var k := PoolIndex(pools, id);
          if k == |pools| { return Err(NotFound); }
          var activation := if enabled then Enabled else Disabled;
          if pools[k].activation == activation { return Ok(false); }
          pools := pools[k := pools[k].(activation := activation)];
          return Ok(true);
        case RemovePool(id) =>
          var k := PoolIndex(pools, id);
          if k == |pools| { return Err(NotFound); }
          if pools[k].activation == Enabled { return Err(PoolEnabled); }
          pools := pools[..k] + pools[k + 1..];
          return Ok(true);
      }
    }

    /** The validator as the program runs it: one pass over the domains, one over the pools. */
    method Validate() returns (ok: bool)
      ensures ok <==> ValidDefinitions(Value())
    {
      hide ValidDomains, ValidPools, Total;
      if schemaVersion != SCHEMA_VERSION || |domains| > MAX_TRUST_DOMAINS || |pools| > MAX_POOLS {
        return false;
      }
      var domainsOk, ids, domainEdges := ValidateDomains(domains);
      if !domainsOk {
        return false;
      }
      var poolsOk, poolEdges := ValidatePools(domains, pools, ids);
      return poolsOk && domainEdges + poolEdges <= MAX_MEMBERSHIP_EDGES;
    }
  }

  /** Neighbours in increasing order make the whole list so. */
  lemma {:induction false} NeighboursSuffice(xs: seq<Id>)
    ensures StrictlySorted(xs) <==> forall i :: 0 <= i < |xs| - 1 ==> xs[i] < xs[i + 1]
  {
    if |xs| > 1 && forall i :: 0 <= i < |xs| - 1 ==> xs[i] < xs[i + 1] {
      var n := |xs| - 1;
      NeighboursSuffice(xs[..n]);
      assert forall i :: 0 <= i < n ==> xs[..n][i] == xs[i];
      assert xs[n - 1] < xs[n - 1 + 1];
    }
  }

  method InIncreasingOrder(xs: seq<Id>) returns (ok: bool)
    ensures ok <==> StrictlySorted(xs)
  {
    NeighboursSuffice(xs);
    var i := 0;
    while i + 1 < |xs|
      invariant forall j :: 0 <= j < i && j + 1 < |xs| ==> xs[j] < xs[j + 1]
    {
      if xs[i] >= xs[i + 1] { return false; }
      i := i + 1;
    }
    return true;
  }

  /** Whether every id of a member list is new, and the ids seen afterwards. */
  method AssignProfiles(ids: seq<Id>, seen: set<Id>) returns (ok: bool, all: set<Id>)
    requires Distinct(ids)
    ensures ok <==> forall i :: 0 <= i < |ids| ==> ids[i] !in seen
    ensures ok ==> forall x :: x in all <==> x in seen || x in ids
  {
    all := seen;
    for i := 0 to |ids|
      invariant forall j :: 0 <= j < i ==> ids[j] !in seen
      invariant forall x :: x in all <==> x in seen || x in ids[..i]
    {
      if ids[i] in all {
        assert forall j :: 0 <= j < i ==> ids[..i][j] != ids[i];
        return false, all;
      }
      all := all + {ids[i]};
    }
    assert ids[..|ids|] == ids;
    return true, all;
  }

  ghost predicate AssignedBy(taken: set<Id>, ds: seq<Domain>) {
    forall x :: x in taken <==> exists i :: 0 <= i < |ds| && x in ds[i].profileIds
  }

  ghost predicate IdsOf(ids: set<Id>, ds: seq<Domain>) {
    forall x :: x in ids <==> exists i :: 0 <= i < |ds| && ds[i].id == x
  }

  lemma ValidDomainsStep(ds: seq<Domain>, x: Domain)
    ensures ValidDomains(ds + [x]) <==>
              && ValidDomains(ds) && DomainOk(x)
              && forall i :: 0 <= i < |ds| ==> ds[i].id < x.id && DomainsApart(ds[i], x)
  {
    hide DomainOk, DomainsApart;
    var all := ds + [x];
    assert forall i :: 0 <= i < |ds| ==> all[i] == ds[i];
    assert all[|ds|] == x;
  }

  /** A prefix that is not valid makes the whole list invalid. */
  lemma ValidDomainsPrefix(ds: seq<Domain>, k: nat)
    requires k <= |ds| && ValidDomains(ds)
    ensures ValidDomains(ds[..k])
  {
  }

  method ValidateDomains(ds: seq<Domain>) returns (ok: bool, ids: set<Id>, edges: nat)
    ensures ok <==> ValidDomains(ds)
    ensures ok ==> IdsOf(ids, ds) && edges == Total(ds, DomainSize)
  {
    hide ValidDomains, DomainOk;
    ids, edges := {}, 0;
    var taken: set<Id> := {};
    EmptyDomains();
    assert ds[..0] == [];
    for i := 0 to |ds|
      invariant ValidDomains(ds[..i])
      invariant IdsOf(ids, ds[..i]) && AssignedBy(taken, ds[..i]) && edges == Total(ds[..i], DomainSize)
    {
      var x := ds[i];
      assert ds[..i + 1] == ds[..i] + [x];
      assert ds[..i + 1][..i] == ds[..i];
      ValidDomainsStep(ds[..i], x);
      assert ValidDomains(ds) ==> ValidDomains(ds[..i + 1]) by {
        if ValidDomains(ds) { ValidDomainsPrefix(ds, i + 1); }
      }
      var fits := DomainFits(ds[..i], x);
      if !fits {
        return false, ids, edges;
      }
      SortedIsDistinct(x);
      var free, all := AssignProfiles(x.profileIds, taken);
      ProfilesApart(ds[..i], x, taken);
      if !free {
        return false, ids, edges;
      }
      AssignedStep(ds[..i], x, taken, all);
      ids, taken, edges := ids + {x.id}, all, edges + |x.profileIds|;
    }
    assert ds[..|ds|] == ds;
    ok := true;
  }

  lemma EmptyDomains()
    ensures ValidDomains([])
  {
  }

  lemma SortedIsDistinct(x: Domain)
    requires DomainOk(x)
    ensures Distinct(x.profileIds)
  {
  }

  /** The checks on one domain that do not concern its profiles' other domains. */
  method DomainFits(before: seq<Domain>, x: Domain) returns (ok: bool)
    ensures ok <==> DomainOk(x) && AliasApart(before, x) && forall i :: 0 <= i < |before| ==> before[i].id < x.id
  {
    var sorted := InIncreasingOrder(x.profileIds);
    if !AliasOk(x.alias) || |x.profileIds| > MAX_DOMAIN_PROFILE_IDS || !sorted {
      return false;
    }
    for i := 0 to |before|
      invariant AliasApart(before[..i], x) && forall j :: 0 <= j < i ==> before[j].id < x.id
    {
      if before[i].id >= x.id || (before[i].provider == x.provider && before[i].alias == x.alias) {
        return false;
      }
    }
    assert before[..|before|] == before;
    return true;
  }

  ghost predicate AliasApart(before: seq<Domain>, x: Domain) {
    forall i :: 0 <= i < |before| ==> before[i].provider == x.provider ==> before[i].alias != x.alias
  }

  lemma ProfilesApart(before: seq<Domain>, x: Domain, taken: set<Id>)
    requires AssignedBy(taken, before) && AliasApart(before, x)
    ensures (forall i :: 0 <= i < |x.profileIds| ==> x.profileIds[i] !in taken)
       <==> (forall i :: 0 <= i < |before| ==> DomainsApart(before[i], x))
  {
  }

  lemma AssignedStep(before: seq<Domain>, x: Domain, taken: set<Id>, all: set<Id>)
    requires AssignedBy(taken, before) && forall y :: y in all <==> y in taken || y in x.profileIds
    ensures AssignedBy(all, before + [x])
  {
    var ds := before + [x];
    forall y
      ensures y in all <==> exists i :: 0 <= i < |ds| && y in ds[i].profileIds
    {
      if y in taken {
        var i :| 0 <= i < |before| && y in before[i].profileIds;
        assert y in ds[i].profileIds;
      }
      assert ds[|before|] == x;
    }
  }

  // ---- pools ----------------------------------------------------------------------------------

  lemma ValidPoolsStep(ds: seq<Domain>, ps: seq<Pool>, x: Pool)
    ensures ValidPools(ds, ps + [x]) <==>
              && ValidPools(ds, ps) && PoolOk(ds, x) && DomainAt(ds, x.id).None?
              && forall i :: 0 <= i < |ps| ==> ps[i].id < x.id && PoolsApart(ds, ps[i], x)
  {
    hide PoolOk, PoolsApart, DomainAt;
    var all := ps + [x];
    assert forall i :: 0 <= i < |ps| ==> all[i] == ps[i];
    assert all[|ps|] == x;
  }

  lemma ValidPoolsPrefix(ds: seq<Domain>, ps: seq<Pool>, k: nat)
    requires k <= |ps| && ValidPools(ds, ps)
    ensures ValidPools(ds, ps[..k])
  {
    hide PoolOk, PoolsApart, DomainAt;
  }

  lemma NoPools(ds: seq<Domain>)
    ensures ValidPools(ds, [])
  {
  }

  lemma IdsAreDomains(ids: set<Id>, ds: seq<Domain>, id: Id)
    requires IdsOf(ids, ds)
    ensures id in ids <==> DomainAt(ds, id).Some?
  {
    var k := DomainIndex(ds, id);
    assert k < |ds| ==> ds[k].id == id;
  }

  method ValidatePools(ds: seq<Domain>, ps: seq<Pool>, ids: set<Id>) returns (ok: bool, edges: nat)
    requires ValidDomains(ds) && IdsOf(ids, ds)
    ensures ok <==> ValidPools(ds, ps)
    ensures ok ==> edges == Total(ps, PoolSize)
  {
    hide ValidPools, PoolOk, DomainAt, PoolsApart, IdsOf, ValidDomains;
    edges := 0;
    NoPools(ds);
    assert ps[..0] == [];
    for i := 0 to |ps|
      invariant ValidPools(ds, ps[..i]) && edges == Total(ps[..i], PoolSize)
    {
      var x := ps[i];
      assert ps[..i + 1] == ps[..i] + [x];
      assert ps[..i + 1][..i] == ps[..i];
      ValidPoolsStep(ds, ps[..i], x);
      assert ValidPools(ds, ps) ==> ValidPools(ds, ps[..i + 1]) by {
        if ValidPools(ds, ps) { ValidPoolsPrefix(ds, ps, i + 1); }
      }
      IdsAreDomains(ids, ds, x.id);
      if x.id in ids {
        return false, edges;
      }
      var good := PoolIsOk(ds, x);
      if !good {
        return false, edges;
      }
      var apart := PoolFits(ds, ps[..i], x);
      if !apart {
        return false, edges;
      }
      edges := edges + |x.profileIds|;
    }
    assert ps[..|ps|] == ps;
    ok := true;
  }

  /** Binary search finds exactly the members of a sorted list. */
  lemma {:induction false} FoundIsMember(xs: seq<Id>, x: Id)
    requires StrictlySorted(xs)
    ensures Found(xs, x) <==> x in xs
  {
    if xs != [] {
      var mid := |xs| / 2;
      var low, high := xs[..mid], xs[mid + 1..];
      FoundIsMember(low, x);
      FoundIsMember(high, x);
      assert xs == low + [xs[mid]] + high;
      assert forall i :: 0 <= i < |low| ==> low[i] < xs[mid];
      assert forall i :: 0 <= i < |high| ==> high[i] > xs[mid];
    }
  }

  method PoolIsOk(ds: seq<Domain>, p: Pool) returns (ok: bool)
    requires ValidDomains(ds)
    ensures ok <==> PoolOk(ds, p)
  {
    if !AliasOk(p.alias) || |p.profileIds| > MAX_POOL_PROFILE_IDS || |p.profileIds| < 2
        || DomainAt(ds, p.domainId).None? {
      return false;
    }
    var members := DomainAt(ds, p.domainId).value.profileIds;
    assert StrictlySorted(members);
    hide ValidDomains, DomainAt;
    var seen: set<Id> := {};
    for i := 0 to |p.profileIds|
      invariant forall j :: 0 <= j < i ==> p.profileIds[j] in members
      invariant forall j, k :: 0 <= j < k < i ==> p.profileIds[j] != p.profileIds[k]
      invariant forall x :: x in seen <==> exists j :: 0 <= j < i && p.profileIds[j] == x
    {
      FoundIsMember(members, p.profileIds[i]);
      if p.profileIds[i] in seen || !Found(members, p.profileIds[i]) {
        return false;
      }
      seen := seen + {p.profileIds[i]};
    }
    return true;
  }

  method PoolFits(ds: seq<Domain>, before: seq<Pool>, x: Pool) returns (ok: bool)
    ensures ok <==> forall i :: 0 <= i < |before| ==> before[i].id < x.id && PoolsApart(ds, before[i], x)
  {
    hide DomainProvider;
    for i := 0 to |before|
      invariant forall j :: 0 <= j < i ==> before[j].id < x.id && PoolsApart(ds, before[j], x)
    {
      if before[i].id >= x.id || !PoolsApart(ds, before[i], x) {
        return false;
      }
    }
    return true;
  }
}
