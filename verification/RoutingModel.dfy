/** Trust domains and pools: the definitions, their invariant and every mutation of them. */
module RoutingModel {
  import opened Prelude
  import Sorting

  type Id = nat

  const SCHEMA_VERSION := 1
  const MAX_TRUST_DOMAINS := 128
  const MAX_POOLS := 256
  const MAX_DOMAIN_PROFILE_IDS := 64
  const MAX_POOL_PROFILE_IDS := 32
  const MAX_MEMBERSHIP_EDGES := 4_096
  const MAX_ALIAS_BYTES := 64

  datatype Activation = Disabled | Enabled

  datatype Domain = Domain(id: Id, alias: string, provider: Provider, profileIds: seq<Id>)
  datatype Pool = Pool(id: Id, alias: string, domainId: Id, activation: Activation, profileIds: seq<Id>)
  datatype Definitions = Definitions(schemaVersion: nat, revision: nat, domains: seq<Domain>, pools: seq<Pool>)

  datatype DefinitionError =
    | Invalid | InvalidAlias | InvalidMembership | AlreadyExists | NotFound | DomainInUse
    | PoolDisabled | PoolEnabled | LimitExceeded | RevisionConflict | RevisionOverflow

  datatype Mutation =
    | CreateDomain(id: Id, alias: string, provider: Provider, profileIds: seq<Id>)
    | RenameDomain(id: Id, alias: string)
    | ReplaceDomainMembers(id: Id, profileIds: seq<Id>)
    | RemoveDomain(id: Id)
    | CreatePool(id: Id, alias: string, domainId: Id, profileIds: seq<Id>)
    | RenamePool(id: Id, alias: string)
    | ReplacePoolMembers(id: Id, profileIds: seq<Id>)
    | SetPoolActivation(id: Id, enabled: bool)
    | RemovePool(id: Id)

  // ---- lookups --------------------------------------------------------------------------------

  function DomainIndex(ds: seq<Domain>, id: Id): (k: nat)
    ensures k <= |ds| && (k < |ds| ==> ds[k].id == id)
    ensures forall i :: 0 <= i < k ==> ds[i].id != id
  {
    if ds == [] then 0 else if ds[0].id == id then 0 else 1 + DomainIndex(ds[1..], id)
  }

  function PoolIndex(ps: seq<Pool>, id: Id): (k: nat)
    ensures k <= |ps| && (k < |ps| ==> ps[k].id == id)
    ensures forall i :: 0 <= i < k ==> ps[i].id != id
  {
    if ps == [] then 0 else if ps[0].id == id then 0 else 1 + PoolIndex(ps[1..], id)
  }

  function DomainAt(ds: seq<Domain>, id: Id): Option<Domain> {
    var k := DomainIndex(ds, id);
    if k < |ds| then Some(ds[k]) else None
  }

  function PoolAt(ps: seq<Pool>, id: Id): Option<Pool> {
    var k := PoolIndex(ps, id);
    if k < |ps| then Some(ps[k]) else None
  }

  function DomainProvider(ds: seq<Domain>, id: Id): Option<Provider> {
    match DomainAt(ds, id)
    case None => None
    case Some(domain) => Some(domain.provider)
  }

  predicate DomainAliasTaken(ds: seq<Domain>, provider: Provider, alias: string) {
    exists i :: 0 <= i < |ds| && ds[i].provider == provider && ds[i].alias == alias
  }

  /** Some pool other than the one at `except` has this alias under this provider. */
  predicate PoolAliasTaken(ds: seq<Domain>, ps: seq<Pool>, except: nat, provider: Provider, alias: string) {
    exists i :: 0 <= i < |ps| && i != except && ps[i].alias == alias
        && DomainProvider(ds, ps[i].domainId) == Some(provider)
  }

  // ---- input checks ---------------------------------------------------------------------------

  predicate Alphanumeric(c: char) {
    '0' <= c <= '9' || 'A' <= c <= 'Z' || 'a' <= c <= 'z'
  }

  predicate AliasOk(s: string) {
    && 0 < |s| <= MAX_ALIAS_BYTES && Alphanumeric(s[0])
    && forall i :: 0 <= i < |s| ==> Alphanumeric(s[i]) || s[i] == '.' || s[i] == '_' || s[i] == '-'
  }

  predicate StrictlySorted(xs: seq<Id>) {
    forall i, j :: 0 <= i < j < |xs| ==> xs[i] < xs[j]
  }

  predicate Distinct(xs: seq<Id>) {
    forall i, j :: 0 <= i < j < |xs| ==> xs[i] != xs[j]
  }

  const ById := (a: Id, b: Id) => a <= b

  function CanonicalMembers(ids: seq<Id>, maximum: nat): Result<seq<Id>, DefinitionError> {
    if |ids| > maximum then Err(LimitExceeded)
    else
      var sorted := Sorting.Sort(ids, ById);
      if StrictlySorted(sorted) then Ok(sorted) else Err(InvalidMembership)
  }

  function PoolMembers(ids: seq<Id>): Result<seq<Id>, DefinitionError> {
    if |ids| > MAX_POOL_PROFILE_IDS then Err(LimitExceeded)
    else if |ids| < 2 || !Distinct(ids) then Err(InvalidMembership)
    else Ok(ids)
  }

  // ---- the invariant --------------------------------------------------------------------------

  predicate DomainOk(x: Domain) {
    AliasOk(x.alias) && |x.profileIds| <= MAX_DOMAIN_PROFILE_IDS && StrictlySorted(x.profileIds)
  }

  /** Two domains share neither a profile nor, under one provider, an alias. */
  predicate DomainsApart(x: Domain, y: Domain) {
    && (x.provider == y.provider ==> x.alias != y.alias)
    && forall i :: 0 <= i < |y.profileIds| ==> y.profileIds[i] !in x.profileIds
  }

  predicate DomainIdsSorted(ds: seq<Domain>) {
    forall i, j :: 0 <= i < j < |ds| ==> ds[i].id < ds[j].id
  }

  predicate PoolIdsSorted(ps: seq<Pool>) {
    forall i, j :: 0 <= i < j < |ps| ==> ps[i].id < ps[j].id
  }

  ghost predicate ValidDomains(ds: seq<Domain>) {
    && DomainIdsSorted(ds)
    && (forall i :: 0 <= i < |ds| ==> DomainOk(ds[i]))
    && (forall i, j :: 0 <= i < j < |ds| ==> DomainsApart(ds[i], ds[j]))
  }

  /** A pool lists between two and 32 distinct members, all of its one existing domain. */
  predicate PoolOk(ds: seq<Domain>, p: Pool) {
    && AliasOk(p.alias) && 2 <= |p.profileIds| <= MAX_POOL_PROFILE_IDS && Distinct(p.profileIds)
    && DomainAt(ds, p.domainId).Some?
    && forall i :: 0 <= i < |p.profileIds| ==> p.profileIds[i] in DomainAt(ds, p.domainId).value.profileIds
  }

  predicate PoolsApart(ds: seq<Domain>, x: Pool, y: Pool) {
    x.alias == y.alias ==> DomainProvider(ds, x.domainId) != DomainProvider(ds, y.domainId)
  }

  ghost predicate ValidPools(ds: seq<Domain>, ps: seq<Pool>) {
    && PoolIdsSorted(ps)
    && (forall i :: 0 <= i < |ps| ==> PoolOk(ds, ps[i]))
    && (forall i :: 0 <= i < |ps| ==> DomainAt(ds, ps[i].id).None?)
    && (forall i, j :: 0 <= i < j < |ps| ==> PoolsApart(ds, ps[i], ps[j]))
  }

  function Total<T>(xs: seq<T>, size: T -> nat): nat {
    if xs == [] then 0 else Total(xs[..|xs| - 1], size) + size(xs[|xs| - 1])
  }

  const DomainSize := (x: Domain) => |x.profileIds|
  const PoolSize := (x: Pool) => |x.profileIds|

  ghost predicate ValidDefinitions(d: Definitions) {
    && d.schemaVersion == SCHEMA_VERSION
    && |d.domains| <= MAX_TRUST_DOMAINS && |d.pools| <= MAX_POOLS
    && ValidDomains(d.domains) && ValidPools(d.domains, d.pools)
    && Total(d.domains, DomainSize) + Total(d.pools, PoolSize) <= MAX_MEMBERSHIP_EDGES
  }

  // ---- mutations ------------------------------------------------------------------------------

  const ByDomainId := (a: Domain, b: Domain) => a.id <= b.id
  const ByPoolId := (a: Pool, b: Pool) => a.id <= b.id
  const DomainId := (a: Domain) => a.id
  const PoolId := (a: Pool) => a.id

  datatype Candidate = Candidate(definitions: Definitions, changed: bool)

  /** The candidate a mutation makes of a document and whether it differs, or the error that stops it. */
  function Mutate(d: Definitions, m: Mutation): Result<Candidate, DefinitionError> {
    match m
    case CreateDomain(id, alias, provider, profileIds) =>
      if !AliasOk(alias) then Err(InvalidAlias)
      else (match CanonicalMembers(profileIds, MAX_DOMAIN_PROFILE_IDS)
            case Err(x) => Err(x)
            case Ok(members) =>
              if DomainAt(d.domains, id).Some? || PoolAt(d.pools, id).Some?
                  || DomainAliasTaken(d.domains, provider, alias)
              then Err(AlreadyExists)
              else
                var added := Domain(id, alias, provider, members);
                Ok(Candidate(d.(domains := Sorting.Sort(d.domains + [added], ByDomainId)), true)))
    case RenameDomain(id, alias) =>
      var k := DomainIndex(d.domains, id);
      if !AliasOk(alias) then Err(InvalidAlias)
      else if k == |d.domains| then Err(NotFound)
      else if d.domains[k].alias == alias then Ok(Candidate(d, false))
      else if DomainAliasTaken(d.domains, d.domains[k].provider, alias) then Err(AlreadyExists)
      else Ok(Candidate(d.(domains := d.domains[k := d.domains[k].(alias := alias)]), true))
    case ReplaceDomainMembers(id, profileIds) =>
      (match CanonicalMembers(profileIds, MAX_DOMAIN_PROFILE_IDS)
       case Err(x) => Err(x)
       case Ok(members) =>
         var k := DomainIndex(d.domains, id);
         if k == |d.domains| then Err(NotFound)
         else if d.domains[k].profileIds == members then Ok(Candidate(d, false))
         else Ok(Candidate(d.(domains := d.domains[k := d.domains[k].(profileIds := members)]), true)))
    case RemoveDomain(id) =>
      var k := DomainIndex(d.domains, id);
      if k == |d.domains| then Err(NotFound)
      else if exists i :: 0 <= i < |d.pools| && d.pools[i].domainId == id then Err(DomainInUse)
      else Ok(Candidate(d.(domains := d.domains[..k] + d.domains[k + 1..]), true))
    case CreatePool(id, alias, domainId, profileIds) =>
      if !AliasOk(alias) then Err(InvalidAlias)
      else (match PoolMembers(profileIds)
            case Err(x) => Err(x)
            case Ok(members) =>
              match DomainProvider(d.domains, domainId)
              case None => Err(NotFound)
              case Some(provider) =>
                if PoolAt(d.pools, id).Some? || DomainAt(d.domains, id).Some?
                   || PoolAliasTaken(d.domains, d.pools, |d.pools|, provider, alias)
                then Err(AlreadyExists)
                else
                  var added := Pool(id, alias, domainId, Disabled, members);
                  Ok(Candidate(d.(pools := Sorting.Sort(d.pools + [added], ByPoolId)), true)))
    case RenamePool(id, alias) =>
      var k := PoolIndex(d.pools, id);
      if !AliasOk(alias) then Err(InvalidAlias)
      else if k == |d.pools| then Err(NotFound)
      else if d.pools[k].alias == alias then Ok(Candidate(d, false))
      else (match DomainProvider(d.domains, d.pools[k].domainId)
            case None => Err(NotFound)
            case Some(provider) =>
              if PoolAliasTaken(d.domains, d.pools, k, provider, alias) then Err(AlreadyExists)
              else Ok(Candidate(d.(pools := d.pools[k := d.pools[k].(alias := alias)]), true)))
    case ReplacePoolMembers(id, profileIds) =>
      (match PoolMembers(profileIds)
       case Err(x) => Err(x)
       case Ok(members) =>
         var k := PoolIndex(d.pools, id);
         if k == |d.pools| then Err(NotFound)
         else if d.pools[k].activation == Enabled then Err(PoolEnabled)
         else if d.pools[k].profileIds == members then Ok(Candidate(d, false))
         else Ok(Candidate(d.(pools := d.pools[k := d.pools[k].(profileIds := members)]), true)))
    case SetPoolActivation(id, enabled) =>
      var k := PoolIndex(d.pools, id);
      var activation := if enabled then Enabled else Disabled;
      if k == |d.pools| then Err(NotFound)
      else if d.pools[k].activation == activation then Ok(Candidate(d, false))
      else Ok(Candidate(d.(pools := d.pools[k := d.pools[k].(activation := activation)]), true))
    case RemovePool(id) =>
      var k := PoolIndex(d.pools, id);
      if k == |d.pools| then Err(NotFound)
      else if d.pools[k].activation == Enabled then Err(PoolEnabled)
      else Ok(Candidate(d.(pools := d.pools[..k] + d.pools[k + 1..]), true))
  }

  datatype Outcome = Outcome(changed: bool, revision: nat)

  /** What applying a mutation under an expected revision leaves and returns: all or nothing. */
  ghost function Apply(d: Definitions, expected: nat, m: Mutation): (Definitions, Result<Outcome, DefinitionError>) {
    if d.revision != expected then (d, Err(RevisionConflict))
    else match Mutate(d, m)
      case Err(x) => (d, Err(x))
      case Ok(Candidate(c, changed)) =>
        if changed && d.revision + 1 > U64_MAX then (d, Err(RevisionOverflow))
        else
          var next := if changed then c.(revision := d.revision + 1) else c;
          if !ValidDefinitions(next) then (d, Err(Invalid)) else (next, Ok(Outcome(changed, next.revision)))
  }

  // ---- handoffs -------------------------------------------------------------------------------

  datatype EnabledPool = EnabledPool(id: Id, alias: string, domainId: Id, domainAlias: string, provider: Provider,
                                     profileIds: seq<Id>)

  function EnabledPoolForSource(d: Definitions, poolId: Id, source: Id, provider: Provider)
    : Result<EnabledPool, DefinitionError>
  {
    match PoolAt(d.pools, poolId)
    case None => Err(NotFound)
    case Some(pool) =>
      if pool.activation != Enabled then Err(PoolDisabled)
      else match DomainAt(d.domains, pool.domainId)
        case None => Err(InvalidMembership)
        case Some(domain) =>
          if domain.provider != provider || source !in pool.profileIds then Err(InvalidMembership)
          else Ok(EnabledPool(pool.id, pool.alias, pool.domainId, domain.alias, provider, pool.profileIds))
  }

  /** Binary search as the membership test of a sorted member list. */
  function Found(xs: seq<Id>, x: Id): bool {
    if xs == [] then false
    else
      var mid := |xs| / 2;
      if xs[mid] == x then true else if xs[mid] < x then Found(xs[mid + 1..], x) else Found(xs[..mid], x)
  }

  /** The trust domain a handoff between two profiles is authorized in. */
  function AuthorizeHandoff(d: Definitions, domainId: Id, source: Id, target: Id, provider: Provider)
    : Result<Id, DefinitionError>
  {
    match DomainAt(d.domains, domainId)
    case None => Err(NotFound)
    case Some(domain) =>
      if source == target || domain.provider != provider || !Found(domain.profileIds, source)
         || !Found(domain.profileIds, target)
      then Err(InvalidMembership)
      else Ok(domain.id)
  }
}
