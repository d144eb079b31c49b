/**
  The in-memory cluster state store: compare-and-swap resources, fenced query
  leases and expiring quota permits.

  `State` is the value held under the store's mutex together with the wall
  clock, and one function per store call says what the call does to it. The
  class `MemoryClusterStateStore` updates the same maps in place and is proved
  against those functions. Times are milliseconds; the clock never runs back.
*/
module ClusterStore {
  import opened Outcomes

  datatype ClusterError = Forbidden | VersionConflict | LeaseHeld | LeaseLost | QuotaExhausted

  datatype QueryLease = QueryLease(
    queryId: string, principalId: string, ownerNodeId: string, fencingToken: int, leaseExpiresAt: int)

  datatype SharedResource<P> = SharedResource(
    resourceId: string, principalId: string, kind: string, version: int, payload: P, expiresAt: int)

  datatype Permit = Permit(principalId: string, quota: string, expiresAt: int)

  datatype State<P> = State(
    clock: int,
    resources: map<(string, string), SharedResource<P>>,
    leases: map<string, QueryLease>,
    permits: map<string, Permit>,
    nextFence: int)

  /** The state of `MemoryClusterStateStore::default()` at some instant. */
  function Empty<P>(clock: int): State<P> {
    State(clock, map[], map[], map[], 0)
  }

  /** The longest duration the clock library can represent, and its stand-in for a longer one. */
  const MAX_TTL := 0x7FFF_FFFF_FFFF_FFFF
  const YEAR := 365 * 24 * 3600 * 1000

  function Deadline(clock: int, ttl: nat): int {
    clock + if ttl <= MAX_TTL then ttl else YEAR
  }

  // ---- resources ----

  function PutResource<P>(s: State<P>, resource: SharedResource<P>, expected: Option<int>)
    : (State<P>, Result<SharedResource<P>, ClusterError>)
  {
    var key := (resource.kind, resource.resourceId);
    if key in s.resources && s.resources[key].principalId != resource.principalId then (s, Err(Forbidden))
    else
      var version := if key in s.resources then s.resources[key].version else 0;
      if expected.Some? && expected.value != version then (s, Err(VersionConflict))
      else
        var stored := resource.(version := version + 1);
        (s.(resources := s.resources[key := stored]), Ok(stored))
  }

  /** An expired resource reads as absent although it is still stored. */
  function GetResource<P>(s: State<P>, kind: string, id: string, principal: string)
    : Result<Option<SharedResource<P>>, ClusterError>
  {
    if (kind, id) !in s.resources then Ok(None)
    else
      var resource := s.resources[(kind, id)];
      if resource.principalId != principal then Err(Forbidden)
      else if resource.expiresAt > s.clock then Ok(Some(resource)) else Ok(None)
  }

  function DeleteResource<P>(s: State<P>, kind: string, id: string, principal: string)
    : (State<P>, Result<bool, ClusterError>)
  {
    if (kind, id) in s.resources && s.resources[(kind, id)].principalId != principal then (s, Err(Forbidden))
    else (s.(resources := s.resources - {(kind, id)}), Ok((kind, id) in s.resources))
  }

  // ---- query leases ----

  /** `pause` is the time between the expiry test and the reading that sets the deadline. */
  function ClaimQuery<P>(s: State<P>, query: string, principal: string, node: string, ttl: nat, pause: nat)
    : (State<P>, Result<QueryLease, ClusterError>)
  {
    if query in s.leases && s.leases[query].principalId != principal then (s, Err(Forbidden))
    else if query in s.leases && s.leases[query].leaseExpiresAt > s.clock && s.leases[query].ownerNodeId != node then
      (s, Err(LeaseHeld))
    else
      var lease := QueryLease(query, principal, node, s.nextFence + 1, Deadline(s.clock + pause, ttl));
      (s.(clock := s.clock + pause, nextFence := s.nextFence + 1, leases := s.leases[query := lease]), Ok(lease))
  }

  /** The stored lease is the one `lease` names: same owner and same fencing token. */
  predicate IsCurrent<P>(s: State<P>, lease: QueryLease) {
    && lease.queryId in s.leases
    && s.leases[lease.queryId].ownerNodeId == lease.ownerNodeId
    && s.leases[lease.queryId].fencingToken == lease.fencingToken
  }

  /** Renewal compares owner and token only; it does not look at the expiry. */
  function RenewQuery<P>(s: State<P>, lease: QueryLease, ttl: nat): (State<P>, Result<QueryLease, ClusterError>) {
    if !IsCurrent(s, lease) then (s, Err(LeaseLost))
    else
      var renewed := s.leases[lease.queryId].(leaseExpiresAt := Deadline(s.clock, ttl));
      (s.(leases := s.leases[lease.queryId := renewed]), Ok(renewed))
  }

  function ReleaseQuery<P>(s: State<P>, lease: QueryLease): (State<P>, bool) {
    if IsCurrent(s, lease) then (s.(leases := s.leases - {lease.queryId}), true) else (s, false)
  }

  // ---- quota permits ----

  function Live(permits: map<string, Permit>, now: int): map<string, Permit> {
    map id | id in permits && permits[id].expiresAt > now :: permits[id]
  }

  function Holders(permits: map<string, Permit>, principal: string, quota: string): set<string> {
    set id | id in permits && permits[id].principalId == principal && permits[id].quota == quota
  }

  /** `id` is the fresh identifier drawn for the permit. */
  function AcquireQuota<P>(s: State<P>, principal: string, quota: string, limit: nat, ttl: nat, pause: nat, id: string)
    : (State<P>, Result<string, ClusterError>)
  {
    var live := Live(s.permits, s.clock);
    if |Holders(live, principal, quota)| >= limit then (s.(permits := live), Err(QuotaExhausted))
    else
      var permit := Permit(principal, quota, Deadline(s.clock + pause, ttl));
      (s.(clock := s.clock + pause, permits := live[id := permit]), Ok(id))
  }

  function ReleaseQuota<P>(s: State<P>, id: string): State<P> {
    s.(permits := s.permits - {id})
  }

  // ---- runs: any sequence of calls from any nodes, with time passing in between ----

  datatype Op<P> =
    | Tick(elapsed: nat)
    | Put(resource: SharedResource<P>, expected: Option<int>)
    | Delete(kind: string, id: string, caller: string)
    | Claim(query: string, principal: string, node: string, ttl: nat, pause: nat)
    | Renew(lease: QueryLease, ttl: nat)
    | Release(lease: QueryLease)
    | Acquire(principal: string, quota: string, limit: nat, ttl: nat, pause: nat, permit: string)
    | Free(permit: string)

  function Step<P>(s: State<P>, op: Op<P>): State<P> {
    match op
    case Tick(elapsed) => s.(clock := s.clock + elapsed)
    case Put(resource, expected) => PutResource(s, resource, expected).0
    case Delete(kind, id, caller) => DeleteResource(s, kind, id, caller).0
    case Claim(query, principal, node, ttl, pause) => ClaimQuery(s, query, principal, node, ttl, pause).0
    case Renew(lease, ttl) => RenewQuery(s, lease, ttl).0
    case Release(lease) => ReleaseQuery(s, lease).0
    case Acquire(principal, quota, limit, ttl, pause, permit) =>
      AcquireQuota(s, principal, quota, limit, ttl, pause, permit).0
    case Free(permit) => ReleaseQuota(s, permit)
  }

  function Run<P>(s: State<P>, ops: seq<Op<P>>): State<P> {
    if ops == [] then s else Step(Run(s, ops[..|ops| - 1]), ops[|ops| - 1])
  }

  /** The state just before call number `i` of a run. */
  function Before<P>(s: State<P>, ops: seq<Op<P>>, i: nat): State<P>
    requires i <= |ops|
  {
    Run(s, ops[..i])
  }

  lemma BeforeNext<P>(s: State<P>, ops: seq<Op<P>>, i: nat)
    requires i < |ops|
    ensures Before(s, ops, i + 1) == Step(Before(s, ops, i), ops[i])
  {
    assert ops[..i + 1][..i] == ops[..i];
  }

  class MemoryClusterStateStore<P> {
    var clock: int
    var resources: map<(string, string), SharedResource<P>>
    var leases: map<string, QueryLease>
    var permits: map<string, Permit>
    var nextFence: int

    ghost function View(): State<P>
      reads this
    {
      State(clock, resources, leases, permits, nextFence)
    }

    constructor (now: int)
      ensures View() == Empty(now)
    {
      clock, resources, leases, permits, nextFence := now, map[], map[], map[], 0;
    }

    method Put(resource: SharedResource<P>, expected: Option<int>)
      returns (r: Result<SharedResource<P>, ClusterError>)
      modifies this
      ensures (View(), r) == PutResource(old(View()), resource, expected)
    {
      var key := (resource.kind, resource.resourceId);
      if key in resources && resources[key].principalId != resource.principalId {
        return Err(Forbidden);
      }
      var version := 0;
      if key in resources {
        version := resources[key].version;
      }
      if expected.Some? && expected.value != version {
        return Err(VersionConflict);
      }
      var stored := resource.(version := version + 1);
      resources := resources[key := stored];
      return Ok(stored);
    }

    method Get(kind: string, id: string, principal: string)
      returns (r: Result<Option<SharedResource<P>>, ClusterError>)
      ensures r == GetResource(View(), kind, id, principal)
    {
      if (kind, id) !in resources {
        return Ok(None);
      }
      var resource := resources[(kind, id)];
      if resource.principalId != principal {
        return Err(Forbidden);
      }
      if resource.expiresAt > clock {
        return Ok(Some(resource));
      }
      return Ok(None);
    }

    method Delete(kind: string, id: string, principal: string) returns (r: Result<bool, ClusterError>)
      modifies this
      ensures (View(), r) == DeleteResource(old(View()), kind, id, principal)
    {
      if (kind, id) in resources && resources[(kind, id)].principalId != principal {
        return Err(Forbidden);
      }
      r := Ok((kind, id) in resources);
      resources := resources - {(kind, id)};
    }

    method Claim(query: string, principal: string, node: string, ttl: nat, pause: nat)
      returns (r: Result<QueryLease, ClusterError>)
      modifies this
      ensures (View(), r) == ClaimQuery(old(View()), query, principal, node, ttl, pause)
    {
      if query in leases {
        var lease := leases[query];
        if lease.principalId != principal {
          return Err(Forbidden);
        }
        if lease.leaseExpiresAt > clock && lease.ownerNodeId != node {
          return Err(LeaseHeld);
        }
      }
      nextFence := nextFence + 1;
      clock := clock + pause;
      var lease := QueryLease(query, principal, node, nextFence, Deadline(clock, ttl));
      leases := leases[query := lease];
      return Ok(lease);
    }

    method Renew(lease: QueryLease, ttl: nat) returns (r: Result<QueryLease, ClusterError>)
      modifies this
      ensures (View(), r) == RenewQuery(old(View()), lease, ttl)
    {
      if lease.queryId !in leases {
        return Err(LeaseLost);
      }
      var current := leases[lease.queryId];
      if current.ownerNodeId != lease.ownerNodeId || current.fencingToken != lease.fencingToken {
        return Err(LeaseLost);
      }
      current := current.(leaseExpiresAt := Deadline(clock, ttl));
      leases := leases[lease.queryId := current];
      return Ok(current);
    }

    method Release(lease: QueryLease) returns (released: bool)
      modifies this
      ensures (View(), released) == ReleaseQuery(old(View()), lease)
    {
      released := false;
      if lease.queryId in leases {
        var current := leases[lease.queryId];
        if current.ownerNodeId == lease.ownerNodeId && current.fencingToken == lease.fencingToken {
          leases := leases - {lease.queryId};
          released := true;
        }
      }
    }

    method Acquire(principal: string, quota: string, limit: nat, ttl: nat, pause: nat, id: string)
      returns (r: Result<string, ClusterError>)
      modifies this
      ensures (View(), r) == AcquireQuota(old(View()), principal, quota, limit, ttl, pause, id)
    {
      var now := clock;
      permits := map held | held in permits && permits[held].expiresAt > now :: permits[held];
      var used := |set held | held in permits && permits[held].principalId == principal && permits[held].quota == quota|;
      if used >= limit {
        return Err(QuotaExhausted);
      }
      clock := clock + pause;
      permits := permits[id := Permit(principal, quota, Deadline(clock, ttl))];
      return Ok(id);
    }

    method Free(id: string)
      modifies this
      ensures View() == ReleaseQuota(old(View()), id)
    {
      permits := permits - {id};
    }
  }
}
