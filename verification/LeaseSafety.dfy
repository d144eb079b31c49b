/** What every run of the store guarantees about query leases: exclusion and fencing. */
module LeaseSafety {
  import opened Outcomes
  import opened ClusterStore

  /** The lease copy a call hands out, if it grants one. */
  function GrantOf<P>(s: State<P>, op: Op<P>): Option<QueryLease> {
    match op
    case Claim(query, principal, node, ttl, pause) =>
      var r := ClaimQuery(s, query, principal, node, ttl, pause).1;
      if r.Ok? then Some(r.value) else None
    case Renew(lease, ttl) =>
      var r := RenewQuery(s, lease, ttl).1;
      if r.Ok? then Some(r.value) else None
    case _ => None
  }

  /** The lease copy handed out by call number `i` of a run. */
  function Granted<P>(s: State<P>, ops: seq<Op<P>>, i: nat): Option<QueryLease>
    requires i < |ops|
  {
    GrantOf(Before(s, ops, i), ops[i])
  }

  /** Call number `k` gave up `query` on behalf of `node`. */
  predicate Gave<P>(s: State<P>, ops: seq<Op<P>>, k: nat, query: string, node: string)
    requires k < |ops|
  {
    && ops[k].Release?
    && ops[k].lease.queryId == query && ops[k].lease.ownerNodeId == node
    && ReleaseQuery(Before(s, ops, k), ops[k].lease).1
  }

  /** Each node uses one lease duration throughout the run, as `cluster.lease_ttl` does. */
  ghost predicate FixedTtl<P>(ops: seq<Op<P>>, ttlOf: string -> nat) {
    forall i :: 0 <= i < |ops| ==>
      && (ops[i].Claim? ==> ops[i].ttl == ttlOf(ops[i].node))
      && (ops[i].Renew? ==> ops[i].ttl == ttlOf(ops[i].lease.ownerNodeId))
  }

  /** The clock reading at which the holder of a copy granted by call `i` may start to act. */
  function GrantTime<P>(s: State<P>, ops: seq<Op<P>>, i: nat): int
    requires i < |ops|
  {
    Before(s, ops, i).clock
  }

  /** Instant `t` lies in the validity window of the copy granted by call `i`. */
  predicate HeldAt<P>(s: State<P>, ops: seq<Op<P>>, i: nat, t: int)
    requires i < |ops|
  {
    Granted(s, ops, i).Some? && GrantTime(s, ops, i) <= t < Granted(s, ops, i).value.leaseExpiresAt
  }

  /** Leases are stored under their own query id. */
  predicate WellKeyed<P>(s: State<P>) {
    forall q :: q in s.leases ==> s.leases[q].queryId == q
  }

  lemma StepKeepsKeys<P>(s: State<P>, op: Op<P>)
    requires WellKeyed(s)
    ensures WellKeyed(Step(s, op))
  {
  }

  lemma {:induction false} StaysWellKeyed<P>(s: State<P>, ops: seq<Op<P>>, i: nat)
    requires WellKeyed(s) && i <= |ops|
    ensures WellKeyed(Before(s, ops, i))
  {
    if i > 0 {
      StaysWellKeyed(s, ops, i - 1);
      BeforeNext(s, ops, i - 1);
      StepKeepsKeys(Before(s, ops, i - 1), ops[i - 1]);
    }
  }

  lemma StepNeverGoesBack<P>(s: State<P>, op: Op<P>)
    ensures s.clock <= Step(s, op).clock && s.nextFence <= Step(s, op).nextFence
  {
  }

  lemma {:induction false} ClockRunsForward<P>(s: State<P>, ops: seq<Op<P>>, i: nat, j: nat)
    requires i <= j <= |ops|
    ensures Before(s, ops, i).clock <= Before(s, ops, j).clock
  {
    if i < j {
      ClockRunsForward(s, ops, i, j - 1);
      BeforeNext(s, ops, j - 1);
      StepNeverGoesBack(Before(s, ops, j - 1), ops[j - 1]);
    }
  }

  /** A lease that protects `copy`: same query and owner, expiring no sooner. */
  predicate Shields<P>(s: State<P>, copy: QueryLease) {
    && copy.queryId in s.leases
    && s.leases[copy.queryId].ownerNodeId == copy.ownerNodeId
    && s.leases[copy.queryId].leaseExpiresAt >= copy.leaseExpiresAt
  }

  /** The copy is still shielded, or it has expired. */
  predicate Guarded<P>(s: State<P>, copy: QueryLease) {
    Shields(s, copy) || copy.leaseExpiresAt <= s.clock
  }

  /** `grant` is a copy for the same query and owner that expires sooner. */
  predicate Cuts(grant: Option<QueryLease>, copy: QueryLease) {
    && grant.Some? && grant.value.queryId == copy.queryId && grant.value.ownerNodeId == copy.ownerNodeId
    && grant.value.leaseExpiresAt < copy.leaseExpiresAt
  }

  /** Up to call `k`, from call `from` on, the owner neither releases the query nor shortens its lease. */
  predicate Keeps<P>(s: State<P>, ops: seq<Op<P>>, from: nat, k: nat, copy: QueryLease)
    requires k <= |ops|
  {
    forall g | from <= g < k :: !Gave(s, ops, g, copy.queryId, copy.ownerNodeId) && !Cuts(Granted(s, ops, g), copy)
  }

  /** One store call keeps a copy guarded, unless its owner releases the query or shortens the lease. */
  lemma GuardedStep<P>(s: State<P>, op: Op<P>, copy: QueryLease)
    requires WellKeyed(s) && Guarded(s, copy) && !Cuts(GrantOf(s, op), copy)
    requires op.Release? && op.lease.queryId == copy.queryId && op.lease.ownerNodeId == copy.ownerNodeId ==>
      !ReleaseQuery(s, op.lease).1
    ensures Guarded(Step(s, op), copy)
  {
  }

  /** As long as its owner keeps the query, a guarded copy stays guarded. */
  lemma {:induction false} CopyStaysGuarded<P>(s: State<P>, ops: seq<Op<P>>, from: nat, k: nat, copy: QueryLease)
    requires WellKeyed(s) && from <= k <= |ops|
    requires Guarded(Before(s, ops, from), copy) && Keeps(s, ops, from, k, copy)
    ensures Guarded(Before(s, ops, k), copy)
  {
    if from < k {
      CopyStaysGuarded(s, ops, from, k - 1, copy);
      CopyStillGuarded(s, ops, k - 1, copy);
    }
  }

  lemma CopyStillGuarded<P>(s: State<P>, ops: seq<Op<P>>, k: nat, copy: QueryLease)
    requires WellKeyed(s) && k < |ops| && Guarded(Before(s, ops, k), copy)
    requires !Gave(s, ops, k, copy.queryId, copy.ownerNodeId) && !Cuts(Granted(s, ops, k), copy)
    ensures Guarded(Before(s, ops, k + 1), copy)
  {
    BeforeNext(s, ops, k);
    StaysWellKeyed(s, ops, k);
    GuardedStep(Before(s, ops, k), ops[k], copy);
  }

  /** Call `j` grants the query of `copy` to another node. */
  predicate Rival<P>(s: State<P>, ops: seq<Op<P>>, j: nat, copy: QueryLease)
    requires j < |ops|
  {
    var grant := Granted(s, ops, j);
    grant.Some? && grant.value.queryId == copy.queryId && grant.value.ownerNodeId != copy.ownerNodeId
  }

  /** A guarded copy has expired before another node is granted its query. */
  lemma RivalWaits<P>(s: State<P>, op: Op<P>, copy: QueryLease)
    requires WellKeyed(s) && Guarded(s, copy)
    requires GrantOf(s, op).Some? && GrantOf(s, op).value.queryId == copy.queryId
    requires GrantOf(s, op).value.ownerNodeId != copy.ownerNodeId
    ensures copy.leaseExpiresAt <= s.clock
  {
  }

  lemma GrantIsGuarded<P>(s: State<P>, ops: seq<Op<P>>, i: nat)
    requires WellKeyed(s) && i < |ops| && Granted(s, ops, i).Some?
    ensures Guarded(Before(s, ops, i + 1), Granted(s, ops, i).value)
  {
    BeforeNext(s, ops, i);
    StaysWellKeyed(s, ops, i);
  }

  /**
    Lease exclusion over every run: if two different nodes are granted copies for one query, then no
    instant lies in both validity windows, unless in between the owner of the earlier copy released
    the query or was granted a copy that expires sooner.
  */
  lemma LeaseExclusion<P>(s: State<P>, ops: seq<Op<P>>, i: nat, j: nat)
    requires WellKeyed(s) && i < j < |ops| && Granted(s, ops, i).Some? && Rival(s, ops, j, Granted(s, ops, i).value)
    requires Keeps(s, ops, i + 1, j, Granted(s, ops, i).value)
    ensures forall t :: !(HeldAt(s, ops, i, t) && HeldAt(s, ops, j, t))
  {
    var first := Granted(s, ops, i).value;
    GrantIsGuarded(s, ops, i);
    CopyStaysGuarded(s, ops, i + 1, j, first);
    StaysWellKeyed(s, ops, j);
    RivalWaits(Before(s, ops, j), ops[j], first);
  }

  // ---- one duration per node ----

  /** A granted copy expires one lease duration after the clock reading that ends its call. */
  lemma GrantShape<P>(s: State<P>, ops: seq<Op<P>>, ttlOf: string -> nat, i: nat)
    requires WellKeyed(s) && i < |ops| && FixedTtl(ops, ttlOf) && Granted(s, ops, i).Some?
    ensures
      var copy := Granted(s, ops, i).value;
      copy.leaseExpiresAt == Deadline(Before(s, ops, i + 1).clock, ttlOf(copy.ownerNodeId))
  {
    BeforeNext(s, ops, i);
    StaysWellKeyed(s, ops, i);
  }

  /** With one duration per node no later grant to the same node expires sooner. */
  lemma FixedTtlNeverCuts<P>(s: State<P>, ops: seq<Op<P>>, ttlOf: string -> nat, i: nat, g: nat)
    requires WellKeyed(s) && i < g < |ops| && FixedTtl(ops, ttlOf) && Granted(s, ops, i).Some?
    ensures !Cuts(Granted(s, ops, g), Granted(s, ops, i).value)
  {
    GrantShape(s, ops, ttlOf, i);
    ClockRunsForward(s, ops, i + 1, g + 1);
    if Granted(s, ops, g).Some? {
      GrantShape(s, ops, ttlOf, g);
    }
  }

  /** With one duration per node, only the earlier owner's release lets validity windows overlap. */
  lemma FixedTtlExclusion<P>(s: State<P>, ops: seq<Op<P>>, ttlOf: string -> nat, i: nat, j: nat)
    requires WellKeyed(s) && i < j < |ops| && FixedTtl(ops, ttlOf)
    requires Granted(s, ops, i).Some? && Rival(s, ops, j, Granted(s, ops, i).value)
    ensures var first := Granted(s, ops, i).value;
      || (exists g :: i < g < j && Gave(s, ops, g, first.queryId, first.ownerNodeId))
      || (forall t :: !(HeldAt(s, ops, i, t) && HeldAt(s, ops, j, t)))
  {
    var first := Granted(s, ops, i).value;
    if !exists g :: i < g < j && Gave(s, ops, g, first.queryId, first.ownerNodeId) {
      forall g | i + 1 <= g < j ensures !Cuts(Granted(s, ops, g), first) {
        FixedTtlNeverCuts(s, ops, ttlOf, i, g);
      }
      LeaseExclusion(s, ops, i, j);
    }
  }

  // ---- the exact boundary ----

  /** Call `j` grants another node a copy that is valid while `copy` still is. */
  predicate Clash<P>(s: State<P>, ops: seq<Op<P>>, j: nat, copy: QueryLease)
    requires j < |ops|
  {
    && Rival(s, ops, j, copy)
    && GrantTime(s, ops, j) < Granted(s, ops, j).value.leaseExpiresAt && GrantTime(s, ops, j) < copy.leaseExpiresAt
  }

  /** However the run goes on, while the owner keeps the query nobody else is granted an overlapping window. */
  ghost predicate Secure<P(!new)>(s: State<P>, copy: QueryLease) {
    forall ops: seq<Op<P>>, j: nat :: j < |ops| && Keeps(s, ops, 0, j, copy) ==> !Clash(s, ops, j, copy)
  }

  lemma GuardedNeverClashes<P>(s: State<P>, ops: seq<Op<P>>, j: nat, copy: QueryLease)
    requires WellKeyed(s) && Guarded(s, copy) && j < |ops| && Keeps(s, ops, 0, j, copy)
    ensures !Clash(s, ops, j, copy)
  {
    assert Before(s, ops, 0) == s;
    CopyStaysGuarded(s, ops, 0, j, copy);
    StaysWellKeyed(s, ops, j);
    if Rival(s, ops, j, copy) {
      RivalWaits(Before(s, ops, j), ops[j], copy);
    }
  }

  /** A node other than `node`. */
  function Another(node: string): (r: string)
    ensures r != node
  {
    node + "'"
  }

  /** Without its guard a copy can be run into: wait for the stored lease, if any, and claim. */
  lemma UnguardedCanClash<P>(s: State<P>, copy: QueryLease) returns (ops: seq<Op<P>>)
    requires WellKeyed(s) && !Guarded(s, copy)
    ensures |ops| == 2 && Keeps(s, ops, 0, 1, copy) && Clash(s, ops, 1, copy)
  {
    var q := copy.queryId;
    var wait, principal, node := 0, "", Another(copy.ownerNodeId);
    if q in s.leases {
      var stored := s.leases[q];
      principal := stored.principalId;
      if stored.ownerNodeId != copy.ownerNodeId {
        node := stored.ownerNodeId;
      } else if stored.leaseExpiresAt > s.clock {
        wait := stored.leaseExpiresAt - s.clock;
      }
    }
    ops := [Tick(wait), Claim(q, principal, node, 1, 0)];
    assert Before(s, ops, 0) == s;
    BeforeNext(s, ops, 0);
  }

  /** A copy is safe in every continuation exactly as long as it is guarded. */
  lemma GuardedExactly<P(!new)>(s: State<P>, copy: QueryLease)
    requires WellKeyed(s)
    ensures Guarded(s, copy) <==> Secure(s, copy)
  {
    if Guarded(s, copy) {
      forall ops: seq<Op<P>>, j: nat | j < |ops| && Keeps(s, ops, 0, j, copy) ensures !Clash(s, ops, j, copy) {
        GuardedNeverClashes(s, ops, j, copy);
      }
    } else {
      var ops := UnguardedCanClash(s, copy);
      assert !(Keeps(s, ops, 0, 1, copy) ==> !Clash(s, ops, 1, copy));
    }
  }

  /** A shorter renewal does break the exclusion: it leaves a longer copy outstanding. */
  lemma ShorterRenewalBreaksExclusion()
    ensures
      var ops: seq<Op<()>> := [
        Claim("q", "p", "a", 100, 0), Renew(QueryLease("q", "p", "a", 1, 100), 1), Tick(2), Claim("q", "p", "b", 100, 0)];
      var s := Empty<()>(0);
      && Granted(s, ops, 0) == Some(QueryLease("q", "p", "a", 1, 100))
      && Granted(s, ops, 3) == Some(QueryLease("q", "p", "b", 2, 102))
      && GrantTime(s, ops, 3) == 2
      && (forall g | 0 < g < 3 :: !Gave(s, ops, g, "q", "a"))
  {
    var ops: seq<Op<()>> := [
      Claim("q", "p", "a", 100, 0), Renew(QueryLease("q", "p", "a", 1, 100), 1), Tick(2), Claim("q", "p", "b", 100, 0)];
    var s := Empty<()>(0);
    assert Before(s, ops, 0) == s;
    BeforeNext(s, ops, 0);
    BeforeNext(s, ops, 1);
    BeforeNext(s, ops, 2);
  }

  // ---- fencing ----

  predicate IsGrantedClaim<P>(s: State<P>, ops: seq<Op<P>>, i: nat)
    requires i < |ops|
  {
    ops[i].Claim? && Granted(s, ops, i).Some?
  }

  lemma {:induction false} FenceNeverDrops<P>(s: State<P>, ops: seq<Op<P>>, i: nat, j: nat)
    requires i <= j <= |ops|
    ensures Before(s, ops, i).nextFence <= Before(s, ops, j).nextFence
  {
    if i < j {
      FenceNeverDrops(s, ops, i, j - 1);
      BeforeNext(s, ops, j - 1);
      StepNeverGoesBack(Before(s, ops, j - 1), ops[j - 1]);
    }
  }

  /** Every successful claim, for whatever query, carries a larger token than all earlier ones. */
  lemma ClaimsAreFencedInOrder<P>(s: State<P>, ops: seq<Op<P>>, i: nat, j: nat)
    requires i < j < |ops| && IsGrantedClaim(s, ops, i) && IsGrantedClaim(s, ops, j)
    ensures Granted(s, ops, i).value.fencingToken < Granted(s, ops, j).value.fencingToken
  {
    BeforeNext(s, ops, i);
    FenceNeverDrops(s, ops, i + 1, j);
  }

  /** The lease was issued (its token is not in the future) and is no longer the stored one. */
  predicate Stale<P>(s: State<P>, lease: QueryLease) {
    lease.fencingToken <= s.nextFence && !IsCurrent(s, lease)
  }

  lemma StaysStale<P>(s: State<P>, op: Op<P>, lease: QueryLease)
    requires Stale(s, lease)
    ensures Stale(Step(s, op), lease)
  {
  }

  lemma {:induction false} StaleForever<P>(s: State<P>, ops: seq<Op<P>>, from: nat, k: nat, lease: QueryLease)
    requires from <= k <= |ops| && Stale(Before(s, ops, from), lease)
    ensures Stale(Before(s, ops, k), lease)
  {
    if from < k {
      StaleForever(s, ops, from, k - 1, lease);
      BeforeNext(s, ops, k - 1);
      StaysStale(Before(s, ops, k - 1), ops[k - 1], lease);
    }
  }

  /** No stored lease carries a token that has not been handed out yet. */
  predicate TokensIssued<P>(s: State<P>) {
    forall q :: q in s.leases ==> s.leases[q].fencingToken <= s.nextFence
  }

  lemma StepKeepsTokens<P>(s: State<P>, op: Op<P>)
    requires TokensIssued(s)
    ensures TokensIssued(Step(s, op))
  {
  }

  lemma {:induction false} StaysIssued<P>(s: State<P>, ops: seq<Op<P>>, i: nat)
    requires TokensIssued(s) && i <= |ops|
    ensures TokensIssued(Before(s, ops, i))
  {
    if i > 0 {
      StaysIssued(s, ops, i - 1);
      BeforeNext(s, ops, i - 1);
      StepKeepsTokens(Before(s, ops, i - 1), ops[i - 1]);
    }
  }

  /** Call number `j` takes `copy` out of force: a new claim of its query, or its release. */
  predicate Ends<P>(s: State<P>, ops: seq<Op<P>>, j: nat, copy: QueryLease)
    requires j < |ops|
  {
    || (IsGrantedClaim(s, ops, j) && ops[j].query == copy.queryId)
    || (Gave(s, ops, j, copy.queryId, copy.ownerNodeId) && ops[j].lease.fencingToken == copy.fencingToken)
  }

  lemma GrantIsIssued<P>(s: State<P>, ops: seq<Op<P>>, i: nat)
    requires TokensIssued(s) && i < |ops| && Granted(s, ops, i).Some?
    ensures Granted(s, ops, i).value.fencingToken <= Before(s, ops, i + 1).nextFence
  {
    StaysIssued(s, ops, i);
    BeforeNext(s, ops, i);
  }

  lemma EndedIsStale<P>(s: State<P>, ops: seq<Op<P>>, j: nat, copy: QueryLease)
    requires j < |ops| && Ends(s, ops, j, copy) && copy.fencingToken <= Before(s, ops, j).nextFence
    ensures Stale(Before(s, ops, j + 1), copy)
  {
    BeforeNext(s, ops, j);
  }

  /** Once superseded or released, a copy granted by any claim or renewal can never be renewed or released again. */
  lemma EndedIsLostForever<P>(s: State<P>, ops: seq<Op<P>>, i: nat, j: nat, k: nat, ttl: nat)
    requires TokensIssued(s) && i < j < k <= |ops|
    requires Granted(s, ops, i).Some? && Ends(s, ops, j, Granted(s, ops, i).value)
    ensures
      var copy, now := Granted(s, ops, i).value, Before(s, ops, k);
      RenewQuery(now, copy, ttl) == (now, Err(LeaseLost)) && ReleaseQuery(now, copy) == (now, false)
  {
    var copy := Granted(s, ops, i).value;
    GrantIsIssued(s, ops, i);
    FenceNeverDrops(s, ops, i + 1, j);
    EndedIsStale(s, ops, j, copy);
    StaleForever(s, ops, j + 1, k, copy);
  }
}
