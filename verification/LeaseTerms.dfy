/**
  For how long a lease copy binds: until the duration that was asked for has passed, counted from
  the end of the call, and for renewing and releasing until it is superseded or released.
*/
module LeaseTerms {
  import opened Outcomes
  import opened ClusterStore
  import opened LeaseSafety

  /** How long an asked-for duration counts: all of it, or a year if the clock library cannot hold it. */
  function Span(ttl: nat): nat {
    if ttl <= 9_223_372_036_854_775_807 then ttl else 31_536_000_000
  }

  /** When the copy granted by call `i` runs out, counted from what was asked for. */
  function Until<P>(s: State<P>, ops: seq<Op<P>>, i: nat): int
    requires i < |ops| && (ops[i].Claim? || ops[i].Renew?)
  {
    Before(s, ops, i).clock + (if ops[i].Claim? then ops[i].pause else 0) + Span(ops[i].ttl)
  }

  /** Every copy granted by a claim or a renewal expires when the duration asked for is over. */
  lemma GrantedForItsDuration<P>(s: State<P>, ops: seq<Op<P>>, i: nat)
    requires i < |ops| && Granted(s, ops, i).Some?
    ensures (ops[i].Claim? || ops[i].Renew?) && Granted(s, ops, i).value.leaseExpiresAt == Until(s, ops, i)
    ensures ops[i].Claim? ==>
      var copy := Granted(s, ops, i).value;
      copy.queryId == ops[i].query && copy.principalId == ops[i].principal && copy.ownerNodeId == ops[i].node
  {
  }

  // ---- while nobody touches it ----

  /** Call `g` grants or gives up the query. */
  predicate Touches<P>(s: State<P>, ops: seq<Op<P>>, g: nat, query: string)
    requires g < |ops|
  {
    || (Granted(s, ops, g).Some? && Granted(s, ops, g).value.queryId == query)
    || (ops[g].Release? && ops[g].lease.queryId == query && ReleaseQuery(Before(s, ops, g), ops[g].lease).1)
  }

  predicate Stores<P>(s: State<P>, copy: QueryLease) {
    copy.queryId in s.leases && s.leases[copy.queryId] == copy
  }

  lemma GrantIsStored<P>(s: State<P>, ops: seq<Op<P>>, i: nat)
    requires WellKeyed(s) && i < |ops| && Granted(s, ops, i).Some?
    ensures Stores(Before(s, ops, i + 1), Granted(s, ops, i).value)
  {
    StaysWellKeyed(s, ops, i);
    BeforeNext(s, ops, i);
  }

  lemma StoredStep<P>(s: State<P>, op: Op<P>, copy: QueryLease)
    requires WellKeyed(s) && Stores(s, copy)
    requires GrantOf(s, op).Some? ==> GrantOf(s, op).value.queryId != copy.queryId
    requires op.Release? && op.lease.queryId == copy.queryId ==> !ReleaseQuery(s, op.lease).1
    ensures Stores(Step(s, op), copy)
  {
  }

  lemma {:induction false} StaysStored<P>(s: State<P>, ops: seq<Op<P>>, from: nat, k: nat, copy: QueryLease)
    requires WellKeyed(s) && from <= k <= |ops| && Stores(Before(s, ops, from), copy)
    requires forall g | from <= g < k :: !Touches(s, ops, g, copy.queryId)
    ensures Stores(Before(s, ops, k), copy)
  {
    if from < k {
      StaysStored(s, ops, from, k - 1, copy);
      StillStored(s, ops, k - 1, copy);
    }
  }

  lemma StillStored<P>(s: State<P>, ops: seq<Op<P>>, k: nat, copy: QueryLease)
    requires WellKeyed(s) && k < |ops| && Stores(Before(s, ops, k), copy) && !Touches(s, ops, k, copy.queryId)
    ensures Stores(Before(s, ops, k + 1), copy)
  {
    StaysWellKeyed(s, ops, k);
    BeforeNext(s, ops, k);
    StoredStep(Before(s, ops, k), ops[k], copy);
  }

  /**
    Over every run, as long as nobody is granted the query and nobody gives it up, the next claim is
    answered by the duration of the last grant alone: another principal is forbidden, another node is
    refused exactly until the duration is over, and every other claim succeeds.
  */
  lemma LeaseLastsExactly<P>(s: State<P>, ops: seq<Op<P>>, i: nat, j: nat)
    requires WellKeyed(s) && i < j < |ops| && Granted(s, ops, i).Some?
    requires ops[j].Claim? && ops[j].query == Granted(s, ops, i).value.queryId
    requires forall g | i < g < j :: !Touches(s, ops, g, ops[j].query)
    ensures
      var copy, now, op := Granted(s, ops, i).value, Before(s, ops, j), ops[j];
      var (after, r) := ClaimQuery(now, op.query, op.principal, op.node, op.ttl, op.pause);
      && (ops[i].Claim? || ops[i].Renew?)
      && (r == Err(Forbidden) <==> op.principal != copy.principalId)
      && (r == Err(LeaseHeld) <==> op.principal == copy.principalId && op.node != copy.ownerNodeId && now.clock < Until(s, ops, i))
      && (r.Ok? <==> op.principal == copy.principalId && (op.node == copy.ownerNodeId || now.clock >= Until(s, ops, i)))
      && (r.Err? ==> after == now)
  {
    GrantedForItsDuration(s, ops, i);
    GrantIsStored(s, ops, i);
    StaysStored(s, ops, i + 1, j, Granted(s, ops, i).value);
  }

  lemma {:induction false} StaysFree<P>(s: State<P>, ops: seq<Op<P>>, from: nat, k: nat, query: string)
    requires WellKeyed(s) && from <= k <= |ops| && query !in Before(s, ops, from).leases
    requires forall g | from <= g < k :: !Touches(s, ops, g, query)
    ensures query !in Before(s, ops, k).leases
  {
    if from < k {
      StaysFree(s, ops, from, k - 1, query);
      StillFree(s, ops, k - 1, query);
    }
  }

  lemma StillFree<P>(s: State<P>, ops: seq<Op<P>>, k: nat, query: string)
    requires WellKeyed(s) && k < |ops| && query !in Before(s, ops, k).leases && !Touches(s, ops, k, query)
    ensures query !in Before(s, ops, k + 1).leases
  {
    StaysWellKeyed(s, ops, k);
    BeforeNext(s, ops, k);
  }

  /** A query that was never granted, or was released and not granted since, is anybody's: the next claim succeeds. */
  lemma FreeQueryIsGranted<P>(s: State<P>, ops: seq<Op<P>>, from: nat, j: nat)
    requires WellKeyed(s) && from <= j < |ops| && ops[j].Claim?
    requires ops[j].query !in Before(s, ops, from).leases
      || (from > 0 && ops[from - 1].Release? && ops[from - 1].lease.queryId == ops[j].query
          && ReleaseQuery(Before(s, ops, from - 1), ops[from - 1].lease).1)
    requires forall g | from <= g < j :: !Touches(s, ops, g, ops[j].query)
    ensures Granted(s, ops, j).Some?
  {
    if from > 0 {
      BeforeNext(s, ops, from - 1);
    }
    StaysFree(s, ops, from, j, ops[j].query);
  }

  // ---- while the owner keeps it ----

  /** The stored lease covers `copy`: same query, owner and principal, expiring no sooner. */
  predicate Backs<P>(s: State<P>, copy: QueryLease) {
    Shields(s, copy) && s.leases[copy.queryId].principalId == copy.principalId
  }

  lemma BackedStep<P>(s: State<P>, op: Op<P>, copy: QueryLease)
    requires WellKeyed(s) && Backs(s, copy) && s.clock < copy.leaseExpiresAt && !Cuts(GrantOf(s, op), copy)
    requires op.Release? && op.lease.queryId == copy.queryId && op.lease.ownerNodeId == copy.ownerNodeId ==>
      !ReleaseQuery(s, op.lease).1
    ensures Backs(Step(s, op), copy)
  {
  }

  lemma {:induction false} StaysBacked<P>(s: State<P>, ops: seq<Op<P>>, from: nat, k: nat, copy: QueryLease)
    requires WellKeyed(s) && from <= k <= |ops| && Backs(Before(s, ops, from), copy)
    requires Keeps(s, ops, from, k, copy) && Before(s, ops, k).clock < copy.leaseExpiresAt
    ensures Backs(Before(s, ops, k), copy)
  {
    if from < k {
      ClockRunsForward(s, ops, k - 1, k);
      StaysBacked(s, ops, from, k - 1, copy);
      StillBacked(s, ops, k - 1, copy);
    }
  }

  lemma StillBacked<P>(s: State<P>, ops: seq<Op<P>>, k: nat, copy: QueryLease)
    requires WellKeyed(s) && k < |ops| && Backs(Before(s, ops, k), copy) && Before(s, ops, k).clock < copy.leaseExpiresAt
    requires !Gave(s, ops, k, copy.queryId, copy.ownerNodeId) && !Cuts(Granted(s, ops, k), copy)
    ensures Backs(Before(s, ops, k + 1), copy)
  {
    StaysWellKeyed(s, ops, k);
    BeforeNext(s, ops, k);
    BackedStep(Before(s, ops, k), ops[k], copy);
  }

  /**
    Over every run: until the duration asked for is over, and unless the owner released the query or
    was granted a shorter copy, every claim by another node is refused and changes nothing.
  */
  lemma RefusedUntilItIsOver<P>(s: State<P>, ops: seq<Op<P>>, i: nat, j: nat)
    requires WellKeyed(s) && i < j < |ops| && Granted(s, ops, i).Some?
    requires ops[j].Claim? && ops[j].query == Granted(s, ops, i).value.queryId
    requires ops[j].node != Granted(s, ops, i).value.ownerNodeId
    requires Keeps(s, ops, i + 1, j, Granted(s, ops, i).value)
    ensures
      var copy, now, op := Granted(s, ops, i).value, Before(s, ops, j), ops[j];
      && (ops[i].Claim? || ops[i].Renew?)
      && (now.clock < Until(s, ops, i) ==>
            ClaimQuery(now, op.query, op.principal, op.node, op.ttl, op.pause)
              == (now, Err(if op.principal == copy.principalId then LeaseHeld else Forbidden)))
  {
    var copy := Granted(s, ops, i).value;
    GrantedForItsDuration(s, ops, i);
    if Before(s, ops, j).clock < Until(s, ops, i) {
      GrantIsStored(s, ops, i);
      StaysBacked(s, ops, i + 1, j, copy);
    }
  }

  // ---- renewing and releasing ----

  /** The stored lease is `copy`, renewed or not. */
  predicate Continues<P>(s: State<P>, copy: QueryLease) {
    copy.queryId in s.leases && s.leases[copy.queryId].(leaseExpiresAt := copy.leaseExpiresAt) == copy
  }

  lemma ContinuesStep<P>(s: State<P>, op: Op<P>, copy: QueryLease)
    requires Continues(s, copy)
    requires op.Claim? && op.query == copy.queryId ==> GrantOf(s, op).None?
    requires op.Release? && op.lease.queryId == copy.queryId ==> !ReleaseQuery(s, op.lease).1
    ensures Continues(Step(s, op), copy)
  {
  }

  lemma StillContinues<P>(s: State<P>, ops: seq<Op<P>>, k: nat, copy: QueryLease)
    requires k < |ops| && Continues(Before(s, ops, k), copy) && !Ends(s, ops, k, copy)
    ensures Continues(Before(s, ops, k + 1), copy)
  {
    BeforeNext(s, ops, k);
    ContinuesStep(Before(s, ops, k), ops[k], copy);
  }

  lemma {:induction false} StaysCurrent<P>(s: State<P>, ops: seq<Op<P>>, from: nat, k: nat, copy: QueryLease)
    requires from <= k <= |ops| && Continues(Before(s, ops, from), copy)
    requires forall g | from <= g < k :: !Ends(s, ops, g, copy)
    ensures Continues(Before(s, ops, k), copy)
  {
    if from < k {
      StaysCurrent(s, ops, from, k - 1, copy);
      StillContinues(s, ops, k - 1, copy);
    }
  }

  /**
    Over every run a granted copy, expired or not, can be renewed and released if and only if it has
    not been superseded or released; a renewal then lasts for the duration it asks for.
  */
  lemma RenewableExactly<P>(s: State<P>, ops: seq<Op<P>>, i: nat, k: nat, ttl: nat)
    requires WellKeyed(s) && TokensIssued(s) && i < k <= |ops| && Granted(s, ops, i).Some?
    ensures
      var copy, now := Granted(s, ops, i).value, Before(s, ops, k);
      var ended := exists j :: i < j < k && Ends(s, ops, j, copy);
      && (ended ==> RenewQuery(now, copy, ttl) == (now, Err(LeaseLost)) && ReleaseQuery(now, copy) == (now, false))
      && (!ended ==>
            && RenewQuery(now, copy, ttl).1 == Ok(copy.(leaseExpiresAt := now.clock + Span(ttl)))
            && ReleaseQuery(now, copy).1 && copy.queryId !in ReleaseQuery(now, copy).0.leases)
  {
    var copy := Granted(s, ops, i).value;
    if j :| i < j < k && Ends(s, ops, j, copy) {
      EndedIsLostForever(s, ops, i, j, k, ttl);
    } else {
      GrantIsStored(s, ops, i);
      StaysCurrent(s, ops, i + 1, k, copy);
    }
  }
}
