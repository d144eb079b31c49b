/**
  What every run of the store guarantees about compare-and-swap resources: they are private to
  their principal, one writer wins per version, and a deleted one is gone until the next put.
*/
module ResourceSafety {
  import opened Outcomes
  import opened ClusterStore

  type Key = (string, string)

  /** A put or delete of the resource under `key`. */
  predicate Concerns<P>(op: Op<P>, key: Key) {
    || (op.Put? && (op.resource.kind, op.resource.resourceId) == key)
    || (op.Delete? && (op.kind, op.id) == key)
  }

  function CallerOf<P>(op: Op<P>): string
    requires op.Put? || op.Delete?
  {
    if op.Put? then op.resource.principalId else op.caller
  }

  /** Whether the call goes through. */
  predicate Succeeds<P>(s: State<P>, op: Op<P>) {
    match op
    case Put(resource, expected) => PutResource(s, resource, expected).1.Ok?
    case Delete(kind, id, caller) => DeleteResource(s, kind, id, caller).1.Ok?
    case _ => true
  }

  /** No call of anybody but its principal reaches the resource. */
  predicate OnlyOthers<P>(ops: seq<Op<P>>, key: Key, principal: string) {
    forall i :: 0 <= i < |ops| && Concerns(ops[i], key) ==> CallerOf(ops[i]) != principal
  }

  /**
    Privacy over every run: whatever other principals put or delete, a resource stays as it is, every
    such call is refused, another principal never gets to read it, and its own principal reads
    exactly it until it expires.
  */
  lemma {:induction false} OthersCannotReach<P>(s: State<P>, ops: seq<Op<P>>, key: Key, other: string)
    requires key in s.resources && OnlyOthers(ops, key, s.resources[key].principalId) && other != s.resources[key].principalId
    ensures
      var mine, now := s.resources[key], Run(s, ops);
      && key in now.resources && now.resources[key] == mine
      && GetResource(now, key.0, key.1, other) == Err(Forbidden)
      && GetResource(now, key.0, key.1, mine.principalId) == Ok(if now.clock < mine.expiresAt then Some(mine) else None)
  {
    if ops != [] {
      var n := |ops| - 1;
      OthersCannotReach(s, ops[..n], key, other);
      assert Concerns(ops[n], key) ==> CallerOf(ops[n]) != s.resources[key].principalId;
      Untouched(Run(s, ops[..n]), ops[n], key);
    }
  }

  /** A call that concerns another resource, or comes from another principal, leaves a resource alone. */
  lemma Untouched<P>(s: State<P>, op: Op<P>, key: Key)
    requires key in s.resources && (Concerns(op, key) ==> CallerOf(op) != s.resources[key].principalId)
    ensures key in Step(s, op).resources && Step(s, op).resources[key] == s.resources[key]
    ensures Concerns(op, key) ==> !Succeeds(s, op)
  {
  }

  // ---- deleting ----

  lemma {:induction false} AbsentUntilPut<P>(s: State<P>, ops: seq<Op<P>>, key: Key)
    requires key !in s.resources && forall i :: 0 <= i < |ops| ==> !(ops[i].Put? && Concerns(ops[i], key))
    ensures key !in Run(s, ops).resources
  {
    if ops != [] {
      var n := |ops| - 1;
      AbsentUntilPut(s, ops[..n], key);
      StillAbsent(Run(s, ops[..n]), ops[n], key);
    }
  }

  lemma StillAbsent<P>(s: State<P>, op: Op<P>, key: Key)
    requires key !in s.resources && !(op.Put? && Concerns(op, key))
    ensures key !in Step(s, op).resources
  {
  }

  /** Its own principal can delete a resource; once deleted, it reads as absent, for everybody, until the next put of it. */
  lemma DeletedReadsAbsent<P>(s: State<P>, kind: string, id: string, caller: string, ops: seq<Op<P>>, reader: string)
    requires (kind, id) in s.resources ==> s.resources[(kind, id)].principalId == caller
    requires forall i :: 0 <= i < |ops| ==> !(ops[i].Put? && Concerns(ops[i], (kind, id)))
    ensures
      var (after, r) := DeleteResource(s, kind, id, caller);
      && r == Ok((kind, id) in s.resources)
      && GetResource(Run(after, ops), kind, id, reader) == Ok(None)
  {
    AbsentUntilPut(DeleteResource(s, kind, id, caller).0, ops, (kind, id));
  }

  // ---- versions ----

  predicate IsPut<P>(s: State<P>, ops: seq<Op<P>>, i: nat, key: Key)
    requires i < |ops|
  {
    ops[i].Put? && Concerns(ops[i], key) && Succeeds(Before(s, ops, i), ops[i])
  }

  function VersionOf<P>(s: State<P>, key: Key): int {
    if key in s.resources then s.resources[key].version else 0
  }

  /** No delete of the resource between calls `from` and `k`. */
  predicate Undeleted<P>(ops: seq<Op<P>>, from: nat, k: nat, key: Key)
    requires k <= |ops|
  {
    forall g :: from <= g < k ==> !(ops[g].Delete? && Concerns(ops[g], key))
  }

  /** A put that goes through stores its resource one version on, and only if it expected the current version. */
  lemma PutAdvances<P>(s: State<P>, ops: seq<Op<P>>, i: nat, key: Key)
    requires i < |ops| && IsPut(s, ops, i, key)
    ensures
      var before, after, op := Before(s, ops, i), Before(s, ops, i + 1), ops[i];
      && (op.expected.Some? ==> op.expected.value == VersionOf(before, key))
      && key in after.resources
      && after.resources[key] == op.resource.(version := VersionOf(before, key) + 1)
  {
    BeforeNext(s, ops, i);
  }

  lemma VersionStep<P>(s: State<P>, op: Op<P>, key: Key)
    requires !(op.Delete? && Concerns(op, key))
    ensures VersionOf(s, key) <= VersionOf(Step(s, op), key)
  {
  }

  lemma {:induction false} VersionClimbs<P>(s: State<P>, ops: seq<Op<P>>, from: nat, k: nat, key: Key)
    requires from <= k <= |ops| && Undeleted(ops, from, k, key)
    ensures VersionOf(Before(s, ops, from), key) <= VersionOf(Before(s, ops, k), key)
  {
    if from < k {
      VersionClimbs(s, ops, from, k - 1, key);
      BeforeNext(s, ops, k - 1);
      assert !(ops[k - 1].Delete? && Concerns(ops[k - 1], key));
      VersionStep(Before(s, ops, k - 1), ops[k - 1], key);
    }
  }

  /** Compare-and-swap over every run: unless it is deleted in between, at most one put wins per expected version. */
  lemma OneWinnerPerVersion<P>(s: State<P>, ops: seq<Op<P>>, i: nat, j: nat, key: Key)
    requires i < j < |ops| && IsPut(s, ops, i, key) && IsPut(s, ops, j, key)
    requires ops[i].expected.Some? && ops[j].expected.Some? && Undeleted(ops, i + 1, j, key)
    ensures ops[i].expected.value < ops[j].expected.value
  {
    PutAdvances(s, ops, i, key);
    PutAdvances(s, ops, j, key);
    VersionClimbs(s, ops, i + 1, j, key);
  }

  /** A put is refused exactly for another principal's resource or a version that is not the current one. */
  lemma PutFailsExactly<P>(s: State<P>, resource: SharedResource<P>, expected: Option<int>)
    ensures
      var key, r := (resource.kind, resource.resourceId), PutResource(s, resource, expected).1;
      && (r == Err(Forbidden) <==> key in s.resources && s.resources[key].principalId != resource.principalId)
      && (r.Err? ==> r == Err(Forbidden) || r == Err(VersionConflict))
      && (r.Ok? <==>
            && (key in s.resources ==> s.resources[key].principalId == resource.principalId)
            && (expected.Some? ==> expected.value == VersionOf(s, key)))
  {
  }

  /** What was put reads back, one version on, until it expires, as long as its principal leaves it alone. */
  lemma PutReadsBack<P>(s: State<P>, resource: SharedResource<P>, expected: Option<int>, ops: seq<Op<P>>)
    requires PutResource(s, resource, expected).1.Ok?
    requires OnlyOthers(ops, (resource.kind, resource.resourceId), resource.principalId)
    ensures
      var key := (resource.kind, resource.resourceId);
      var now := Run(PutResource(s, resource, expected).0, ops);
      GetResource(now, resource.kind, resource.resourceId, resource.principalId) ==
        Ok(if now.clock < resource.expiresAt then Some(resource.(version := VersionOf(s, key) + 1)) else None)
  {
    OthersCannotReach(PutResource(s, resource, expected).0, ops, (resource.kind, resource.resourceId), resource.principalId + "'");
  }

  // ---- leases ----

  /** The principal of a stored lease stays the same as long as the query is not given up. */
  lemma {:induction false} LeaseStaysPrivate<P>(s: State<P>, ops: seq<Op<P>>, query: string, k: nat)
    requires k <= |ops| && query in s.leases
    requires forall g :: 0 <= g < k ==> !(ops[g].Release? && ops[g].lease.queryId == query)
    ensures
      var now := Before(s, ops, k);
      query in now.leases && now.leases[query].principalId == s.leases[query].principalId
  {
    if k == 0 {
      assert ops[..0] == [];
    } else {
      LeaseStaysPrivate(s, ops, query, k - 1);
      BeforeNext(s, ops, k - 1);
      PrincipalStays(Before(s, ops, k - 1), ops[k - 1], query);
    }
  }

  lemma PrincipalStays<P>(s: State<P>, op: Op<P>, query: string)
    requires query in s.leases && !(op.Release? && op.lease.queryId == query)
    ensures query in Step(s, op).leases && Step(s, op).leases[query].principalId == s.leases[query].principalId
  {
  }

  /** So over every run another principal's claim of the query is forbidden and changes nothing. */
  lemma ForeignClaimIsForbidden<P>(s: State<P>, ops: seq<Op<P>>, query: string, other: string, node: string, ttl: nat, pause: nat)
    requires query in s.leases && other != s.leases[query].principalId
    requires forall g :: 0 <= g < |ops| ==> !(ops[g].Release? && ops[g].lease.queryId == query)
    ensures ClaimQuery(Run(s, ops), query, other, node, ttl, pause) == (Run(s, ops), Err(Forbidden))
  {
    LeaseStaysPrivate(s, ops, query, |ops|);
    assert ops[..|ops|] == ops;
  }
}
