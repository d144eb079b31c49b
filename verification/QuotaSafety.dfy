/** What every run of the store guarantees about distributed quota permits. */
module QuotaSafety {
  import opened Outcomes
  import opened ClusterStore
  import LT = LeaseTerms

  /** The unexpired permits of one (principal, quota) pair. */
  function Held<P>(s: State<P>, principal: string, quota: string): set<string> {
    Holders(Live(s.permits, s.clock), principal, quota)
  }

  /** Every acquisition for the pair asks for the same limit. */
  predicate FixedLimit<P>(ops: seq<Op<P>>, principal: string, quota: string, limit: nat) {
    forall i :: 0 <= i < |ops| && ops[i].Acquire? && ops[i].principal == principal && ops[i].quota == quota ==>
      ops[i].limit == limit
  }

  lemma SubsetIsNoLarger<T>(small: set<T>, large: set<T>)
    requires small <= large
    ensures |small| <= |large|
  {
    assert large == small + (large - small);
  }

  /** A call can only shrink the pair's permits, except a successful acquisition, which adds at most its own. */
  lemma HeldAfterStep<P>(s: State<P>, op: Op<P>, principal: string, quota: string)
    ensures
      var after := Held(Step(s, op), principal, quota);
      || after <= Held(s, principal, quota)
      || (op.Acquire? && op.principal == principal && op.quota == quota
          && |Held(s, principal, quota)| < op.limit && after <= Held(s, principal, quota) + {op.permit})
  {
  }

  /** Distributed quota over every run: unexpired permits never exceed the pair's limit. */
  lemma {:induction false} QuotaNeverExceeded<P>(s: State<P>, ops: seq<Op<P>>, principal: string, quota: string, limit: nat)
    requires FixedLimit(ops, principal, quota, limit)
    requires |Held(s, principal, quota)| <= limit
    ensures |Held(Run(s, ops), principal, quota)| <= limit
  {
    if ops != [] {
      var n := |ops| - 1;
      QuotaNeverExceeded(s, ops[..n], principal, quota, limit);
      var before := Run(s, ops[..n]);
      var held := Held(before, principal, quota);
      HeldAfterStep(before, ops[n], principal, quota);
      if Held(Run(s, ops), principal, quota) <= held {
        SubsetIsNoLarger(Held(Run(s, ops), principal, quota), held);
      } else {
        SubsetIsNoLarger(Held(Run(s, ops), principal, quota), held + {ops[n].permit});
      }
    }
  }

  /** Acquisition fails exactly when that many unexpired permits exist, and then changes nothing that counts. */
  lemma AcquireFailsExactly<P>(s: State<P>, principal: string, quota: string, limit: nat, ttl: nat, pause: nat, id: string)
    ensures
      var (after, r) := AcquireQuota(s, principal, quota, limit, ttl, pause, id);
      && (r.Err? <==> |Held(s, principal, quota)| >= limit)
      && (r.Err? ==> Held(after, principal, quota) == Held(s, principal, quota))
  {
    assert Live(Live(s.permits, s.clock), s.clock) == Live(s.permits, s.clock);
  }

  /** Over every run with one limit, acquisition fails exactly when as many permits as the limit are unexpired. */
  lemma FailsExactlyWhenFull<P>(s: State<P>, ops: seq<Op<P>>, principal: string, quota: string, limit: nat, ttl: nat, pause: nat, id: string)
    requires FixedLimit(ops, principal, quota, limit) && |Held(s, principal, quota)| <= limit
    ensures
      var r, full := AcquireQuota(Run(s, ops), principal, quota, limit, ttl, pause, id).1, |Held(Run(s, ops), principal, quota)| == limit;
      r == if full then Err(QuotaExhausted) else Ok(id)
  {
    QuotaNeverExceeded(s, ops, principal, quota, limit);
    AcquireFailsExactly(Run(s, ops), principal, quota, limit, ttl, pause, id);
  }

  /** With a fresh identifier a success adds one permit, live if its duration is positive, to those still unexpired. */
  lemma AcquireAddsOne<P>(s: State<P>, principal: string, quota: string, limit: nat, ttl: nat, pause: nat, id: string)
    requires id !in s.permits && |Held(s, principal, quota)| < limit
    ensures
      var after := AcquireQuota(s, principal, quota, limit, ttl, pause, id).0;
      var still := Held(s.(clock := s.clock + pause), principal, quota);
      Held(after, principal, quota) == still + (if ttl > 0 then {id} else {}) && id !in still
  {
    var after := AcquireQuota(s, principal, quota, limit, ttl, pause, id).0;
    StoreAddsOne(s, after, principal, quota, ttl, pause, id);
  }

  lemma StoreAddsOne<P>(s: State<P>, after: State<P>, principal: string, quota: string, ttl: nat, pause: nat, id: string)
    requires id !in s.permits && after.clock == s.clock + pause
    requires after.permits == Live(s.permits, s.clock)[id := Permit(principal, quota, Deadline(after.clock, ttl))]
    ensures
      var still := Held(s.(clock := s.clock + pause), principal, quota);
      Held(after, principal, quota) == still + (if ttl > 0 then {id} else {}) && id !in still
  {
  }

  // ---- exactly which permits are held ----

  /** Call `i` acquired the permit `id`. */
  predicate Acquires<P>(s: State<P>, ops: seq<Op<P>>, i: nat, id: string)
    requires i < |ops|
  {
    && ops[i].Acquire? && ops[i].permit == id
    && AcquireQuota(Before(s, ops, i), ops[i].principal, ops[i].quota, ops[i].limit, ops[i].ttl, ops[i].pause, id).1.Ok?
  }

  /** Call `j` frees the permit or takes its identifier for a new one. */
  predicate Ends<P>(s: State<P>, ops: seq<Op<P>>, j: nat, id: string)
    requires j < |ops|
  {
    (ops[j].Free? && ops[j].permit == id) || Acquires(s, ops, j, id)
  }

  /** Of the first `n` calls, `i` is the one that acquired the permit, and none since has ended it. */
  predicate Stands<P>(s: State<P>, ops: seq<Op<P>>, n: nat, i: nat, id: string)
    requires n <= |ops|
  {
    i < n && Acquires(s, ops, i, id) && forall j :: i < j < n ==> !Ends(s, ops, j, id)
  }

  /** When the permit acquired by call `i` runs out, counted from what was asked for. */
  function Until<P>(s: State<P>, ops: seq<Op<P>>, i: nat): int
    requires i < |ops| && ops[i].Acquire?
  {
    Before(s, ops, i).clock + ops[i].pause + LT.Span(ops[i].ttl)
  }

  /** What is stored under an identifier is what its acquisition asked for, and it stays until its time is over. */
  predicate StoredAs<P>(s: State<P>, ops: seq<Op<P>>, n: nat, i: nat, id: string)
    requires i < n <= |ops| && ops[i].Acquire?
  {
    var now := Before(s, ops, n);
    && (id in now.permits ==> now.permits[id] == Permit(ops[i].principal, ops[i].quota, Until(s, ops, i)))
    && (now.clock < Until(s, ops, i) ==> id in now.permits)
  }

  lemma AcquiredIsStored<P>(s: State<P>, ops: seq<Op<P>>, i: nat, id: string)
    requires i < |ops| && Acquires(s, ops, i, id)
    ensures StoredAs(s, ops, i + 1, i, id)
  {
    BeforeNext(s, ops, i);
  }

  lemma PermitStep<P>(s: State<P>, op: Op<P>, id: string)
    requires !(op.Free? && op.permit == id)
    requires op.Acquire? && op.permit == id ==> AcquireQuota(s, op.principal, op.quota, op.limit, op.ttl, op.pause, id).1.Err?
    ensures
      var t := Step(s, op);
      && s.clock <= t.clock && (id in t.permits ==> id in s.permits && t.permits[id] == s.permits[id])
      && (id in s.permits && s.permits[id].expiresAt > s.clock ==> id in t.permits)
  {
  }

  lemma StillStored<P>(s: State<P>, ops: seq<Op<P>>, n: nat, i: nat, id: string)
    requires i < n < |ops| && ops[i].Acquire? && StoredAs(s, ops, n, i, id) && !Ends(s, ops, n, id)
    ensures StoredAs(s, ops, n + 1, i, id)
  {
    BeforeNext(s, ops, n);
    PermitStep(Before(s, ops, n), ops[n], id);
  }

  lemma {:induction false} StandingIsStored<P>(s: State<P>, ops: seq<Op<P>>, n: nat, i: nat, id: string)
    requires n <= |ops| && Stands(s, ops, n, i, id)
    ensures StoredAs(s, ops, n, i, id)
  {
    if i == n - 1 {
      AcquiredIsStored(s, ops, i, id);
    } else {
      StandingIsStored(s, ops, n - 1, i, id);
      StillStored(s, ops, n - 1, i, id);
    }
  }

  lemma GoneStep<P>(s: State<P>, ops: seq<Op<P>>, n: nat, id: string)
    requires n < |ops| && !Acquires(s, ops, n, id)
    requires (ops[n].Free? && ops[n].permit == id) || id !in Before(s, ops, n).permits
    ensures id !in Before(s, ops, n + 1).permits
  {
    BeforeNext(s, ops, n);
    if !(ops[n].Free? && ops[n].permit == id) {
      PermitStep(Before(s, ops, n), ops[n], id);
    }
  }

  /** A permit that is stored was acquired by some call and has not been ended since. */
  lemma {:induction false} StoredWasAcquired<P>(s: State<P>, ops: seq<Op<P>>, n: nat, id: string)
    requires n <= |ops| && id !in s.permits && id in Before(s, ops, n).permits
    ensures exists i: nat :: Stands(s, ops, n, i, id)
  {
    assert n > 0 by {
      assert Before(s, ops, 0) == s;
    }
    if Acquires(s, ops, n - 1, id) {
      assert Stands(s, ops, n, n - 1, id);
    } else {
      if (ops[n - 1].Free? && ops[n - 1].permit == id) || id !in Before(s, ops, n - 1).permits {
        GoneStep(s, ops, n - 1, id);
      }
      StoredWasAcquired(s, ops, n - 1, id);
      var i: nat :| Stands(s, ops, n - 1, i, id);
      assert Stands(s, ops, n, i, id);
    }
  }

  /**
    Over every run: a permit counts for a (principal, quota) pair if and only if some call acquired it
    for that pair, it was neither freed nor acquired anew since, and the duration asked for is not over.
  */
  lemma HeldExactly<P>(s: State<P>, ops: seq<Op<P>>, principal: string, quota: string, id: string)
    requires id !in s.permits
    ensures id in Held(Run(s, ops), principal, quota) <==>
      exists i: nat :: Stands(s, ops, |ops|, i, id) && ops[i].principal == principal && ops[i].quota == quota
                  && Run(s, ops).clock < Until(s, ops, i)
  {
    var n, now := |ops|, Run(s, ops);
    assert Before(s, ops, n) == now by {
      assert ops[..n] == ops;
    }
    if id in now.permits {
      StoredWasAcquired(s, ops, n, id);
      var i: nat :| Stands(s, ops, n, i, id);
      StandingIsStored(s, ops, n, i, id);
      forall k: nat | Stands(s, ops, n, k, id) ensures k == i {
        OnlyOneStands(s, ops, n, i, k, id);
      }
    } else {
      forall i: nat | Stands(s, ops, n, i, id) ensures now.clock >= Until(s, ops, i) {
        StandingIsStored(s, ops, n, i, id);
      }
    }
  }

  lemma OnlyOneStands<P>(s: State<P>, ops: seq<Op<P>>, n: nat, i: nat, k: nat, id: string)
    requires n <= |ops| && Stands(s, ops, n, i, id) && Stands(s, ops, n, k, id)
    ensures i == k
  {
    assert i < k ==> Ends(s, ops, k, id);
    assert k < i ==> Ends(s, ops, i, id);
  }

  /** Freeing a held permit makes room: over every run with one limit the next acquisition of the pair succeeds. */
  lemma FreeingMakesRoom<P>(s: State<P>, ops: seq<Op<P>>, principal: string, quota: string, limit: nat, id: string,
                            ttl: nat, pause: nat, next: string)
    requires FixedLimit(ops, principal, quota, limit) && |Held(s, principal, quota)| <= limit
    requires id in Held(Run(s, ops), principal, quota)
    ensures
      var freed := Run(s, ops + [Free(id)]);
      && Held(freed, principal, quota) == Held(Run(s, ops), principal, quota) - {id}
      && AcquireQuota(freed, principal, quota, limit, ttl, pause, next).1 == Ok(next)
  {
    QuotaNeverExceeded(s, ops, principal, quota, limit);
    assert (ops + [Free(id)])[..|ops|] == ops;
    var freed := Run(s, ops + [Free(id)]);
    assert Held(freed, principal, quota) == Held(Run(s, ops), principal, quota) - {id};
    AcquireFailsExactly(freed, principal, quota, limit, ttl, pause, next);
  }
}
