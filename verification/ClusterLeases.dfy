/**
  How leases protect a published query: a recovery on another node can put its verdict in place
  only after the publisher's last lease copy has expired or was released.
*/
module ClusterLeases {
  import opened Outcomes
  import CS = ClusterStore
  import LS = LeaseSafety
  import opened ClusterProtocol

  // ---- the publisher's last copy ----

  function HeldAfter(c: Context, s: System, held: Option<CS.QueryLease>, a: Action): Option<CS.QueryLease> {
    if !a.Publish? then held
    else
      var after := Next(c, s, a).publisher;
      match s.publisher
      case Claiming => if after.Fetching? then Some(after.lease) else held
      case Renewing(_) => if after.Polling? then Some(after.lease) else held
      case Releasing(_) => None
      case _ => held
  }

  /** The lease copy the publisher was granted last and has not released. */
  function Held(c: Context, start: System, actions: seq<Action>): Option<CS.QueryLease> {
    if actions == [] then None
    else
      var front := actions[..|actions| - 1];
      HeldAfter(c, Run(c, start, front), Held(c, start, front), actions[|actions| - 1])
  }

  lemma HeldOnce(c: Context, start: System, actions: seq<Action>, a: Action)
    ensures Held(c, start, actions + [a]) == HeldAfter(c, Run(c, start, actions), Held(c, start, actions), a)
  {
    assert (actions + [a])[..|actions|] == actions;
  }

  // ---- the invariant ----

  /** The publisher works under the copy it was granted last. */
  predicate HoldsCopy(s: System, held: Option<CS.QueryLease>) {
    match s.publisher
    case Claiming => held.None?
    case Fetching(_, _, lease) => held == Some(lease)
    case Writing(_, _, _, lease) => held == Some(lease)
    case Polling(lease) => held == Some(lease)
    case Reading(_, lease) => held == Some(lease)
    case Uploading(_, _, lease) => held == Some(lease)
    case Renewing(lease) => held == Some(lease)
    case Releasing(lease) => held == Some(lease)
    case Stopped => true
  }

  /** The copy is the publisher's, was issued, and is covered by the stored lease or has expired. */
  predicate CopyInv(c: Context, store: CS.State<SharedQuery>, held: Option<CS.QueryLease>) {
    held.Some? ==>
      && held.value.queryId == c.queryId && held.value.ownerNodeId == c.node && held.value.fencingToken <= store.nextFence
      && LS.Guarded(store, held.value)
  }

  predicate StoredInv(c: Context, store: CS.State<SharedQuery>) {
    c.queryId in store.leases ==>
      && store.leases[c.queryId].queryId == c.queryId && store.leases[c.queryId].principalId == c.principal
      && store.leases[c.queryId].fencingToken <= store.nextFence
  }

  /** The copy can never be renewed again, and its time is over. */
  predicate Ousted(store: CS.State<SharedQuery>, held: Option<CS.QueryLease>) {
    held.Some? ==> held.value.leaseExpiresAt <= store.clock && LS.Stale(store, held.value)
  }

  /** A recovery runs on another node, and once it has claimed, the publisher is ousted. */
  predicate Aloof(c: Context, store: CS.State<SharedQuery>, held: Option<CS.QueryLease>, r: Recovery) {
    match r
    case Claims(node, _) => node != c.node
    case Writes(_, lease) => lease.queryId == c.queryId && lease.ownerNodeId != c.node && Ousted(store, held)
    case Releases(lease) => lease.queryId == c.queryId && lease.ownerNodeId != c.node
    case Returned => true
  }

  /** The query has not been published yet. */
  predicate IsBeginning(p: Publisher) {
    p.Claiming? || ((p.Fetching? || p.Writing?) && p.write.First?)
  }

  ghost predicate LeaseInv(c: Context, s: System, held: Option<CS.QueryLease>) {
    && HoldsCopy(s, held) && CopyInv(c, s.store, held) && StoredInv(c, s.store)
    && (IsBeginning(s.publisher) ==> !Published(c, s))
    && (forall id :: id in s.recoveries ==> Aloof(c, s.store, held, s.recoveries[id]))
  }

  /** Changing only the clock, the fence or other queries keeps what is known of a copy. */
  lemma StoreMoves(c: Context, before: CS.State<SharedQuery>, after: CS.State<SharedQuery>, held: Option<CS.QueryLease>)
    requires CopyInv(c, before, held) && StoredInv(c, before)
    requires before.clock <= after.clock && before.nextFence <= after.nextFence
    requires c.queryId in before.leases <==> c.queryId in after.leases
    requires c.queryId in before.leases ==> before.leases[c.queryId] == after.leases[c.queryId]
    ensures CopyInv(c, after, held) && StoredInv(c, after) && (Ousted(before, held) ==> Ousted(after, held))
  {
  }

  lemma LeasesUntouched(c: Context, s: System, t: System, held: Option<CS.QueryLease>)
    requires LeaseInv(c, s, held) && t.recoveries == s.recoveries && HoldsCopy(t, held)
    requires IsBeginning(t.publisher) ==> !Published(c, t)
    requires s.store.clock <= t.store.clock && s.store.nextFence <= t.store.nextFence
    requires c.queryId in s.store.leases <==> c.queryId in t.store.leases
    requires c.queryId in s.store.leases ==> s.store.leases[c.queryId] == t.store.leases[c.queryId]
    ensures LeaseInv(c, t, held)
  {
    StoreMoves(c, s.store, t.store, held);
    forall id | id in t.recoveries ensures Aloof(c, t.store, held, t.recoveries[id]) {
      assert Aloof(c, s.store, held, s.recoveries[id]);
    }
  }

  // ---- the publisher's steps ----

  /** While the publisher reads and writes, the leases stay as they are. */
  lemma WorkShape(c: Context, s: System, chance: Chance)
    requires !s.publisher.Claiming? && !s.publisher.Renewing? && !s.publisher.Releasing?
    ensures
      var t := PublisherStep(c, s, chance);
      && t.recoveries == s.recoveries && t.store.leases == s.store.leases
      && t.store.clock == s.store.clock && t.store.nextFence == s.store.nextFence && !t.publisher.Claiming?
  {
    if s.publisher.Polling? || s.publisher.Reading? || s.publisher.Fetching? {
      LookTouches(c, s, chance);
      LookGoesOn(c, s, chance);
    }
  }

  lemma LookGoesOn(c: Context, s: System, chance: Chance)
    requires s.publisher.Polling? || s.publisher.Reading? || s.publisher.Fetching?
    ensures !PublisherStep(c, s, chance).publisher.Claiming?
  {
  }

  lemma WorkKeepsCopy(c: Context, s: System, chance: Chance, held: Option<CS.QueryLease>)
    requires HoldsCopy(s, held) && !s.publisher.Claiming? && !s.publisher.Renewing? && !s.publisher.Releasing?
    ensures HoldsCopy(PublisherStep(c, s, chance), held)
  {
  }

  lemma LooksAreNoBeginning(c: Context, s: System, chance: Chance)
    requires s.publisher.Polling? || s.publisher.Reading? || s.publisher.Uploading?
    ensures !IsBeginning(PublisherStep(c, s, chance).publisher)
  {
  }

  lemma WriteEndsBeginning(c: Context, s: System, chance: Chance)
    requires s.publisher.Writing?
    ensures !IsBeginning(PublisherStep(c, s, chance).publisher)
  {
  }

  lemma FetchGoesOn(c: Context, s: System, chance: Chance)
    requires s.publisher.Fetching?
    ensures IsBeginning(PublisherStep(c, s, chance).publisher) ==> IsBeginning(s.publisher)
  {
  }

  lemma WorkPublishes(c: Context, s: System, chance: Chance)
    requires IsBeginning(s.publisher) ==> !Published(c, s)
    requires !s.publisher.Claiming? && !s.publisher.Renewing? && !s.publisher.Releasing?
    ensures var t := PublisherStep(c, s, chance); IsBeginning(t.publisher) ==> !Published(c, t)
  {
    if s.publisher.Fetching? {
      FetchGoesOn(c, s, chance);
      LookTouches(c, s, chance);
    } else if s.publisher.Writing? {
      WriteEndsBeginning(c, s, chance);
    } else if !s.publisher.Stopped? {
      LooksAreNoBeginning(c, s, chance);
    }
  }

  /** Nobody recovers a query that has not been published. */
  lemma NoRecoveryYet(c: Context, s: System, id: nat)
    requires Inv(c, s) && !Published(c, s) && id in s.recoveries
    ensures s.recoveries[id].Releases? || s.recoveries[id].Returned?
  {
    assert RecoveryInv(c, s, s.recoveries[id]);
  }

  /** The publisher's claim either gives it a stored copy or stops it. */
  lemma ClaimShape(c: Context, s: System, chance: Chance, held: Option<CS.QueryLease>)
    requires s.publisher.Claiming? && held.None? && StoredInv(c, s.store)
    ensures
      var t, after := PublisherStep(c, s, chance), HeldAfter(c, s, held, Publish(chance));
      && t.recoveries == s.recoveries && t.store.resources == s.store.resources && !t.publisher.Claiming?
      && HoldsCopy(t, after) && CopyInv(c, t.store, after) && StoredInv(c, t.store)
  {
  }

  lemma ClaimKeepsLeaseInv(c: Context, s: System, chance: Chance, held: Option<CS.QueryLease>)
    requires Inv(c, s) && LeaseInv(c, s, held) && s.publisher.Claiming?
    ensures LeaseInv(c, PublisherStep(c, s, chance), HeldAfter(c, s, held, Publish(chance)))
  {
    var t, after := PublisherStep(c, s, chance), HeldAfter(c, s, held, Publish(chance));
    ClaimShape(c, s, chance, held);
    forall id | id in t.recoveries ensures Aloof(c, t.store, after, t.recoveries[id]) {
      NoRecoveryYet(c, s, id);
      assert Aloof(c, s.store, held, s.recoveries[id]);
    }
  }

  lemma RenewKeepsLeaseInv(c: Context, s: System, chance: Chance, held: Option<CS.QueryLease>)
    requires LeaseInv(c, s, held) && s.publisher.Renewing?
    ensures LeaseInv(c, PublisherStep(c, s, chance), HeldAfter(c, s, held, Publish(chance)))
  {
    var t := PublisherStep(c, s, chance);
    var held' := HeldAfter(c, s, held, Publish(chance));
    forall id | id in t.recoveries ensures Aloof(c, t.store, held', t.recoveries[id]) {
      assert Aloof(c, s.store, held, s.recoveries[id]);
    }
  }

  lemma ReleaseKeepsLeaseInv(c: Context, s: System, chance: Chance, held: Option<CS.QueryLease>)
    requires LeaseInv(c, s, held) && s.publisher.Releasing?
    ensures LeaseInv(c, PublisherStep(c, s, chance), None)
  {
    var t := PublisherStep(c, s, chance);
    forall id | id in t.recoveries ensures Aloof(c, t.store, None, t.recoveries[id]) {
      assert Aloof(c, s.store, held, s.recoveries[id]);
    }
  }

  lemma PublisherKeepsLeaseInv(c: Context, s: System, chance: Chance, held: Option<CS.QueryLease>)
    requires Inv(c, s) && LeaseInv(c, s, held)
    ensures LeaseInv(c, PublisherStep(c, s, chance), HeldAfter(c, s, held, Publish(chance)))
  {
    if s.publisher.Claiming? {
      ClaimKeepsLeaseInv(c, s, chance, held);
    } else if s.publisher.Renewing? {
      RenewKeepsLeaseInv(c, s, chance, held);
    } else if s.publisher.Releasing? {
      ReleaseKeepsLeaseInv(c, s, chance, held);
    } else {
      WorkShape(c, s, chance);
      WorkKeepsCopy(c, s, chance, held);
      WorkPublishes(c, s, chance);
      LeasesUntouched(c, s, PublisherStep(c, s, chance), held);
    }
  }

  // ---- a recovery's steps ----

  /** A claim on another node succeeds only over an expired copy, and ousts the publisher. */
  lemma ClaimOusts(c: Context, store: CS.State<SharedQuery>, held: Option<CS.QueryLease>, node: string, ttl: nat, pause: nat)
    requires CopyInv(c, store, held) && StoredInv(c, store) && node != c.node
    requires CS.ClaimQuery(store, c.queryId, c.principal, node, ttl, pause).1.Ok?
    ensures
      var (after, r) := CS.ClaimQuery(store, c.queryId, c.principal, node, ttl, pause);
      CopyInv(c, after, held) && StoredInv(c, after) && Ousted(after, held)
      && r.value.queryId == c.queryId && r.value.ownerNodeId == node
  {
  }

  /** A release by another node leaves the publisher's cover alone. */
  lemma ReleaseSpares(c: Context, store: CS.State<SharedQuery>, held: Option<CS.QueryLease>, lease: CS.QueryLease)
    requires CopyInv(c, store, held) && StoredInv(c, store) && lease.queryId == c.queryId && lease.ownerNodeId != c.node
    ensures
      var after := CS.ReleaseQuery(store, lease).0;
      CopyInv(c, after, held) && StoredInv(c, after) && (Ousted(store, held) ==> Ousted(after, held))
  {
  }

  /** What one recovery's step may do to the leases. */
  lemma OthersStay(c: Context, s: System, t: System, held: Option<CS.QueryLease>, id: nat)
    requires LeaseInv(c, s, held) && HoldsCopy(t, held) && CopyInv(c, t.store, held) && StoredInv(c, t.store)
    requires IsBeginning(t.publisher) ==> !Published(c, t)
    requires Ousted(s.store, held) ==> Ousted(t.store, held)
    requires id in t.recoveries && t.recoveries == s.recoveries[id := t.recoveries[id]]
    requires Aloof(c, t.store, held, t.recoveries[id])
    ensures LeaseInv(c, t, held)
  {
    forall i | i in t.recoveries ensures Aloof(c, t.store, held, t.recoveries[i]) {
      if i != id {
        assert Aloof(c, s.store, held, s.recoveries[i]);
      }
    }
  }

  lemma ClaimStepKeepsLeaseInv(c: Context, s: System, id: nat, pause: nat, held: Option<CS.QueryLease>)
    requires LeaseInv(c, s, held) && id in s.recoveries && s.recoveries[id].Claims?
    ensures LeaseInv(c, RecoveryStep(c, s, id, pause), held)
  {
    var t := RecoveryStep(c, s, id, pause);
    var node := s.recoveries[id].node;
    assert Aloof(c, s.store, held, s.recoveries[id]);
    if CS.ClaimQuery(s.store, c.queryId, c.principal, node, c.leaseTtl, pause).1.Ok? {
      ClaimOusts(c, s.store, held, node, c.leaseTtl, pause);
    }
    OthersStay(c, s, t, held, id);
  }

  lemma WriteStepKeepsLeaseInv(c: Context, s: System, id: nat, pause: nat, held: Option<CS.QueryLease>)
    requires Inv(c, s) && LeaseInv(c, s, held) && id in s.recoveries && s.recoveries[id].Writes?
    ensures LeaseInv(c, RecoveryStep(c, s, id, pause), held)
  {
    assert RecoveryInv(c, s, s.recoveries[id]);
    assert Aloof(c, s.store, held, s.recoveries[id]);
    OthersStay(c, s, RecoveryStep(c, s, id, pause), held, id);
  }

  lemma ReleaseStepKeepsLeaseInv(c: Context, s: System, id: nat, pause: nat, held: Option<CS.QueryLease>)
    requires LeaseInv(c, s, held) && id in s.recoveries && s.recoveries[id].Releases?
    ensures LeaseInv(c, RecoveryStep(c, s, id, pause), held)
  {
    assert Aloof(c, s.store, held, s.recoveries[id]);
    ReleaseSpares(c, s.store, held, s.recoveries[id].lease);
    OthersStay(c, s, RecoveryStep(c, s, id, pause), held, id);
  }

  lemma RecoveryKeepsLeaseInv(c: Context, s: System, id: nat, pause: nat, held: Option<CS.QueryLease>)
    requires Inv(c, s) && LeaseInv(c, s, held) && id in s.recoveries
    ensures LeaseInv(c, RecoveryStep(c, s, id, pause), held)
  {
    if s.recoveries[id].Claims? {
      ClaimStepKeepsLeaseInv(c, s, id, pause, held);
    } else if s.recoveries[id].Writes? {
      WriteStepKeepsLeaseInv(c, s, id, pause, held);
    } else if s.recoveries[id].Releases? {
      ReleaseStepKeepsLeaseInv(c, s, id, pause, held);
    }
  }

  // ---- runs ----

  predicate OnAnotherNode(c: Context, a: Action) {
    a.Recover? ==> a.node != c.node
  }

  lemma RecoverKeepsLeaseInv(c: Context, s: System, id: nat, node: string, held: Option<CS.QueryLease>)
    requires LeaseInv(c, s, held) && node != c.node
    ensures LeaseInv(c, s.(recoveries := s.recoveries[id := RecoveryStart(c, s, node)]), held)
  {
    OthersStay(c, s, s.(recoveries := s.recoveries[id := RecoveryStart(c, s, node)]), held, id);
  }

  /** Everything but the publisher and the recoveries leaves this query's lease and record alone. */
  lemma QuietShape(c: Context, s: System, a: Action)
    requires !a.Publish? && !a.Recover? && !a.Continue?
    ensures
      var t := Next(c, s, a);
      && t.recoveries == s.recoveries && t.publisher == s.publisher && (t.store == s.store || LeavesQueryAlone(c, s.store, t.store))
  {
  }

  lemma NextKeepsLeaseInv(c: Context, s: System, a: Action, held: Option<CS.QueryLease>)
    requires Inv(c, s) && LeaseInv(c, s, held) && OnAnotherNode(c, a)
    ensures LeaseInv(c, Next(c, s, a), HeldAfter(c, s, held, a))
  {
    match a
    case Publish(chance) => PublisherKeepsLeaseInv(c, s, chance, held);
    case Recover(id, node) => if id !in s.recoveries { RecoverKeepsLeaseInv(c, s, id, node, held); }
    case Continue(id, pause) => if id in s.recoveries { RecoveryKeepsLeaseInv(c, s, id, pause, held); }
    case _ =>
      QuietShape(c, s, a);
      LeasesUntouched(c, s, Next(c, s, a), held);
  }

  /** No recovery of this query runs on the publisher's own node. */
  predicate NoneAtHome(c: Context, actions: seq<Action>) {
    forall i :: 0 <= i < |actions| ==> OnAnotherNode(c, actions[i])
  }

  lemma {:induction false} RunKeepsLeaseInv(c: Context, start: System, actions: seq<Action>)
    requires Init(c, start) && NoneAtHome(c, actions)
    ensures Inv(c, Run(c, start, actions)) && LeaseInv(c, Run(c, start, actions), Held(c, start, actions))
  {
    InitInv(c, start);
    ReachableInv(c, start, actions);
    if actions != [] {
      var front := actions[..|actions| - 1];
      RunKeepsLeaseInv(c, start, front);
      NextKeepsLeaseInv(c, Run(c, start, front), actions[|actions| - 1], Held(c, start, front));
    }
  }

  /**
    Over every run without a recovery on the publisher's own node: when a recovery's verdict lands, the
    publisher's last copy has expired and cannot be renewed any more, or the publisher has released it.
  */
  lemma VerdictWaitsForTheLease(c: Context, start: System, actions: seq<Action>, id: nat, pause: nat)
    requires Init(c, start) && NoneAtHome(c, actions)
    requires
      var s := Run(c, start, actions);
      id in s.recoveries && !SameRecord(c, s.store, RecoveryStep(c, s, id, pause).store)
    ensures
      var s, held := Run(c, start, actions), Held(c, start, actions);
      if held.Some? then held.value.leaseExpiresAt <= s.store.clock && LS.Stale(s.store, held.value) else s.publisher.Stopped?
  {
    var s := Run(c, start, actions);
    RunKeepsLeaseInv(c, start, actions);
    RecoveryShape(c, s, id, pause);
    assert RecoveryInv(c, s, s.recoveries[id]) && Aloof(c, s.store, Held(c, start, actions), s.recoveries[id]);
  }

  /** While the publisher's copy is unexpired, a claim of its query succeeds exactly on its own node. */
  lemma LiveCopyYieldsOnlyAtHome(c: Context, start: System, actions: seq<Action>, node: string, ttl: nat, pause: nat)
    requires Init(c, start) && NoneAtHome(c, actions)
    requires
      var s, held := Run(c, start, actions), Held(c, start, actions);
      held.Some? && held.value.leaseExpiresAt > s.store.clock
    ensures CS.ClaimQuery(Run(c, start, actions).store, c.queryId, c.principal, node, ttl, pause).1.Ok? <==> node == c.node
  {
    RunKeepsLeaseInv(c, start, actions);
  }

  // ---- what an ousted publisher can still do ----

  /** How many more records a publisher can store whose lease is gone for good. */
  function WritesLeft(p: Publisher): nat {
    match p
    case Claiming => 2
    case Fetching(write, _, _) => if write.First? then 2 else 1
    case Writing(write, _, _, _) => if write.First? then 2 else 1
    case Renewing(_) => 0
    case Releasing(_) => 0
    case Stopped => 0
    case _ => 1
  }

  /** The lease the publisher works under can never be renewed again. */
  predicate IsOusted(c: Context, s: System) {
    && !s.publisher.Claiming?
    && (s.publisher.Stopped? || (s.publisher.lease.queryId == c.queryId && LS.Stale(s.store, s.publisher.lease)))
  }

  /** The publisher stores a record in step `a`. */
  predicate WritesIn(c: Context, s: System, a: Action) {
    a.Publish? && s.publisher.Writing?
  }

  function WritesMade(c: Context, s: System, actions: seq<Action>): nat {
    if actions == [] then 0
    else
      var front := actions[..|actions| - 1];
      WritesMade(c, s, front) + if WritesIn(c, Run(c, s, front), actions[|actions| - 1]) then 1 else 0
  }

  lemma OustedWorks(c: Context, s: System, chance: Chance)
    requires IsOusted(c, s) && !s.publisher.Renewing? && !s.publisher.Releasing?
    ensures
      var t := PublisherStep(c, s, chance);
      && IsOusted(c, t) && WritesLeft(t.publisher) + (if s.publisher.Writing? then 1 else 0) <= WritesLeft(s.publisher)
  {
    WorkShape(c, s, chance);
  }

  lemma OustedStops(c: Context, s: System, chance: Chance)
    requires IsOusted(c, s) && (s.publisher.Renewing? || s.publisher.Releasing?)
    ensures PublisherStep(c, s, chance).publisher.Stopped?
  {
  }

  lemma RecoveryLeavesLost(c: Context, s: System, id: nat, pause: nat, lease: CS.QueryLease)
    requires id in s.recoveries && LS.Stale(s.store, lease)
    ensures LS.Stale(RecoveryStep(c, s, id, pause).store, lease)
  {
    match s.recoveries[id]
    case Claims(node, _) => LS.StaysStale(s.store, CS.Claim(c.queryId, c.principal, node, c.leaseTtl, pause), lease);
    case Writes(read, own) => LS.StaysStale(s.store, CS.Put(Orphaned(c, read, own, s.store.clock), Some(read.version)), lease);
    case Releases(own) => LS.StaysStale(s.store, CS.Release(own), lease);
    case Returned =>
  }

  /** No activity of anybody else brings a lost lease back. */
  lemma StaysLost(c: Context, s: System, a: Action, lease: CS.QueryLease)
    requires !a.Publish? && lease.queryId == c.queryId && LS.Stale(s.store, lease)
    ensures LS.Stale(Next(c, s, a).store, lease)
  {
    if a.Continue? && a.id in s.recoveries {
      RecoveryLeavesLost(c, s, a.id, a.pause, lease);
    } else if !a.Continue? && !a.Recover? {
      QuietShape(c, s, a);
    }
  }

  lemma OustedNext(c: Context, s: System, a: Action)
    requires IsOusted(c, s)
    ensures
      var t := Next(c, s, a);
      IsOusted(c, t) && WritesLeft(t.publisher) + (if WritesIn(c, s, a) then 1 else 0) <= WritesLeft(s.publisher)
  {
    if a.Publish? {
      if s.publisher.Renewing? || s.publisher.Releasing? {
        OustedStops(c, s, a.chance);
      } else {
        OustedWorks(c, s, a.chance);
      }
    } else {
      PublisherStays(c, s, a);
      if !s.publisher.Stopped? {
        StaysLost(c, s, a, s.publisher.lease);
      }
    }
  }

  lemma PublisherStays(c: Context, s: System, a: Action)
    requires !a.Publish?
    ensures Next(c, s, a).publisher == s.publisher
  {
  }

  /** Over every run: once its lease is lost, a publisher stores at most the one record it is at, and then stops. */
  lemma {:induction false} OustedWritesAtMostOnce(c: Context, s: System, actions: seq<Action>)
    requires IsOusted(c, s)
    ensures IsOusted(c, Run(c, s, actions))
    ensures WritesMade(c, s, actions) + WritesLeft(Run(c, s, actions).publisher) <= WritesLeft(s.publisher)
  {
    if actions != [] {
      var front := actions[..|actions| - 1];
      OustedWritesAtMostOnce(c, s, front);
      OustedNext(c, Run(c, s, front), actions[|actions| - 1]);
    }
  }

  /** So it is after every run in which a recovery on another node has claimed the query. */
  lemma ClaimOustsPublisher(c: Context, start: System, actions: seq<Action>, id: nat, after: seq<Action>)
    requires Init(c, start) && NoneAtHome(c, actions)
    requires id in Run(c, start, actions).recoveries && Run(c, start, actions).recoveries[id].Writes?
    ensures IsOusted(c, Run(c, start, actions)) && WritesMade(c, Run(c, start, actions), after) <= 1
  {
    var s, held := Run(c, start, actions), Held(c, start, actions);
    RunKeepsLeaseInv(c, start, actions);
    assert Aloof(c, s.store, held, s.recoveries[id]) && RecoveryInv(c, s, s.recoveries[id]);
    OustedWritesAtMostOnce(c, s, after);
  }

  // A run with a recovery at home: it claims over the live lease, and its verdict lands.
  const LEASE_HOME := CS.QueryLease("q", "p", "a", 2, 10)
  const CLAIMED := Scene(0, FIRST, LEASE_HOME, Fetching(Refresh, SUBMITTED, LEASE_A), map[0 := Writes(FIRST, LEASE_HOME)])

  lemma HeldWhilePolling()
    ensures Held(Q, OPENING, [GO, GO, GO, GO]) == Some(LEASE_A)
  {
    var one, two, three := [] + [GO], [] + [GO] + [GO], [] + [GO] + [GO] + [GO];
    assert [GO, GO, GO, GO] == three + [GO];
    HeldOnce(Q, OPENING, [], GO);
    HeldOnce(Q, OPENING, one, GO);
    HeldOnce(Q, OPENING, two, GO);
    HeldOnce(Q, OPENING, three, GO);
    RunOnce(Q, OPENING, [], GO);
    RunOnce(Q, OPENING, one, GO);
    RunOnce(Q, OPENING, two, GO);
    assert Next(Q, OPENING, GO).publisher == Fetching(First, SUBMITTED, LEASE_A);
  }

  lemma ClaimAtHome(actions: seq<Action>)
    requires Run(Q, OPENING, actions) == POLLED
    ensures Run(Q, OPENING, actions + [Recover(0, "a")] + [Continue(0, 0)]) == CLAIMED
    ensures Held(Q, OPENING, actions + [Recover(0, "a")] + [Continue(0, 0)]) == Held(Q, OPENING, actions)
  {
    var claims := POLLED.(recoveries := map[0 := Claims("a", FIRST)]);
    assert Next(Q, POLLED, Recover(0, "a")) == claims;
    assert Next(Q, claims, Continue(0, 0)) == CLAIMED;
    RunOnce(Q, OPENING, actions, Recover(0, "a"));
    RunOnce(Q, OPENING, actions + [Recover(0, "a")], Continue(0, 0));
    HeldOnce(Q, OPENING, actions, Recover(0, "a"));
    HeldOnce(Q, OPENING, actions + [Recover(0, "a")], Continue(0, 0));
  }

  lemma LandsAtHome()
    ensures
      var landed := RecoveryStep(Q, CLAIMED, 0, 0);
      && Published(Q, landed) && Current(Q, landed).payload.status.phase.Failed?
      && !SameRecord(Q, CLAIMED.store, landed.store)
      && 0 in landed.recoveries && Q.queryId !in RecoveryStep(Q, landed, 0, 0).store.leases
  {
    assert RecoveryStep(Q, CLAIMED, 0, 0).recoveries[0] == Releases(LEASE_HOME);
  }

  /**
    A recovery on the publisher's own node does not wait: its verdict lands, and its release frees the
    query, while the publisher's copy is valid.
  */
  lemma HomeRecoveryDoesNotWait() returns (actions: seq<Action>)
    ensures Init(Q, OPENING)
    ensures 0 in Run(Q, OPENING, actions).recoveries
    ensures
      var s, held := Run(Q, OPENING, actions), Held(Q, OPENING, actions);
      var landed := RecoveryStep(Q, s, 0, 0);
      && held.Some? && held.value.leaseExpiresAt > s.store.clock
      && !SameRecord(Q, s.store, landed.store) && Published(Q, landed) && Current(Q, landed).payload.status.phase.Failed?
      && 0 in landed.recoveries && Q.queryId !in RecoveryStep(Q, landed, 0, 0).store.leases
  {
    SceneOne();
    HeldWhilePolling();
    actions := [GO, GO, GO, GO];
    ClaimAtHome(actions);
    actions := actions + [Recover(0, "a")] + [Continue(0, 0)];
    LandsAtHome();
  }
}
