/**
  Publishing a query to the cluster and recovering it on another node.

  One publisher (the node that accepted the query) and any number of recoveries, on
  any nodes, share the cluster store and the object store. A step is one store call,
  one object-store call or one look at the local record, and steps interleave freely
  with each other, with the collector that fills the local record, and with whatever
  else happens in the store.
*/
module ClusterProtocol {
  import opened Outcomes
  import opened Batches
  import opened ClusterStore
  import opened Queries
  import opened ResultReaders

  datatype QueryStatus = QueryStatus(phase: Phase, rows: nat, error: Option<string>)

  datatype SharedQuery = SharedQuery(
    status: QueryStatus, resultKey: Option<string>, batchCount: nat, fencingToken: int)

  type Record = SharedResource<SharedQuery>

  /** An Arrow IPC file; building it and taking it apart are inverse to each other. */
  datatype IpcFile = IpcFile(batches: seq<Batch>)

  /** What is fixed for one published query. */
  datatype Context = Context(queryId: string, principal: string, node: string, objectKey: string, leaseTtl: nat, resultTtl: nat)

  const SHARED_QUERY_TTL := 15 * 60 * 1000

  datatype Write = First | Refresh | Final

  datatype Publisher =
    | Claiming
    | Fetching(write: Write, payload: SharedQuery, lease: QueryLease)
    | Writing(write: Write, record: Record, expected: int, lease: QueryLease)
    | Polling(lease: QueryLease)
    | Reading(status: QueryStatus, lease: QueryLease)
    | Uploading(status: QueryStatus, file: IpcFile, lease: QueryLease)
    | Renewing(lease: QueryLease)
    | Releasing(lease: QueryLease)
    | Stopped

  datatype Recovery =
    | Claims(node: string, read: Record)
    | Writes(read: Record, lease: QueryLease)
    | Releases(lease: QueryLease)
    | Returned

  datatype System = System(
    store: State<SharedQuery>,
    objects: map<string, IpcFile>,
    publisher: Publisher,
    recoveries: map<nat, Recovery>,
    /** The owner's local record: its visible phase and error, absent once evicted. */
    local: Option<(Phase, Option<string>)>,
    /** The batches the collector has retained so far, and whether it has finished. */
    batches: seq<Batch>,
    done: bool,
    /** History: the record left by the publisher's terminal write, once it has landed. */
    final: Option<Record>)

  function RecordKey(c: Context): (string, string) {
    ("query", c.queryId)
  }

  predicate Published(c: Context, s: System) {
    RecordKey(c) in s.store.resources
  }

  function Current(c: Context, s: System): Record
    requires Published(c, s)
  {
    s.store.resources[RecordKey(c)]
  }

  // ---- the publisher ----

  function StatusOf(local: (Phase, Option<string>), batches: seq<Batch>): QueryStatus {
    QueryStatus(local.0, |Rows(batches)|, local.1)
  }

  /** The result reader opens only on an error-free record that is completed or cancelled. */
  predicate LocallyReadable(s: System) {
    s.local.Some? && s.local.value.1.None? && (s.local.value.0.Completed? || s.local.value.0.Cancelled?)
  }

  /** Outcomes the publisher does not control. */
  datatype Chance = Chance(ok: bool, leftover: Option<IpcFile>, pause: nat)

  function PublisherStep(c: Context, s: System, chance: Chance): System {
    match s.publisher
    case Claiming =>
      var (store, r) := ClaimQuery(s.store, c.queryId, c.principal, c.node, c.leaseTtl, chance.pause);
      if r.Err? then s.(store := store, publisher := Stopped)
      else
        var submitted := SharedQuery(QueryStatus(Submitted, 0, None), None, 0, r.value.fencingToken);
        s.(store := store, publisher := Fetching(First, submitted, r.value))
    case Polling(lease) =>
      if s.local.None? then s.(publisher := Stopped)
      else
        var status := StatusOf(s.local.value, s.batches);
        var bare := SharedQuery(status, None, 0, lease.fencingToken);
        if status.phase.Completed? then s.(publisher := Reading(status, lease))
        else s.(publisher := Fetching(if IsTerminal(status.phase) then Final else Refresh, bare, lease))
    case Reading(status, lease) =>
      if LocallyReadable(s) && chance.ok then s.(publisher := Uploading(status, IpcFile(s.batches), lease))
      else s.(publisher := Fetching(Final, SharedQuery(status, None, 0, lease.fencingToken), lease))
    case Uploading(status, file, lease) =>
      if chance.ok then
        var payload := SharedQuery(status, Some(c.objectKey), |file.batches|, lease.fencingToken);
        s.(objects := s.objects[c.objectKey := file], publisher := Fetching(Final, payload, lease))
      else
        var failed := status.(phase := Failed, error := Some("shared_result_store"));
        s.(objects := if chance.leftover.Some? then s.objects[c.objectKey := chance.leftover.value] else s.objects,
           publisher := Fetching(Final, SharedQuery(failed, None, 0, lease.fencingToken), lease))
    case Fetching(write, payload, lease) =>
      var record := SharedResource(c.queryId, c.principal, "query", 0, payload, s.store.clock + SHARED_QUERY_TTL);
      var r := GetResource(s.store, "query", c.queryId, c.principal);
      if r.Err? then s.(publisher := AfterWrite(write, lease, false))
      else s.(publisher := Writing(write, record, if r.value.Some? then r.value.value.version else 0, lease))
    case Writing(write, record, expected, lease) =>
      var (store, r) := PutResource(s.store, record, Some(expected));
      s.(store := store, publisher := AfterWrite(write, lease, r.Ok?),
         final := if write.Final? && r.Ok? then Some(r.value) else s.final)
    case Renewing(lease) =>
      var (store, r) := RenewQuery(s.store, lease, c.leaseTtl);
      s.(store := store, publisher := if r.Ok? then Polling(r.value) else Stopped)
    case Releasing(lease) => s.(store := ReleaseQuery(s.store, lease).0, publisher := Stopped)
    case Stopped => s
  }

  /** Only the first write is allowed to fail the publication; later failures are ignored. */
  function AfterWrite(write: Write, lease: QueryLease, ok: bool): Publisher {
    match write
    case First => if ok then Polling(lease) else Stopped
    case Refresh => Renewing(lease)
    case Final => Releasing(lease)
  }

  // ---- a recovery ----

  function RecoveryStart(c: Context, s: System, node: string): Recovery {
    match GetResource(s.store, "query", c.queryId, c.principal)
    case Ok(Some(record)) => if IsTerminal(record.payload.status.phase) then Returned else Claims(node, record)
    case _ => Returned
  }

  function Orphaned(c: Context, read: Record, lease: QueryLease, clock: int): Record {
    read.(
      payload := read.payload.(
        status := read.payload.status.(phase := Failed, error := Some("orphaned_query")),
        fencingToken := lease.fencingToken),
      expiresAt := clock + c.resultTtl)
  }

  function RecoveryStep(c: Context, s: System, id: nat, pause: nat): System
    requires id in s.recoveries
  {
    match s.recoveries[id]
    case Claims(node, read) =>
      var (store, r) := ClaimQuery(s.store, c.queryId, c.principal, node, c.leaseTtl, pause);
      s.(store := store, recoveries := s.recoveries[id := if r.Ok? then Writes(read, r.value) else Returned])
    case Writes(read, lease) =>
      var (store, r) := PutResource(s.store, Orphaned(c, read, lease, s.store.clock), Some(read.version));
      s.(store := store, recoveries := s.recoveries[id := if r.Ok? then Releases(lease) else Returned])
    case Releases(lease) =>
      s.(store := ReleaseQuery(s.store, lease).0, recoveries := s.recoveries[id := Returned])
    case Returned => s
  }

  // ---- runs ----

  datatype Action =
    | Publish(chance: Chance)
    | Recover(id: nat, node: string)
    | Continue(id: nat, pause: nat)
    /** Any store activity that concerns other queries, sessions or quotas, or none but the clock. */
    | Elsewhere(store: State<SharedQuery>)
    | Produce(batch: Batch)
    | Report(phase: Phase)
    | Finish(phase: Phase, error: Option<string>)
    | RequestCancel
    | Evict

  predicate LeavesQueryAlone(c: Context, before: State<SharedQuery>, after: State<SharedQuery>) {
    && before.clock <= after.clock && before.nextFence <= after.nextFence
    && (RecordKey(c) in before.resources <==> RecordKey(c) in after.resources)
    && (RecordKey(c) in before.resources ==> before.resources[RecordKey(c)] == after.resources[RecordKey(c)])
    && (c.queryId in before.leases <==> c.queryId in after.leases)
    && (c.queryId in before.leases ==> before.leases[c.queryId] == after.leases[c.queryId])
  }

  /** Actions that are not enabled leave the system as it is. */
  function Next(c: Context, s: System, a: Action): System {
    match a
    case Publish(chance) => PublisherStep(c, s, chance)
    case Recover(id, node) =>
      if id in s.recoveries then s else s.(recoveries := s.recoveries[id := RecoveryStart(c, s, node)])
    case Continue(id, pause) => if id in s.recoveries then RecoveryStep(c, s, id, pause) else s
    case Elsewhere(store) => if LeavesQueryAlone(c, s.store, store) then s.(store := store) else s
    case Produce(batch) => if s.done then s else s.(batches := s.batches + [batch])
    case Report(phase) => if s.done || IsTerminal(phase) || s.local.None? then s else s.(local := Some((phase, s.local.value.1)))
    case Finish(phase, error) =>
      if s.done || !IsTerminal(phase) then s else s.(done := true, local := Some((phase, error)))
    case RequestCancel => if s.local.Some? then s.(local := Some((Cancelling, s.local.value.1))) else s
    case Evict => if s.done then s.(local := None) else s
  }

  function Run(c: Context, s: System, actions: seq<Action>): System {
    if actions == [] then s else Next(c, Run(c, s, actions[..|actions| - 1]), actions[|actions| - 1])
  }

  /** The query has just been accepted: nothing about it is shared yet. */
  predicate Init(c: Context, s: System) {
    && !Published(c, s) && c.queryId !in s.store.leases && c.objectKey !in s.objects
    && s.publisher == Claiming && s.recoveries == map[]
    && s.local == Some((Submitted, None)) && s.batches == [] && !s.done && s.final == None
  }

  // ---- the invariant ----

  /** A payload that names a result names the stored object holding the owner's batches. */
  predicate Backed(c: Context, s: System, p: SharedQuery) {
    && (p.resultKey.Some? ==>
          && p.resultKey.value == c.objectKey && p.status.phase.Completed? && s.done
          && c.objectKey in s.objects && s.objects[c.objectKey].batches == s.batches
          && p.batchCount == |s.batches| && p.status.rows == |Rows(s.batches)|)
  }

  predicate RecordInv(c: Context, s: System) {
    Published(c, s) ==>
      var r := Current(c, s);
      && r.principalId == c.principal && r.kind == "query" && r.resourceId == c.queryId && r.version >= 1
      && Backed(c, s, r.payload)
      && (r.payload.resultKey.Some? ==> s.final.Some?)
      && (IsTerminal(r.payload.status.phase) && s.final.None? ==> r.payload.status.error == Some("orphaned_query"))
  }

  predicate PayloadInv(c: Context, s: System, write: Write, p: SharedQuery) {
    && (write.Final? <==> IsTerminal(p.status.phase))
    && Backed(c, s, p)
  }

  predicate PublisherInv(c: Context, s: System) {
    && (s.final.Some? ==> s.publisher.Releasing? || s.publisher.Stopped?)
    && match s.publisher
       case Fetching(write, payload, lease) => PayloadInv(c, s, write, payload)
       case Writing(write, record, expected, lease) =>
         && PayloadInv(c, s, write, record.payload)
         && record.principalId == c.principal && record.kind == "query" && record.resourceId == c.queryId
       case Reading(status, lease) => status.phase.Completed? && s.done && status.rows == |Rows(s.batches)|
       case Uploading(status, file, lease) =>
         status.phase.Completed? && s.done && file.batches == s.batches && status.rows == |Rows(s.batches)|
       case _ => true
  }

  /** What a recovery holds is non-terminal and either outdated or exactly the current record. */
  predicate ReadInv(c: Context, s: System, read: Record) {
    && Published(c, s) && !IsTerminal(read.payload.status.phase)
    && read.kind == "query" && read.resourceId == c.queryId && read.principalId == c.principal
    && read.version <= Current(c, s).version
    && (read.version == Current(c, s).version ==> read == Current(c, s))
  }

  predicate RecoveryInv(c: Context, s: System, r: Recovery) {
    (r.Claims? || r.Writes?) ==> ReadInv(c, s, r.read)
  }

  predicate FinalInv(c: Context, s: System) {
    s.final.Some? ==>
      Published(c, s) && Current(c, s) == s.final.value && IsTerminal(s.final.value.payload.status.phase)
  }

  ghost predicate Inv(c: Context, s: System) {
    && RecordInv(c, s) && PublisherInv(c, s) && FinalInv(c, s)
    && (s.local.Some? && s.local.value.0.Completed? ==> s.done)
    && (forall id :: id in s.recoveries ==> RecoveryInv(c, s, s.recoveries[id]))
  }

  lemma InitInv(c: Context, s: System)
    requires Init(c, s)
    ensures Inv(c, s)
  {
  }

  /** The stored record is the same before and after. */
  predicate SameRecord(c: Context, before: State<SharedQuery>, after: State<SharedQuery>) {
    && (RecordKey(c) in before.resources <==> RecordKey(c) in after.resources)
    && (RecordKey(c) in before.resources ==> before.resources[RecordKey(c)] == after.resources[RecordKey(c)])
  }

  lemma KeepRecord(c: Context, s: System, store: State<SharedQuery>, publisher: Publisher)
    requires Inv(c, s) && SameRecord(c, s.store, store)
    requires PublisherInv(c, s.(store := store, publisher := publisher))
    ensures Inv(c, s.(store := store, publisher := publisher))
  {
    var t := s.(store := store, publisher := publisher);
    forall id | id in t.recoveries ensures RecoveryInv(c, t, t.recoveries[id]) {
      assert RecoveryInv(c, s, s.recoveries[id]);
    }
  }

  /** A write that lands raises the version, so what recoveries hold becomes outdated. */
  lemma ReplaceRecord(c: Context, s: System, t: System)
    requires Inv(c, s) && Published(c, t) && t.recoveries == s.recoveries && t.local == s.local && t.done == s.done
    requires Published(c, s) ==> Current(c, t).version > Current(c, s).version
    requires RecordInv(c, t) && PublisherInv(c, t) && FinalInv(c, t)
    ensures Inv(c, t)
  {
    forall id | id in t.recoveries ensures RecoveryInv(c, t, t.recoveries[id]) {
      assert RecoveryInv(c, s, s.recoveries[id]);
    }
  }

  lemma UploadKeepsInv(c: Context, s: System, chance: Chance)
    requires Inv(c, s) && s.publisher.Uploading?
    ensures Inv(c, PublisherStep(c, s, chance))
  {
    var t := PublisherStep(c, s, chance);
    assert RecordInv(c, t);
    forall id | id in t.recoveries ensures RecoveryInv(c, t, t.recoveries[id]) {
      assert RecoveryInv(c, s, s.recoveries[id]);
    }
  }

  lemma PublisherWriteKeepsInv(c: Context, s: System, chance: Chance)
    requires Inv(c, s) && s.publisher.Writing?
    ensures Inv(c, PublisherStep(c, s, chance))
  {
    var t := PublisherStep(c, s, chance);
    var r := PutResource(s.store, s.publisher.record, Some(s.publisher.expected)).1;
    if r.Ok? {
      ReplaceRecord(c, s, t);
    } else {
      KeepRecord(c, s, t.store, t.publisher);
    }
  }

  /** Claiming, renewing and releasing do not touch resources and end in a harmless place. */
  lemma PublisherLeaseShape(c: Context, s: System, chance: Chance)
    requires s.publisher.Claiming? || s.publisher.Renewing? || s.publisher.Releasing?
    ensures
      var t := PublisherStep(c, s, chance);
      && t == s.(store := t.store, publisher := t.publisher)
      && t.store.resources == s.store.resources
      && (t.publisher.Stopped? || (!s.publisher.Releasing? && (t.publisher.Polling? || (
            && t.publisher.Fetching? && t.publisher.write.First?
            && t.publisher.payload.resultKey.None? && t.publisher.payload.status.phase.Submitted?))))
  {
  }

  lemma LookTouches(c: Context, s: System, chance: Chance)
    requires s.publisher.Polling? || s.publisher.Reading? || s.publisher.Fetching?
    ensures var t := PublisherStep(c, s, chance); t == s.(publisher := t.publisher)
  {
  }

  /** The publisher moves the stores and its own place only. */
  lemma PublisherTouches(c: Context, s: System, chance: Chance)
    ensures
      var t := PublisherStep(c, s, chance);
      t == s.(store := t.store, objects := t.objects, publisher := t.publisher, final := t.final)
  {
    if s.publisher.Claiming? || s.publisher.Renewing? || s.publisher.Releasing? {
      PublisherLeaseShape(c, s, chance);
    } else if s.publisher.Polling? || s.publisher.Reading? || s.publisher.Fetching? {
      LookTouches(c, s, chance);
    }
  }

  lemma PublisherLeaseKeepsInv(c: Context, s: System, chance: Chance)
    requires Inv(c, s) && (s.publisher.Claiming? || s.publisher.Renewing? || s.publisher.Releasing?)
    ensures Inv(c, PublisherStep(c, s, chance))
  {
    var t := PublisherStep(c, s, chance);
    PublisherLeaseShape(c, s, chance);
    KeepRecord(c, s, t.store, t.publisher);
  }

  lemma PublisherLookKeepsInv(c: Context, s: System, chance: Chance)
    requires Inv(c, s) && (s.publisher.Polling? || s.publisher.Reading? || s.publisher.Fetching?)
    ensures Inv(c, PublisherStep(c, s, chance))
  {
    LookTouches(c, s, chance);
    KeepRecord(c, s, s.store, PublisherStep(c, s, chance).publisher);
  }

  lemma PublisherKeepsInv(c: Context, s: System, chance: Chance)
    requires Inv(c, s)
    ensures Inv(c, PublisherStep(c, s, chance))
  {
    if s.publisher.Uploading? {
      UploadKeepsInv(c, s, chance);
    } else if s.publisher.Writing? {
      PublisherWriteKeepsInv(c, s, chance);
    } else if s.publisher.Polling? || s.publisher.Reading? || s.publisher.Fetching? {
      PublisherLookKeepsInv(c, s, chance);
    } else if !s.publisher.Stopped? {
      PublisherLeaseKeepsInv(c, s, chance);
    }
  }

  lemma SetRecovery(c: Context, s: System, id: nat, r: Recovery)
    requires Inv(c, s) && RecoveryInv(c, s, r)
    ensures Inv(c, s.(recoveries := s.recoveries[id := r]))
  {
    var t := s.(recoveries := s.recoveries[id := r]);
    forall i | i in t.recoveries ensures RecoveryInv(c, t, t.recoveries[i]) {
      if i != id {
        assert RecoveryInv(c, s, s.recoveries[i]);
      }
    }
  }

  /** A recovery's write lands only on the very record it read, which is non-terminal. */
  lemma RecoveryLandsOnItsRead(c: Context, s: System, id: nat)
    requires Inv(c, s) && id in s.recoveries && s.recoveries[id].Writes?
    requires
      var w := s.recoveries[id];
      PutResource(s.store, Orphaned(c, w.read, w.lease, s.store.clock), Some(w.read.version)).1.Ok?
    ensures Published(c, s) && Current(c, s) == s.recoveries[id].read
    ensures !IsTerminal(Current(c, s).payload.status.phase) && s.final.None?
  {
    assert RecoveryInv(c, s, s.recoveries[id]);
  }

  lemma RecoveryShape(c: Context, s: System, id: nat, pause: nat)
    requires id in s.recoveries
    ensures
      var t := RecoveryStep(c, s, id, pause);
      && t.recoveries == s.recoveries[id := t.recoveries[id]]
      && t == s.(store := t.store, recoveries := t.recoveries)
      && (t.store.resources == s.store.resources || (s.recoveries[id].Writes? && t.recoveries[id].Releases?))
      && (t.recoveries[id].Claims? || t.recoveries[id].Writes? ==> s.recoveries[id].Claims? && t.recoveries[id].read == s.recoveries[id].read)
  {
  }

  lemma RecoveryKeepsInv(c: Context, s: System, id: nat, pause: nat)
    requires Inv(c, s) && id in s.recoveries
    ensures Inv(c, RecoveryStep(c, s, id, pause))
  {
    var t := RecoveryStep(c, s, id, pause);
    var moved := s.(store := t.store);
    RecoveryShape(c, s, id, pause);
    assert RecoveryInv(c, s, s.recoveries[id]);
    if t.store.resources == s.store.resources {
      KeepRecord(c, s, t.store, s.publisher);
    } else {
      RecoveryLandsOnItsRead(c, s, id);
      ReplaceRecord(c, s, moved);
    }
    SetRecovery(c, moved, id, t.recoveries[id]);
  }

  /** The collector, a cancel request and eviction move only the local record. */
  lemma LocalKeepsInv(c: Context, s: System, a: Action)
    requires Inv(c, s) && (a.Produce? || a.Report? || a.Finish? || a.RequestCancel? || a.Evict?)
    ensures Inv(c, Next(c, s, a))
  {
    var t := Next(c, s, a);
    assert t == s.(local := t.local, batches := t.batches, done := t.done);
    forall id | id in t.recoveries ensures RecoveryInv(c, t, t.recoveries[id]) {
      assert RecoveryInv(c, s, s.recoveries[id]);
    }
  }

  lemma NextKeepsInv(c: Context, s: System, a: Action)
    requires Inv(c, s)
    ensures Inv(c, Next(c, s, a))
  {
    match a
    case Publish(chance) => PublisherKeepsInv(c, s, chance);
    case Recover(id, node) => if id !in s.recoveries { SetRecovery(c, s, id, RecoveryStart(c, s, node)); }
    case Continue(id, pause) => if id in s.recoveries { RecoveryKeepsInv(c, s, id, pause); }
    case Elsewhere(store) => if LeavesQueryAlone(c, s.store, store) { KeepRecord(c, s, store, s.publisher); }
    case _ => LocalKeepsInv(c, s, a);
  }

  lemma {:induction false} ReachableInv(c: Context, s: System, actions: seq<Action>)
    requires Inv(c, s)
    ensures Inv(c, Run(c, s, actions))
  {
    if actions != [] {
      ReachableInv(c, s, actions[..|actions| - 1]);
      NextKeepsInv(c, Run(c, s, actions[..|actions| - 1]), actions[|actions| - 1]);
    }
  }

  lemma RunOnce(c: Context, s: System, actions: seq<Action>, a: Action)
    ensures Run(c, s, actions + [a]) == Next(c, Run(c, s, actions), a)
  {
    assert (actions + [a])[..|actions|] == actions;
  }

  // ---- publish/recover safety ----

  /**
    In every reachable state, a recovery changes the shared record only by replacing the
    exact record it read, at that version, and that record is non-terminal.
  */
  lemma RecoveryNeverReplacesTerminal(c: Context, start: System, actions: seq<Action>, id: nat, pause: nat)
    requires Init(c, start)
    requires id in Run(c, start, actions).recoveries
    ensures
      var s := Run(c, start, actions);
      var t := RecoveryStep(c, s, id, pause);
      || SameRecord(c, s.store, t.store)
      || (&& s.recoveries[id].Writes? && Published(c, s) && Published(c, t)
          && Current(c, s) == s.recoveries[id].read && !IsTerminal(Current(c, s).payload.status.phase)
          && Current(c, t).version == Current(c, s).version + 1
          && Current(c, t).payload.status.error == Some("orphaned_query"))
  {
    InitInv(c, start);
    ReachableInv(c, start, actions);
    var s := Run(c, start, actions);
    RecoveryShape(c, s, id, pause);
    if RecoveryStep(c, s, id, pause).store.resources != s.store.resources {
      RecoveryLandsOnItsRead(c, s, id);
    }
  }

  /** A step that keeps the invariant keeps the publisher's terminal record. */
  lemma FinalStep(c: Context, s: System, a: Action)
    requires Inv(c, s) && s.final.Some?
    ensures Next(c, s, a).final == s.final
  {
    match a
    case Publish(chance) => assert s.publisher.Releasing? || s.publisher.Stopped?;
    case _ =>
  }

  lemma {:induction false} FinalKept(c: Context, s: System, after: seq<Action>)
    requires Inv(c, s) && s.final.Some?
    ensures Run(c, s, after).final == s.final
  {
    if after != [] {
      FinalKept(c, s, after[..|after| - 1]);
      ReachableInv(c, s, after[..|after| - 1]);
      FinalStep(c, Run(c, s, after[..|after| - 1]), after[|after| - 1]);
    }
  }

  /** Once the original publisher's terminal write has landed, the shared record never changes again. */
  lemma FinalWriteIsForever(c: Context, start: System, before: seq<Action>, after: seq<Action>)
    requires Init(c, start)
    requires Run(c, start, before).final.Some?
    ensures
      var s := Run(c, start, before);
      var t := Run(c, s, after);
      Published(c, s) && Published(c, t) && Current(c, t) == Current(c, s) == s.final.value
  {
    InitInv(c, start);
    ReachableInv(c, start, before);
    var s := Run(c, start, before);
    FinalKept(c, s, after);
    ReachableInv(c, s, after);
  }

  predicate LateWrite(c: Context, s: System, a: Action)
    requires Published(c, s)
  {
    a.Publish? && s.publisher.Writing? && s.publisher.expected == Current(c, s).version
  }

  lemma PublisherReplaces(c: Context, s: System, chance: Chance)
    requires Inv(c, s) && Published(c, s)
    ensures !SameRecord(c, s.store, PublisherStep(c, s, chance).store) <==> LateWrite(c, s, Publish(chance))
  {
    if s.publisher.Claiming? || s.publisher.Renewing? || s.publisher.Releasing? {
      PublisherLeaseShape(c, s, chance);
    }
  }

  /**
    A terminal record is replaced exactly when the publisher is about to write and saw the
    current version, and then it was a recovery's verdict: no fencing token is compared.
  */
  lemma TerminalReplacedOnlyByLatePublisher(c: Context, start: System, actions: seq<Action>, a: Action)
    requires Init(c, start)
    requires
      var s := Run(c, start, actions);
      Published(c, s) && IsTerminal(Current(c, s).payload.status.phase)
    ensures
      var s := Run(c, start, actions);
      && (!SameRecord(c, s.store, Next(c, s, a).store) <==> LateWrite(c, s, a))
      && (LateWrite(c, s, a) ==> Current(c, s).payload.status.error == Some("orphaned_query"))
  {
    InitInv(c, start);
    ReachableInv(c, start, actions);
    var s := Run(c, start, actions);
    match a
    case Publish(chance) => PublisherReplaces(c, s, chance);
    case Continue(id, pause) =>
      if id in s.recoveries {
        RecoveryNeverReplacesTerminal(c, start, actions, id, pause);
      }
    case _ =>
  }

  // A run in which this happens: node a polls, its lease runs out, node b recovers the query.
  const Q := Context("q", "p", "a", "k", 10, 10)
  const GO := Publish(Chance(true, None, 0))
  const LEASE_A := QueryLease("q", "p", "a", 1, 10)
  const LEASE_B := QueryLease("q", "p", "b", 2, 30)
  const SUBMITTED := SharedQuery(QueryStatus(Submitted, 0, None), None, 0, 1)
  const ORPHANED := SharedQuery(QueryStatus(Failed, 0, Some("orphaned_query")), None, 0, 2)

  function Stored(version: int, payload: SharedQuery, expiresAt: int): Record {
    SharedResource("q", "p", "query", version, payload, expiresAt)
  }

  function Scene(clock: int, record: Record, lease: QueryLease, publisher: Publisher, recoveries: map<nat, Recovery>): System {
    System(
      State(clock, map[("query", "q") := record], map["q" := lease], map[], lease.fencingToken),
      map[], publisher, recoveries, Some((Submitted, None)), [], false, None)
  }

  const FIRST := Stored(1, SUBMITTED, SHARED_QUERY_TTL)
  const OPENING := System(Empty(0), map[], Claiming, map[], Some((Submitted, None)), [], false, None)
  const POLLED := Scene(0, FIRST, LEASE_A, Fetching(Refresh, SUBMITTED, LEASE_A), map[])
  const EXPIRED := Scene(20, FIRST, LEASE_A, Fetching(Refresh, SUBMITTED, LEASE_A), map[])
  const TAKEN := Scene(20, FIRST, LEASE_B, Fetching(Refresh, SUBMITTED, LEASE_A), map[0 := Writes(FIRST, LEASE_B)])
  const VERDICT := Scene(20, Stored(2, ORPHANED, 30), LEASE_B, Fetching(Refresh, SUBMITTED, LEASE_A), map[0 := Releases(LEASE_B)])

  lemma SceneOne()
    ensures Run(Q, OPENING, [GO, GO, GO, GO]) == POLLED
  {
    var s1 := Next(Q, OPENING, GO);
    assert s1.publisher == Fetching(First, SUBMITTED, LEASE_A);
    var s2 := Next(Q, s1, GO);
    assert s2.publisher == Writing(First, Stored(0, SUBMITTED, SHARED_QUERY_TTL), 0, LEASE_A);
    var s3 := Next(Q, s2, GO);
    assert s3 == Scene(0, FIRST, LEASE_A, Polling(LEASE_A), map[]);
    assert [GO, GO, GO, GO] == [] + [GO] + [GO] + [GO] + [GO];
    RunOnce(Q, OPENING, [], GO);
    RunOnce(Q, OPENING, [] + [GO], GO);
    RunOnce(Q, OPENING, [] + [GO] + [GO], GO);
    RunOnce(Q, OPENING, [] + [GO] + [GO] + [GO], GO);
  }

  lemma SceneTwo(actions: seq<Action>)
    requires Run(Q, OPENING, actions) == POLLED
    ensures Run(Q, OPENING, actions + [Elsewhere(EXPIRED.store)] + [Recover(0, "b")] + [Continue(0, 0)]) == TAKEN
  {
    var claims := EXPIRED.(recoveries := map[0 := Claims("b", FIRST)]);
    assert Next(Q, POLLED, Elsewhere(EXPIRED.store)) == EXPIRED;
    assert Next(Q, EXPIRED, Recover(0, "b")) == claims;
    assert Next(Q, claims, Continue(0, 0)) == TAKEN;
    RunOnce(Q, OPENING, actions, Elsewhere(EXPIRED.store));
    RunOnce(Q, OPENING, actions + [Elsewhere(EXPIRED.store)], Recover(0, "b"));
    RunOnce(Q, OPENING, actions + [Elsewhere(EXPIRED.store)] + [Recover(0, "b")], Continue(0, 0));
  }

  lemma SceneThree(actions: seq<Action>)
    requires Run(Q, OPENING, actions) == TAKEN
    ensures
      var s := Run(Q, OPENING, actions + [Continue(0, 0)] + [GO]);
      var t := Next(Q, s, GO);
      && Published(Q, s) && Current(Q, s) == Stored(2, ORPHANED, 30)
      && Published(Q, t) && Current(Q, t) == Stored(3, SUBMITTED, 20 + SHARED_QUERY_TTL)
  {
    assert Next(Q, TAKEN, Continue(0, 0)) == VERDICT;
    RunOnce(Q, OPENING, actions, Continue(0, 0));
    RunOnce(Q, OPENING, actions + [Continue(0, 0)], GO);
    assert Next(Q, VERDICT, GO).publisher == Writing(Refresh, Stored(0, SUBMITTED, 20 + SHARED_QUERY_TTL), 2, LEASE_A);
  }

  /** Such a late publisher exists: a reachable record goes from a recovery's verdict back to submitted. */
  lemma RecoveredQueryCanBeRevived() returns (actions: seq<Action>)
    ensures Init(Q, OPENING)
    ensures
      var s := Run(Q, OPENING, actions);
      var t := Next(Q, s, GO);
      && Published(Q, s) && Current(Q, s).payload.status == QueryStatus(Failed, 0, Some("orphaned_query"))
      && Published(Q, t) && Current(Q, t).payload.status == QueryStatus(Submitted, 0, None)
  {
    SceneOne();
    actions := [GO, GO, GO, GO];
    SceneTwo(actions);
    actions := actions + [Elsewhere(EXPIRED.store)] + [Recover(0, "b")] + [Continue(0, 0)];
    SceneThree(actions);
    actions := actions + [Continue(0, 0)] + [GO];
  }

  // ---- store before advertise, and reading on another node ----

  /** A node without a local record opens the shared result: the record as stored in `s`, its object as stored in `t`. */
  function RemoteRead(c: Context, s: System, t: System): Result<seq<Batch>, string> {
    match GetResource(s.store, "query", c.queryId, c.principal)
    case Err(_) => Err("query_not_found")
    case Ok(None) => Err("query_not_found")
    case Ok(Some(record)) =>
      var shared := record.payload;
      if !shared.status.phase.Completed? then Err("query_running")
      else if shared.resultKey.None? || shared.resultKey.value !in t.objects then Err("shared_result_missing")
      else Ok(Window(t.objects[shared.resultKey.value].batches, 0, None))
  }

  /** The same for one partition; the range comes from the advertised batch count. */
  function RemotePartition(c: Context, s: System, t: System, p: nat, count: nat): Result<seq<Batch>, string> {
    if count == 0 || p >= count then Err("invalid_result_partition")
    else
      match GetResource(s.store, "query", c.queryId, c.principal)
      case Err(_) => Err("query_not_found")
      case Ok(None) => Err("query_not_found")
      case Ok(Some(record)) =>
        var shared := record.payload;
        if shared.resultKey.None? then Err("query_running")
        else if shared.resultKey.value !in t.objects then Err("query_not_found")
        else
          PartitionNeverUnderflows(shared.batchCount, p, count);
          var start := Start(shared.batchCount, p, count);
          var end := Start(shared.batchCount, p + 1, count);
          Ok(Window(t.objects[shared.resultKey.value].batches, start, Some(end - start)))
  }

  /** The record is visible (present and unexpired) and names a result. */
  predicate Advertises(c: Context, s: System) {
    Published(c, s) && Current(c, s).expiresAt > s.store.clock && Current(c, s).payload.resultKey.Some?
  }

  /**
    Store before advertise: in every reachable state a record that names a result has its
    object stored with the advertised batch count and the owner's batches. So a read on any
    other node, with anything happening between its two calls, succeeds exactly when the record
    it saw was visible and named a result, and returns what the owner retained.
  */
  lemma StoredBeforeAdvertised(c: Context, start: System, actions: seq<Action>, between: seq<Action>, p: nat, count: nat)
    requires Init(c, start) && p < count
    ensures
      var s := Run(c, start, actions);
      var t := Run(c, s, between);
      && (Published(c, s) && Current(c, s).payload.resultKey.Some? ==>
            var shared := Current(c, s).payload;
            && shared.resultKey.value in s.objects
            && s.objects[shared.resultKey.value].batches == s.batches
            && shared.batchCount == |s.batches| && s.done)
      && (RemoteRead(c, s, t).Ok? <==> Advertises(c, s))
      && (RemotePartition(c, s, t, p, count).Ok? <==> Advertises(c, s))
      && (Advertises(c, s) ==>
            RemoteRead(c, s, t) == Ok(s.batches) && RemotePartition(c, s, t, p, count) == Ok(Partition(s.batches, p, count)))
  {
    var s := Run(c, start, actions);
    InitInv(c, start);
    ReachableInv(c, start, actions);
    if Published(c, s) && Current(c, s).payload.resultKey.Some? {
      ObjectStays(c, s, between);
    }
    ReadsFollow(c, s, Run(c, s, between), p, count);
  }

  /** The object behind an advertised result is there, unchanged, at any later time. */
  lemma ObjectStays(c: Context, s: System, between: seq<Action>)
    requires Inv(c, s) && Published(c, s) && Current(c, s).payload.resultKey.Some?
    ensures
      var t := Run(c, s, between);
      && Published(c, t) && Current(c, t) == Current(c, s) && t.batches == s.batches
      && c.objectKey in t.objects && t.objects[c.objectKey].batches == s.batches
  {
    FinalKept(c, s, between);
    ReachableInv(c, s, between);
    ResultFrozen(c, s, between);
  }

  lemma ReadsFollow(c: Context, s: System, t: System, p: nat, count: nat)
    requires RecordInv(c, s) && p < count
    requires Published(c, s) && Current(c, s).payload.resultKey.Some? ==>
      c.objectKey in t.objects && t.objects[c.objectKey].batches == s.batches
    ensures RemoteRead(c, s, t).Ok? <==> Advertises(c, s)
    ensures RemotePartition(c, s, t, p, count).Ok? <==> Advertises(c, s)
    ensures Advertises(c, s) ==>
      RemoteRead(c, s, t) == Ok(s.batches) && RemotePartition(c, s, t, p, count) == Ok(Partition(s.batches, p, count))
  {
  }

  /** Once the collector is done, no step changes the retained batches. */
  lemma StepFrozen(c: Context, s: System, a: Action)
    requires s.done
    ensures Next(c, s, a).done && Next(c, s, a).batches == s.batches
  {
    match a
    case Publish(chance) => assert PublisherStep(c, s, chance).batches == s.batches;
    case Continue(id, pause) => if id in s.recoveries { RecoveryShape(c, s, id, pause); }
    case _ =>
  }

  lemma {:induction false} ResultFrozen(c: Context, s: System, after: seq<Action>)
    requires s.done
    ensures Run(c, s, after).done && Run(c, s, after).batches == s.batches
  {
    if after != [] {
      ResultFrozen(c, s, after[..|after| - 1]);
      StepFrozen(c, Run(c, s, after[..|after| - 1]), after[|after| - 1]);
    }
  }

  /** A result that was read once reads the same at any later time, until the record expires. */
  lemma SharedReadIsStable(c: Context, start: System, before: seq<Action>, between: seq<Action>, after: seq<Action>, meanwhile: seq<Action>)
    requires Init(c, start)
    requires
      var s := Run(c, start, before);
      RemoteRead(c, s, Run(c, s, between)).Ok?
    ensures
      var s := Run(c, start, before);
      var t := Run(c, s, after);
      RemoteRead(c, t, Run(c, t, meanwhile)) ==
        if Current(c, s).expiresAt > t.store.clock then RemoteRead(c, s, Run(c, s, between)) else Err("query_not_found")
  {
    var s := Run(c, start, before);
    var t := Run(c, s, after);
    InitInv(c, start);
    ReachableInv(c, start, before);
    ObjectStays(c, s, between);
    ObjectStays(c, s, after);
    ReachableInv(c, s, after);
    ObjectStays(c, t, meanwhile);
  }
}
