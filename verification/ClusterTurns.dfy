/**
  What one undisturbed turn of the publisher or of a recovery achieves: which record it leaves
  behind, for how long it can be seen, and what becomes of the lease.
*/
module ClusterTurns {
  import opened Outcomes
  import opened Batches
  import CS = ClusterStore
  import LT = LeaseTerms
  import opened Queries
  import opened ClusterProtocol

  /** How long a published record can be seen: a quarter of an hour. */
  const VISIBLE_FOR := 900_000

  predicate IsVisible(c: Context, s: System) {
    Published(c, s) && Current(c, s).expiresAt > s.store.clock
  }

  function VersionOf(c: Context, s: System): int {
    if Published(c, s) then Current(c, s).version else 0
  }

  /** The record a publisher's write leaves behind. */
  function Shared(c: Context, s: System, status: QueryStatus, key: Option<string>, count: nat, token: int): Record {
    CS.SharedResource(c.queryId, c.principal, "query", VersionOf(c, s) + 1, SharedQuery(status, key, count, token), s.store.clock + VISIBLE_FOR)
  }

  /** `t` is `s` with `record` in place of the shared record. */
  predicate Stores(c: Context, s: System, t: System, record: Record) {
    && Published(c, t) && Current(c, t) == record
    && t.store.leases == s.store.leases && t.store.clock == s.store.clock && t.store.nextFence == s.store.nextFence
    && t.objects == s.objects && t.local == s.local && t.batches == s.batches && t.done == s.done
  }

  function Twice(c: Context, s: System, a: Chance, b: Chance): System {
    PublisherStep(c, PublisherStep(c, s, a), b)
  }

  /**
    Fetching the version and writing, with nothing in between: the write lands exactly if no record is
    there or the one that is can still be seen. An expired record reads as absent but keeps its
    version, so nothing can be written over it.
  */
  lemma WriteLandsExactly(c: Context, s: System, a: Chance, b: Chance)
    requires RecordInv(c, s) && s.publisher.Fetching?
    ensures
      var Fetching(write, payload, lease) := s.publisher;
      var t := Twice(c, s, a, b);
      var lands := !Published(c, s) || IsVisible(c, s);
      && (lands ==> Stores(c, s, t, Shared(c, s, payload.status, payload.resultKey, payload.batchCount, payload.fencingToken)))
      && (lands && write.Final? ==> t.final == Some(Current(c, t))) && (!(lands && write.Final?) ==> t.final == s.final)
      && (!lands ==> t.store == s.store)
      && (write.First? ==> t.publisher == if lands then Polling(lease) else Stopped)
      && (write.Refresh? ==> t.publisher == Renewing(lease))
      && (write.Final? ==> t.publisher == Releasing(lease))
  {
  }

  /** The stored lease of the query is the one `lease` names. */
  predicate Owns(c: Context, s: System, lease: CS.QueryLease) {
    lease.queryId == c.queryId && CS.IsCurrent(s.store, lease) && s.store.leases[c.queryId].queryId == c.queryId
  }

  // ---- the publisher ----

  /** The owner's local record as it is shared. */
  function LocalStatus(s: System): QueryStatus
    requires s.local.Some?
  {
    QueryStatus(s.local.value.0, |Rows(s.batches)|, s.local.value.1)
  }

  lemma PollStep(c: Context, s: System, a: Chance)
    requires s.publisher.Polling? && s.local.Some?
    ensures
      var lease, t := s.publisher.lease, PublisherStep(c, s, a);
      var bare := SharedQuery(LocalStatus(s), None, 0, lease.fencingToken);
      t == s.(publisher :=
        if s.local.value.0.Completed? then Reading(LocalStatus(s), lease)
        else Fetching(if IsTerminal(s.local.value.0) then Final else Refresh, bare, lease))
  {
  }

  /** The first turn of a free query: it is claimed, published as submitted, and polled from then on. */
  lemma FirstTurn(c: Context, s: System, a: Chance, b: Chance, d: Chance)
    requires RecordInv(c, s) && s.publisher.Claiming? && !Published(c, s) && c.queryId !in s.store.leases
    ensures
      var claimed := PublisherStep(c, s, a);
      var t := Twice(c, claimed, b, d);
      var lease := CS.QueryLease(c.queryId, c.principal, c.node, s.store.nextFence + 1, s.store.clock + a.pause + LT.Span(c.leaseTtl));
      && t.publisher == Polling(lease) && c.queryId in t.store.leases && t.store.leases[c.queryId] == lease
      && Published(c, t)
      && Current(c, t) == Shared(c, claimed, QueryStatus(Submitted, 0, None), None, 0, lease.fencingToken)
      && t.store.clock == s.store.clock + a.pause
  {
    WriteLandsExactly(c, PublisherStep(c, s, a), b, d);
  }

  /**
    A turn while the query runs: its local status is published, with no result, to be seen for a quarter of
    an hour, and the lease is renewed for its whole duration.
  */
  lemma RefreshTurn(c: Context, s: System, a: Chance, b: Chance, d: Chance, e: Chance)
    requires RecordInv(c, s) && s.publisher.Polling? && s.local.Some? && !IsTerminal(s.local.value.0)
    requires IsVisible(c, s) && Owns(c, s, s.publisher.lease)
    ensures
      var lease := s.publisher.lease;
      var t := PublisherStep(c, Twice(c, PublisherStep(c, s, a), b, d), e);
      && Published(c, t) && Current(c, t) == Shared(c, s, LocalStatus(s), None, 0, lease.fencingToken)
      && t.publisher.Polling? && t.publisher.lease.fencingToken == lease.fencingToken
      && t.publisher.lease.leaseExpiresAt == s.store.clock + LT.Span(c.leaseTtl)
      && Owns(c, t, t.publisher.lease) && t.final == s.final
  {
    PollStep(c, s, a);
    WriteLandsExactly(c, PublisherStep(c, s, a), b, d);
    RenewStep(c, Twice(c, PublisherStep(c, s, a), b, d), e);
  }

  lemma RenewStep(c: Context, s: System, e: Chance)
    requires s.publisher.Renewing? && Owns(c, s, s.publisher.lease)
    ensures
      var t := PublisherStep(c, s, e);
      && t.publisher.Polling? && t.publisher.lease.fencingToken == s.publisher.lease.fencingToken
      && t.publisher.lease.leaseExpiresAt == s.store.clock + LT.Span(c.leaseTtl)
      && Owns(c, t, t.publisher.lease) && t.store.resources == s.store.resources && t.final == s.final
  {
  }

  lemma ReleaseStep(c: Context, s: System, e: Chance)
    requires s.publisher.Releasing? && Owns(c, s, s.publisher.lease)
    ensures
      var t := PublisherStep(c, s, e);
      && t.publisher.Stopped? && c.queryId !in t.store.leases && t.store.resources == s.store.resources
      && t.objects == s.objects && t.final == s.final
  {
  }

  /** What the publisher leaves behind when it stops: its terminal record, and no lease. */
  predicate Concluded(c: Context, t: System, record: Record) {
    && Published(c, t) && Current(c, t) == record && t.final == Some(record)
    && t.publisher.Stopped? && c.queryId !in t.store.leases
  }

  /** The last three steps: fetch, write, release. */
  lemma FinalWrite(c: Context, s: System, a: Chance, b: Chance, d: Chance)
    requires RecordInv(c, s) && s.publisher.Fetching? && s.publisher.write.Final? && IsVisible(c, s)
    requires Owns(c, s, s.publisher.lease)
    ensures
      var payload, t := s.publisher.payload, PublisherStep(c, Twice(c, s, a, b), d);
      && Concluded(c, t, Shared(c, s, payload.status, payload.resultKey, payload.batchCount, payload.fencingToken))
      && t.objects == s.objects
  {
    WriteLandsExactly(c, s, a, b);
    ReleaseStep(c, Twice(c, s, a, b), d);
  }

  /** The last turn of a failed or cancelled query: its outcome is published and the lease given up. */
  lemma FailedTurn(c: Context, s: System, a: Chance, b: Chance, d: Chance, e: Chance)
    requires RecordInv(c, s) && s.publisher.Polling? && s.local.Some? && (s.local.value.0.Failed? || s.local.value.0.Cancelled?)
    requires IsVisible(c, s) && Owns(c, s, s.publisher.lease)
    ensures
      var t := PublisherStep(c, Twice(c, PublisherStep(c, s, a), b, d), e);
      Concluded(c, t, Shared(c, s, LocalStatus(s), None, 0, s.publisher.lease.fencingToken))
  {
    PollStep(c, s, a);
    FinalWrite(c, PublisherStep(c, s, a), b, d, e);
  }

  /** Reading the local result, and storing it. */
  lemma StoreResult(c: Context, s: System, read: Chance, upload: Chance)
    requires s.publisher.Reading? && s.local.Some? && s.local.value.0.Completed? && s.local.value.1.None? && read.ok
    ensures
      var status, lease, t := s.publisher.status, s.publisher.lease, Twice(c, s, read, upload);
      && t.store == s.store && t.final == s.final && t.publisher.Fetching? && t.publisher.write.Final? && t.publisher.lease == lease
      && (upload.ok ==>
            && t.objects == s.objects[c.objectKey := IpcFile(s.batches)]
            && t.publisher.payload == SharedQuery(status, Some(c.objectKey), |s.batches|, lease.fencingToken))
      && (!upload.ok ==>
            t.publisher.payload ==
              SharedQuery(QueryStatus(Failed, status.rows, Some("shared_result_store")), None, 0, lease.fencingToken))
  {
  }

  /**
    The last turn of a completed query whose result can be read: with a working object store the whole
    result, even an empty one, is stored under its key and named by the record; otherwise the query is
    published as failed. Either way the lease is given up.
  */
  lemma CompletedTurn(c: Context, s: System, a: Chance, read: Chance, upload: Chance, b: Chance, d: Chance, e: Chance)
    requires RecordInv(c, s) && s.publisher.Polling? && s.local.Some? && s.local.value.0.Completed? && s.local.value.1.None?
    requires read.ok && IsVisible(c, s) && Owns(c, s, s.publisher.lease)
    requires Current(c, s).payload.resultKey.None?
    ensures
      var token := s.publisher.lease.fencingToken;
      var t := PublisherStep(c, Twice(c, Twice(c, PublisherStep(c, s, a), read, upload), b, d), e);
      && (upload.ok ==>
            && Concluded(c, t, Shared(c, s, LocalStatus(s), Some(c.objectKey), |s.batches|, token))
            && c.objectKey in t.objects && t.objects[c.objectKey].batches == s.batches)
      && (!upload.ok ==>
            Concluded(c, t, Shared(c, s, QueryStatus(Failed, |Rows(s.batches)|, Some("shared_result_store")), None, 0, token)))
  {
    PollStep(c, s, a);
    var polled := PublisherStep(c, s, a);
    StoreResult(c, polled, read, upload);
    SameRecordStays(c, s, Twice(c, polled, read, upload));
    FinalWrite(c, Twice(c, polled, read, upload), b, d, e);
  }

  /** While the record names no result, moving objects and the publisher does not matter to it. */
  lemma SameRecordStays(c: Context, s: System, t: System)
    requires RecordInv(c, s) && t.store == s.store && t.final == s.final
    requires Published(c, s) ==> Current(c, s).payload.resultKey.None?
    ensures RecordInv(c, t) && (IsVisible(c, s) <==> IsVisible(c, t)) && VersionOf(c, t) == VersionOf(c, s)
  {
  }

  /** If the result cannot be read, completion is published without one. */
  lemma UnreadTurn(c: Context, s: System, a: Chance, read: Chance, b: Chance, d: Chance, e: Chance)
    requires RecordInv(c, s) && s.publisher.Polling? && s.local.Some? && s.local.value.0.Completed?
    requires !read.ok || s.local.value.1.Some?
    requires IsVisible(c, s) && Owns(c, s, s.publisher.lease)
    ensures
      var t := PublisherStep(c, Twice(c, PublisherStep(c, PublisherStep(c, s, a), read), b, d), e);
      Concluded(c, t, Shared(c, s, LocalStatus(s), None, 0, s.publisher.lease.fencingToken))
  {
    PollStep(c, s, a);
    UnreadStep(c, PublisherStep(c, s, a), read);
    FinalWrite(c, PublisherStep(c, PublisherStep(c, s, a), read), b, d, e);
  }

  lemma UnreadStep(c: Context, s: System, read: Chance)
    requires s.publisher.Reading? && (!read.ok || (s.local.Some? && s.local.value.1.Some?))
    ensures
      var status, lease := s.publisher.status, s.publisher.lease;
      PublisherStep(c, s, read) == s.(publisher := Fetching(Final, SharedQuery(status, None, 0, lease.fencingToken), lease))
  {
  }

  // ---- a recovery ----

  /** Whether a claim from `node` goes through. */
  predicate IsClaimable(c: Context, s: System, node: string) {
    c.queryId in s.store.leases ==>
      && s.store.leases[c.queryId].principalId == c.principal
      && (s.store.leases[c.queryId].ownerNodeId == node || s.store.leases[c.queryId].leaseExpiresAt <= s.store.clock)
  }

  function Started(c: Context, s: System, id: nat, node: string): System {
    s.(recoveries := s.recoveries[id := RecoveryStart(c, s, node)])
  }

  /** A recovery that starts does so on the record it can see, unless that is terminal already. */
  lemma StartsExactly(c: Context, s: System, node: string)
    requires RecordInv(c, s)
    ensures RecoveryStart(c, s, node) ==
      if IsVisible(c, s) && !IsTerminal(Current(c, s).payload.status.phase) then Claims(node, Current(c, s)) else Returned
  {
  }

  /**
    An undisturbed recovery of an unfinished query, exactly if its lease can be claimed: the record says
    failed with `orphaned_query`, keeps everything else, carries the new fencing token, can be seen for the
    result's lifetime, and the lease is given up again. Otherwise nothing changes.
  */
  lemma RecoveryTurn(c: Context, s: System, id: nat, node: string, pause: nat, x: nat, y: nat)
    requires RecordInv(c, s) && id !in s.recoveries
    requires IsVisible(c, s) && !IsTerminal(Current(c, s).payload.status.phase)
    ensures
      var read, claimed := Current(c, s), RecoveryStep(c, Started(c, s, id, node), id, pause);
      && id in claimed.recoveries
      && (!IsClaimable(c, s, node) ==> claimed.recoveries[id].Returned? && claimed.store == s.store)
      && (IsClaimable(c, s, node) ==>
            var t := RecoveryStep(c, RecoveryStep(c, claimed, id, x), id, y);
            && Published(c, t) && t.recoveries[id].Returned? && c.queryId !in t.store.leases
            && Current(c, t) == read.(
                 version := read.version + 1,
                 expiresAt := s.store.clock + pause + c.resultTtl,
                 payload := read.payload.(
                   status := QueryStatus(Failed, read.payload.status.rows, Some("orphaned_query")),
                   fencingToken := s.store.nextFence + 1)))
  {
    StartsExactly(c, s, node);
    if IsClaimable(c, s, node) {
      ClaimedThenWritten(c, Started(c, s, id, node), id, pause, x, y);
    }
  }

  lemma ClaimStep(c: Context, s: System, id: nat, pause: nat)
    requires id in s.recoveries && s.recoveries[id].Claims? && IsClaimable(c, s, s.recoveries[id].node)
    ensures
      var t, node := RecoveryStep(c, s, id, pause), s.recoveries[id].node;
      && id in t.recoveries && t.recoveries[id].Writes? && t.recoveries[id].read == s.recoveries[id].read
      && t.store.clock == s.store.clock + pause && t.store.resources == s.store.resources
      && c.queryId in t.store.leases && t.store.leases[c.queryId] == t.recoveries[id].lease
      && t.recoveries[id].lease.fencingToken == s.store.nextFence + 1 && t.recoveries[id].lease.queryId == c.queryId
  {
  }

  lemma VerdictStep(c: Context, s: System, id: nat, x: nat)
    requires RecordInv(c, s) && id in s.recoveries && s.recoveries[id].Writes? && Published(c, s) && Current(c, s) == s.recoveries[id].read
    ensures
      var t, read, lease := RecoveryStep(c, s, id, x), s.recoveries[id].read, s.recoveries[id].lease;
      && id in t.recoveries && t.recoveries[id] == Releases(lease) && t.store.leases == s.store.leases && Published(c, t)
      && Current(c, t) == read.(
           version := read.version + 1,
           expiresAt := s.store.clock + c.resultTtl,
           payload := read.payload.(
             status := QueryStatus(Failed, read.payload.status.rows, Some("orphaned_query")),
             fencingToken := lease.fencingToken))
  {
  }

  lemma ClaimedThenWritten(c: Context, s: System, id: nat, pause: nat, x: nat, y: nat)
    requires RecordInv(c, s) && id in s.recoveries && s.recoveries[id].Claims? && IsClaimable(c, s, s.recoveries[id].node)
    requires Published(c, s) && Current(c, s) == s.recoveries[id].read
    ensures
      var read, claimed := s.recoveries[id].read, RecoveryStep(c, s, id, pause);
      && id in claimed.recoveries
      && var written := RecoveryStep(c, claimed, id, x);
      && id in written.recoveries
      && var t := RecoveryStep(c, written, id, y);
      && id in t.recoveries && Published(c, t) && t.recoveries[id].Returned? && c.queryId !in t.store.leases
      && Current(c, t) == read.(
           version := read.version + 1,
           expiresAt := s.store.clock + pause + c.resultTtl,
           payload := read.payload.(
             status := QueryStatus(Failed, read.payload.status.rows, Some("orphaned_query")),
             fencingToken := s.store.nextFence + 1))
  {
    ClaimStep(c, s, id, pause);
    VerdictStep(c, RecoveryStep(c, s, id, pause), id, x);
  }
}
