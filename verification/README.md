# ConfluxQuery, verified model

ConfluxQuery is a query gateway: it accepts SQL over HTTP and Arrow Flight, runs it on an
engine adapter, retains the Arrow result in memory or in a spill file, serves it back as
pages or partitions, and, in cluster mode, shares queries and results between nodes through
a coordination store and an object store. This project models the parts of the gateway whose
correctness spans several calls, nodes or loops, and proves what they promise.

- **Cluster coordination.** `ClusterStore` is the in-memory coordination store: a class with
  the same maps and the same order of tests, proved call by call against functions on its state.
  `ResourceSafety`, `LeaseSafety`, `LeaseTerms` and `QuotaSafety` quantify over every sequence of
  store calls from any nodes.
  `ClusterProtocol` is the publish and recover protocol as a state machine with one step per
  store or object-store call, interleaved with any number of recoveries, with the collector
  and with whatever else happens in the store; `ClusterLeases` connects it with the leases,
  `ClusterStatus` says where a shared status comes from, `ClusterTurns` what an undisturbed turn
  achieves, and `ClusteredPaging` reads pages on top of it.
- **Result retention.** `QueryRecords` (record, channels, collector), `ResultReaders`
  (batch readers and partitions), `Paging` and `PageTokens` (row pages), `LocalResults`
  (a query from submission to reading back) and `Collection` (the session update) each tie a
  loop or an in-place update to the plain list of delivered batches or rows.
- **Handoffs.** `Ingest` is the upload handler, the bounded channel, the cancel flag and the
  adapter's table swap under every interleaving, `IngestLoops` the two loops themselves;
  `EventStream` is subscribe, snapshot and live traffic, and `EventLoss` says exactly what is missed.
- **Algorithms.** `Globs`, `NativeTypes`, `Numerals`, `DecimalDisplay`, `EditDistance`,
  `Sessions`, `MetadataCache` and, with several requests under way, `MetadataRaces`.

Conventions. Every name below is `Module.Member`. Integers are unbounded; where the width
matters (saturating sums, 64-bit rotation, the ranges of parsed numbers, the magnitude of a
decimal) it is written out. Wall-clock readings are milliseconds that never run back. The
outcome of I/O, fresh identifiers, the moment a cancel request or a disconnect happens and the
order in which channels become ready are parameters or arbitrary choices, so each statement
holds for all of them. Arrow IPC and base64 encoding are taken as inverse to their decoding.

## Where the code and its promises part

- `docs/concepts/architecture.md:62-63` says fencing prevents a stale node from mutating work
  after failover, and `docs/high-availability.md:55-57` that compare-and-swap versions prevent
  nodes from overwriting one another. The publisher reads the current version immediately
  before it writes and no fencing token is compared, so an owner that lost its lease can
  overwrite a recovery's verdict. `ClusterProtocol.RecoveredQueryCanBeRevived` is such a run;
  `ClusterProtocol.TerminalReplacedOnlyByLatePublisher` says exactly when a terminal record is
  replaced: when the publisher is at its write and has seen the current version. Once the
  publisher's own terminal write has landed nothing replaces it
  (`ClusterProtocol.FinalWriteIsForever`).
- A page on a non-owning node takes the row count and the result from separate reads of the
  store. `ClusteredPaging.EarlyStatusLosesRows` is a run in which the last page of a one-row
  result comes back empty. The page is always a prefix of the owner's page, and
  `ClusteredPaging.RemotePageIsExact` says which requests get all of it.
- A record that has expired reads as absent but keeps its version, so a publisher cannot write over
  it any more: `ClusterTurns.WriteLandsExactly` has the exact condition.
- A recovery waits for the owner's lease only on other nodes. A claim from the owner's own node
  succeeds over a live lease: `ClusterLeases.HomeRecoveryDoesNotWait`, with the exact condition in
  `ClusterLeases.LiveCopyYieldsOnlyAtHome`.
- Lease exclusion needs deadlines that do not go down, as one lease duration per node gives.
  Renewal sets the deadline unconditionally, so a shorter renewal leaves a longer copy
  outstanding: `LeaseSafety.ShorterRenewalBreaksExclusion`; the exact boundary is
  `LeaseSafety.GuardedExactly`.
- An event is recorded and broadcast in two steps. If two broadcasts overtake each other the
  later id hides the earlier one for good, even the terminal event, after which the stream never
  ends: `EventLoss.OvertakingLosesAnEvent`. `EventLoss.LostExactlyWhenHidden` and
  `EventLoss.CompleteUnlessOvertaken` say exactly when.
- `decimal_shape` looks for a round bracket only, so `decimal<10,2>` is read as the default
  `(38, 9)` although the angle form is accepted for arrays and maps:
  `NativeTypes.ParseUndoesPrint` has the exact condition.
- A metadata answer requested before an invalidation can be stored after it and is then served:
  `MetadataRaces.LateAnswerIsServed`, with the exact condition in
  `MetadataRaces.InvalidationHoldsExactly`.
- `exact_decimal` prints a value with a negative scale unscaled:
  `DecimalDisplay.NegativeScaleLosesMagnitude`.
- Partitions tile the result if and only if batches times partitions fits a `usize`:
  `ResultReaders.PartitionsTile`.

## Model

| member | source | states |
|---|---|---|
| `ClusterStore.MemoryClusterStateStore.constructor` | crates/qcli-cluster/src/lib.rs:205-218 | a new store is empty and its fence counter is zero |
| `ClusterStore.MemoryClusterStateStore.Put` | crates/qcli-cluster/src/lib.rs:285-309 | the in-place update and the answer are those of the compare-and-swap function: another principal is refused, then a wrong expected version, else the version grows by one |
| `ClusterStore.MemoryClusterStateStore.Get` | crates/qcli-cluster/src/lib.rs:311-328 | the stored resource for its principal, absent once expired, refused to anyone else |
| `ClusterStore.MemoryClusterStateStore.Delete` | crates/qcli-cluster/src/lib.rs:330-349 | whether something was removed; another principal's resource stays |
| `ClusterStore.MemoryClusterStateStore.Claim` | crates/qcli-cluster/src/lib.rs:351-384 | refines the claim function: refused on another principal or a live lease of another node, else a new token and a deadline counted from the second clock reading |
| `ClusterStore.MemoryClusterStateStore.Renew` | crates/qcli-cluster/src/lib.rs:386-406 | refines the renewal function: owner and token must match, the expiry is not looked at |
| `ClusterStore.MemoryClusterStateStore.Release` | crates/qcli-cluster/src/lib.rs:408-418 | removes the lease exactly when owner and token match |
| `ClusterStore.MemoryClusterStateStore.Acquire` | crates/qcli-cluster/src/lib.rs:420-447 | drops expired permits first, then refuses at the limit or stores the fresh permit |
| `ClusterStore.MemoryClusterStateStore.Free` | crates/qcli-cluster/src/lib.rs:449-456 | removes that permit and no other |
| `ResourceSafety.OthersCannotReach` | crates/qcli-cluster/src/lib.rs:285-349 | over every run: whatever other principals put or delete, a resource stays as it is, they never read it, and its own principal reads exactly it until it expires |
| `ResourceSafety.Untouched` | crates/qcli-cluster/src/lib.rs:285-349 | a put or delete of another principal is refused and leaves the resource alone |
| `ResourceSafety.DeletedReadsAbsent` | crates/qcli-cluster/src/lib.rs:330-349 | its principal can delete a resource, the answer says whether it was there, and it reads as absent for everybody until the next put |
| `ResourceSafety.OneWinnerPerVersion` | crates/qcli-cluster/src/lib.rs:285-309 | over every run: unless the resource is deleted in between, at most one conditional put wins per expected version |
| `ResourceSafety.PutAdvances` | crates/qcli-cluster/src/lib.rs:296-308 | a put that goes through expected the current version and is stored one version on |
| `ResourceSafety.PutReadsBack` | crates/qcli-cluster/src/lib.rs:285-328 | what was put reads back, one version on, until it expires, as long as its principal leaves it alone |
| `ResourceSafety.ForeignClaimIsForbidden` | crates/qcli-cluster/src/lib.rs:351-366 | over every run, as long as the query is not given up, another principal's claim of it is forbidden and changes nothing |
| `LeaseSafety.LeaseExclusion` | crates/qcli-cluster/src/lib.rs:351-418 | over every run: no instant lies in the validity windows of copies granted to two different nodes for one query, unless in between the earlier owner released the query or was granted a copy that expires sooner |
| `LeaseSafety.FixedTtlExclusion` | crates/qcli-cluster/src/lib.rs:351-418 | with one lease duration per node only the release is left: the windows are disjoint unless the earlier node released that query in between |
| `LeaseSafety.GuardedExactly` | crates/qcli-cluster/src/lib.rs:351-418 | the exact boundary: a copy is covered by a stored lease of its owner expiring no sooner, or has expired, if and only if in every continuation in which the owner neither releases nor shortens its lease no other node is granted an overlapping window |
| `LeaseSafety.CopyStaysGuarded` | crates/qcli-cluster/src/lib.rs:351-418 | as long as its owner neither releases the query nor shortens its lease, a covered copy stays covered or expires |
| `LeaseSafety.ShorterRenewalBreaksExclusion` | crates/qcli-cluster/src/lib.rs:386-406 | a run with a shorter renewal in which two nodes hold unexpired copies at once |
| `LeaseSafety.ClaimsAreFencedInOrder` | crates/qcli-cluster/src/lib.rs:374-383 | over every run: each successful claim carries a larger token than every earlier one, for whatever query |
| `LeaseTerms.GrantedForItsDuration` | crates/qcli-cluster/src/lib.rs:696-698 | every copy granted by a claim or a renewal expires when the duration asked for is over, counted from the end of the call |
| `LeaseTerms.LeaseLastsExactly` | crates/qcli-cluster/src/lib.rs:351-384 | over every run, as long as nobody is granted the query or gives it up: another principal is forbidden, another node is refused exactly until the duration of the last grant is over, every other claim succeeds |
| `LeaseTerms.RefusedUntilItIsOver` | crates/qcli-cluster/src/lib.rs:351-406 | over every run: until the duration asked for is over, and unless the owner released the query or was granted a shorter copy, every claim by another node is refused |
| `LeaseTerms.FreeQueryIsGranted` | crates/qcli-cluster/src/lib.rs:351-384 | a query never granted, or released and not granted since, goes to the next claim |
| `LeaseTerms.RenewableExactly` | crates/qcli-cluster/src/lib.rs:386-418 | over every run a granted copy, expired or not, can be renewed, for the duration then asked for, and released if and only if it has not been superseded or released |
| `QuotaSafety.QuotaNeverExceeded` | crates/qcli-cluster/src/lib.rs:420-456 | in every reachable state the unexpired permits of a (principal, quota) pair number at most the limit |
| `QuotaSafety.FailsExactlyWhenFull` | crates/qcli-cluster/src/lib.rs:427-447 | over every run with one limit, acquisition is refused as exhausted if and only if the unexpired permits number exactly the limit |
| `QuotaSafety.HeldExactly` | crates/qcli-cluster/src/lib.rs:420-456 | over every run: a permit counts for a (principal, quota) pair if and only if some call acquired it for that pair, it was neither freed nor acquired anew since, and the duration asked for is not over |
| `QuotaSafety.FreeingMakesRoom` | crates/qcli-cluster/src/lib.rs:449-456 | over every run with one limit, freeing a held permit takes exactly it away and lets the next acquisition of the pair succeed |
| `ClusterProtocol.ReachableInv` | crates/qcli-service/src/lib.rs:629-715 | the protocol invariant holds after every run from an accepted query: record, publisher, recoveries and local result agree |
| `ClusterProtocol.RecoveryNeverReplacesTerminal` | crates/qcli-service/src/lib.rs:1459-1499 | in every reachable state a recovery's step leaves the shared record alone or replaces the exact non-terminal record it read by its `orphaned_query` verdict, one version on |
| `ClusterProtocol.FinalWriteIsForever` | crates/qcli-service/src/lib.rs:659-715 | once the publisher's terminal write has landed the shared record is the same after every further run |
| `ClusterProtocol.TerminalReplacedOnlyByLatePublisher` | crates/qcli-service/src/lib.rs:2436-2469 | a terminal record is replaced by a step if and only if the publisher is at its write and has seen the current version, and then the record was a recovery's verdict |
| `ClusterProtocol.RecoveredQueryCanBeRevived` | crates/qcli-service/src/lib.rs:2436-2469 | a complete run in which a recovered query goes from failed back to submitted |
| `ClusterProtocol.StoredBeforeAdvertised` | crates/qcli-service/src/lib.rs:673-704 | in every reachable state a record that names a result has its object stored with the advertised batch count and the owner's batches; a full or partition read elsewhere, with anything happening between its two calls, succeeds if and only if the record it saw was visible and named a result, and returns the owner's batches or that partition of them |
| `ClusterProtocol.ObjectStays` | crates/qcli-service/src/lib.rs:1501-1629 | behind a record that names a result the object is there and unchanged after every further run |
| `ClusterProtocol.SharedReadIsStable` | crates/qcli-service/src/lib.rs:1501-1551 | a result read once reads the same after every further run, whatever happens between the calls of either read, until the record expires |
| `ClusterStatus.SharedStatusIsTrue` | crates/qcli-service/src/lib.rs:659-715 | over every run the status any node can see is the first one, or exactly the phase, error and row count of the owner's local record at some earlier moment, or a recovery's verdict on an unfinished query, or says that a completed query's result could not be stored; the publisher's terminal status is of the second or last kind, from a moment when the collector had finished, with the row count of the result |
| `ClusterTurns.WriteLandsExactly` | crates/qcli-service/src/lib.rs:2436-2469 | an undisturbed write of the publisher lands if and only if no record is there or it can still be seen, and leaves it visible for a quarter of an hour |
| `ClusterTurns.FirstTurn` | crates/qcli-service/src/lib.rs:629-657 | a free query is claimed, published as submitted and polled from then on |
| `ClusterTurns.RefreshTurn` | crates/qcli-service/src/lib.rs:706-714 | while the query runs a turn publishes its local status and renews the lease for its whole duration |
| `ClusterTurns.FailedTurn` | crates/qcli-service/src/lib.rs:672-705 | the outcome of a failed or cancelled query is published and the lease given up |
| `ClusterTurns.CompletedTurn` | crates/qcli-service/src/lib.rs:672-705 | the whole result of a completed query, even an empty one, is stored and named, or the query is published as failed if it cannot be stored; either way the lease is given up |
| `ClusterTurns.UnreadTurn` | crates/qcli-service/src/lib.rs:675-702 | completion is published without a result if that cannot be read |
| `ClusterTurns.RecoveryTurn` | crates/qcli-service/src/lib.rs:1459-1499 | an undisturbed recovery of an unfinished query, exactly if its lease can be claimed: only status, token, version and expiry of the record change, and the lease is given up |
| `ClusterLeases.VerdictWaitsForTheLease` | crates/qcli-service/src/lib.rs:1459-1499 | over every run without a recovery on the publisher's own node: when a recovery's verdict lands, the publisher's last lease copy has expired and can never be renewed, or the publisher has released it |
| `ClusterLeases.LiveCopyYieldsOnlyAtHome` | crates/qcli-cluster/src/lib.rs:351-384 | while the publisher's copy is unexpired a claim of its query succeeds if and only if it comes from the publisher's own node |
| `ClusterLeases.HomeRecoveryDoesNotWait` | crates/qcli-service/src/lib.rs:1479-1497 | a complete run in which a recovery on the owner's node lands its verdict and frees the query while the publisher's copy is valid |
| `ClusterLeases.OustedWritesAtMostOnce` | crates/qcli-service/src/lib.rs:659-715 | over every run: a publisher whose lease is lost never gets it back, stores at most the record it is at, and stops at its next renewal |
| `ClusterLeases.ClaimOustsPublisher` | crates/qcli-service/src/lib.rs:1459-1499 | that is so once a recovery on another node has claimed the query: at most one more record of the publisher follows |
| `ClusteredPaging.RemotePageIsExact` | crates/qcli-service/src/lib.rs:1553-1576 | over every run the rows of a remote page are a prefix of the owner's page, and the same rows if and only if the row count read first is the final one, or the page ends within that count, or it starts past the end; if that status already named the result the whole page is the owner's |
| `ClusteredPaging.RunKeepsRows` | crates/qcli-service/src/lib.rs:659-715 | in every reachable state no published, pending or recovery-held status counts more rows than have been retained, and retained batches stay |
| `ClusteredPaging.PageOfIsThePage` | crates/qcli-service/src/lib.rs:1568-1575 | the page compared with is the owner's: as many rows as asked for, at least one, as far as there are any |
| `ClusteredPaging.EarlyStatusLosesRows` | crates/qcli-service/src/lib.rs:1563-1576 | a complete run in which a remote page reports an empty, finished result for a query with one row |
| `ResultReaders.ResultBatchReader.constructor` | crates/qcli-service/src/lib.rs:153-166 | a reader starts on the window given by its skip and remaining counts |
| `ResultReaders.ResultBatchReader.NextBatch` | crates/qcli-service/src/lib.rs:184-216 | hands out the window front to back, one batch a call, and answers nothing exactly when the window is used up |
| `ResultReaders.ResultBatchReader.Drain` | crates/qcli-service/src/lib.rs:2471-2478 | reading to the end yields exactly the window |
| `ResultReaders.ReadPartition` | crates/qcli-service/src/lib.rs:1737-1755 | refuses exactly an out-of-range partition, else drains the window of that partition |
| `ResultReaders.PartitionNeverUnderflows` | crates/qcli-service/src/lib.rs:1752-1754 | `end - start` is never negative, saturation or not |
| `ResultReaders.PartitionsAreBalanced` | crates/qcli-service/src/lib.rs:1752-1754 | without overflow every partition holds the floor of batches / partitions or one more |
| `ResultReaders.AdvertisedPartitionIsNotEmpty` | crates/qcli-flight-sql/src/lib.rs:615-624 | with the advertised number of endpoints no endpoint is empty unless the result is |
| `ResultReaders.PartitionsTile` | crates/qcli-service/src/lib.rs:1737-1755 | draining all partitions in order equals the whole result if and only if batches times partitions fits a `usize` |
| `Paging.SliceBatches` | crates/qcli-service/src/lib.rs:2663-2680 | the rows of the page are rows `start` up to `end` of the whole result, whatever the batch split, and no empty batch is returned |
| `Paging.LoadPage` | crates/qcli-service/src/lib.rs:2633-2661 | the memory path and the spill path return the same rows |
| `Paging.ResultPage` | crates/qcli-service/src/lib.rs:1687-1695 | one page: exactly as many rows from the offset on as asked for, at least one, as far as there are any, with the next offset exactly while rows remain |
| `Paging.FollowPages` | crates/qcli-http/src/lib.rs:923-985 | following page tokens from the start with any limits ends and delivers every row once and in order |
| `PageTokens.PageTokenRoundTrip` | crates/qcli-http/src/lib.rs:1164-1182 | a token decodes to its own offset under the secret it was issued with and is rejected under every other secret |
| `PageTokens.SignatureBits` | crates/qcli-http/src/lib.rs:1164-1168 | the signature bit by bit: the offset's bit seventeen places below, flipped where the secret has a one |
| `PageTokens.RotationMovesBits` | crates/qcli-http/src/lib.rs:1164-1168 | the arithmetic rotation moves every bit up by seventeen places, the top seventeen to the bottom |
| `QueryRecords.QueryRecord.constructor` | crates/qcli-service/src/lib.rs:2007-2030 | a fresh record holds nothing, has no events and is submitted |
| `QueryRecords.QueryRecord.PushEvent` | crates/qcli-service/src/lib.rs:2411-2434 | appends one event with the next id of 1, 2, 3, …; the completion time is set exactly when a terminal event exists and never cleared |
| `QueryRecords.QueryRecord.RecordEvent` | crates/qcli-service/src/lib.rs:2359-2409 | the same for an adapter's event, terminal exactly for the three final states, with sensitive property values redacted so that none ever shows in the history |
| `QueryRecords.QueryRecord.RequestCancel` | crates/qcli-service/src/lib.rs:1631-1648 | adds a `cancelling` event even to a finished query, but neither a terminal event nor a change of the completion time |
| `QueryRecords.QueryRecord.StoreBatch` | crates/qcli-service/src/lib.rs:2549-2612 | appends the batch across the memory-to-spill switch, which happens exactly past the memory limit, with both sums updated, or refuses it; without disk failure it refuses exactly what exceeds the limit and then loses nothing |
| `QueryRecords.QueryRecord.FinishResults` | crates/qcli-service/src/lib.rs:2614-2624 | closing the spill file keeps its batches |
| `QueryRecords.QueryRecord.OpenReader` | crates/qcli-service/src/lib.rs:1757-1803 | opens exactly on an error-free record that is completed or cancelled and closed, on exactly the retained batches |
| `QueryRecords.QueryRecord.OpenPage` | crates/qcli-service/src/lib.rs:1657-1686 | the same for pages, which accept any terminal state |
| `QueryRecords.QueryHandle.constructor` | crates/qcli-core/src/lib.rs:504-563 | the event channel starts with submission and its last terminal state is the one that goes with the adapter's ending |
| `QueryRecords.QueryHandle.NextItem` | crates/qcli-core/src/lib.rs:387-403 | takes the head of one channel and leaves the other, in any order of readiness; ends exactly when both are empty |
| `QueryRecords.Drain` | crates/qcli-service/src/lib.rs:2257-2287 | after both channels are drained the record holds every batch, or one was refused, the error is set and cancellation requested; the history holds every announced event in order with only cancel requests in between; the last terminal state, the last engine id and the merged session report are kept |
| `QueryRecords.CollectQuery` | crates/qcli-service/src/lib.rs:2251-2330 | the history is the redacted non-terminal events in order, with only cancel requests in between, then the one terminal event; completed means all delivered batches are held in order with exact sums within the limit, in memory exactly if small enough; without disk failure it completes if and only if the adapter finished and the result fits; no error left means nothing was lost; the outcome, the engine id and the session report follow from how the adapter ended and what it said |
| `Queries.SensitiveExactly` | crates/qcli-service/src/lib.rs:2762-2767 | a property value is hidden exactly if its name mentions one of the five words, in any letter case |
| `QueryRecords.Conclude` | crates/qcli-service/src/lib.rs:2295-2329 | completed, cancelled or failed exactly as the adapter ended and an error is set; an error once set stays; one terminal event is added |
| `Collection.CollectForSession` | crates/qcli-service/src/lib.rs:2288-2341 | the engine-reported options are one more mutation attempt at the submission's version, only on success and only for a session that is kept, and then they show; a stateless session is gone; no other session changes |
| `LocalResults.RecordPage` | crates/qcli-service/src/lib.rs:1650-1696 | a page is served exactly on an error-free, closed, terminal record and is the right slice of its rows |
| `LocalResults.RecordPartition` | crates/qcli-service/src/lib.rs:1698-1755 | a partition is served exactly for a valid index of a completed, error-free, closed record |
| `LocalResults.ReadEndpoints` | crates/qcli-flight-sql/src/lib.rs:582-640 | as many endpoints as asked for but at most one per batch, each its own partition, none empty unless the result is, and together the whole result |
| `LocalResults.QueryAndReadBack` | crates/qcli-service/src/lib.rs:1963-2043 | end to end: pages and endpoints return exactly what the adapter delivered or fail; without disk failure both succeed if and only if a finished result fits the limit |
| `Ingest.AllOrNothing` | crates/qcli-flight-sql/src/lib.rs:1217-1297 | under every interleaving: the reply is a row count if and only if the request committed; then the upload was acceptable, exactly its batches were created, appended or swapped in, in order, and the count is their rows; an acceptable upload is never rejected by the handler |
| `Ingest.AcceptedExactly` | crates/qcli-driver-demo/src/lib.rs:218-289 | under every interleaving the reply is a row count if and only if the upload is acceptable, admitted and not temporary, and the options allow it on the table map as it was when the commit was tried |
| `Ingest.TablesStayUniform` | crates/qcli-driver-demo/src/lib.rs:273-285 | tables of one schema stay tables of one schema |
| `Ingest.TablesIgnoreCase` | crates/qcli-driver-demo/src/lib.rs:229-229 | two spellings name one table exactly if they differ in letter case only |
| `Ingest.NothingElseTouched` | crates/qcli-driver-demo/src/lib.rs:252-288 | without other requests the table map is the committed one or the original |
| `Ingest.ReplyIsNear` | crates/qcli-flight-sql/src/lib.rs:1217-1297 | every upload is answered: no interleaving holds more than four moves per uploaded item and seven, and until the reply is given one side can always move |
| `IngestLoops.ReadUpload` | crates/qcli-flight-sql/src/lib.rs:1237-1288 | the handler's loop rejects only unacceptable uploads, every one unless the adapter is gone, and sends a prefix in order |
| `IngestLoops.CheckItem` | crates/qcli-flight-sql/src/lib.rs:1241-1284 | the counters stay the exact sums of what was accepted; an item is refused only if the whole upload is unacceptable |
| `IngestLoops.Receive` | crates/qcli-driver-demo/src/lib.rs:229-254 | receives everything, with the exact count, if and only if no cancellation is seen and all schemas agree |
| `IngestLoops.DemoAdapter.Ingest` | crates/qcli-driver-demo/src/lib.rs:218-289 | succeeds exactly if nothing stopped it and the options allow it on the table map; the map changes only then, and as the options ask |
| `IngestLoops.DemoAdapter.Store` | crates/qcli-driver-demo/src/lib.rs:256-288 | the in-place table change refines the commit function |
| `EventStream.Replay` | crates/qcli-http/src/lib.rs:1023-1031 | sends the snapshot up to its first terminal event, or a prefix of that if the client hangs up |
| `EventStream.GoLive` | crates/qcli-http/src/lib.rs:1032-1045 | sends exactly the live events above everything seen, up to a terminal one, or a prefix |
| `EventStream.StreamEvents` | crates/qcli-http/src/lib.rs:1008-1045 | the whole connection equals its specification, or a prefix if the client hangs up |
| `EventStream.EveryStreamClimbs` | crates/qcli-http/src/lib.rs:1002-1053 | in every run and with any live traffic, ids sent strictly increase from the resume point and nothing follows a terminal event |
| `EventStream.NoGaps` | crates/qcli-service/src/lib.rs:1834-1859 | in every run with in-order broadcasts and no lag the client gets the history from its resume point on without a gap, up to the first terminal event |
| `EventLoss.LiveExactly` | crates/qcli-http/src/lib.rs:1032-1045 | for any live traffic, in any order and with any losses: an event is sent if and only if its id is above the resume level and above every id heard before, and no event that itself got through had ended the stream |
| `EventLoss.LostExactlyWhenHidden` | crates/qcli-service/src/lib.rs:2411-2434 | over every run: a broadcast event past the snapshot is missed if and only if a larger id, or an event that ended the stream, was heard before it |
| `EventLoss.CompleteUnlessOvertaken` | crates/qcli-http/src/lib.rs:1002-1053 | over every run that has broadcast all it recorded: the client has its whole part of the history, in order and up to the first terminal event, if and only if none of those events was overtaken |
| `EventLoss.OvertakingLosesAnEvent` | crates/qcli-service/src/lib.rs:2411-2434 | when two broadcasts overtake each other the earlier event is never delivered, also when it is the terminal one, and then the stream does not end |
| `Globs.GlobMatches` | crates/qcli-repl/src/lib.rs:692-714 | the row-by-row table computes recursive glob matching and agrees with the LIKE pattern sent for the same glob |
| `Globs.StarFromTheRight` | crates/qcli-repl/src/lib.rs:701-711 | the table's star rule is the recursive definition read from the other end |
| `Globs.TokenFromTheRight` | crates/qcli-repl/src/lib.rs:701-711 | the same for a character or a question mark |
| `Globs.TranslationIsWellFormed` | crates/qcli-driver-trino/src/lib.rs:300-310 | every escape in the translated pattern is followed by a wildcard or an escape |
| `Globs.TranslationPreservesMeaning` | crates/qcli-driver-trino/src/lib.rs:300-310 | for every pattern and name LIKE with escape `$` matches exactly when the glob does |
| `Globs.LiteralRoundTrip` | crates/qcli-driver-trino/src/lib.rs:297-299 | a SQL scanner reads back exactly the quoted value and stops at its closing quote |
| `NativeTypes.SplitTopLevel` | crates/qcli-flight-sql/src/lib.rs:1819-1836 | the scanning loop computes the recursive split at top-level commas |
| `NativeTypes.SplitsEntry` | crates/qcli-flight-sql/src/lib.rs:1819-1836 | two balanced arguments joined by a comma and blanks are split into exactly those two |
| `NativeTypes.ArgumentsOf` | crates/qcli-flight-sql/src/lib.rs:1808-1817 | what was put between round or angle brackets is what is taken out |
| `NativeTypes.DecimalShapeOf` | crates/qcli-flight-sql/src/lib.rs:1838-1849 | in round brackets precision and scale read back as printed, for every `u8` and `i8`, with blanks after the comma or without a scale |
| `NativeTypes.AngleHasNoShape` | crates/qcli-flight-sql/src/lib.rs:1838-1849 | in angle brackets the arguments of a decimal are never found |
| `NativeTypes.ParseUndoesPrint` | crates/qcli-flight-sql/src/lib.rs:1739-1806 | for every nested array and map tree over scalars with or without a size, untyped arrays and maps, and decimals with one, two or no arguments, with either bracket, written in any letter case and with blanks around, the parsed type is the tree's if and only if each decimal in angle brackets is `(38, 9)` |
| `NativeTypes.SpelledAsMeant` | crates/qcli-flight-sql/src/lib.rs:1786-1805 | every spelling of a scalar kind is read as that kind's Arrow type, and every other name as text |
| `Numerals.ShowThenRead` | crates/qcli-http/src/lib.rs:1164-1182 | a printed number, decimal or hexadecimal, reads back as itself |
| `DecimalDisplay.ExactDecimalRoundTrip` | crates/qcli-output/src/lib.rs:348-361 | for every value and scale the printed text reads back as the value with its number of places |
| `DecimalDisplay.NegativeScaleLosesMagnitude` | crates/qcli-output/src/lib.rs:348-361 | with a negative scale the printed number is the true one if and only if it is zero |
| `DecimalDisplay.RoundsHalfEven` | crates/qcli-output/src/lib.rs:363-384 | the rounded value is within half a unit, even at a tie, and negating the value negates it |
| `DecimalDisplay.RoundingIsMonotone` | crates/qcli-output/src/lib.rs:363-384 | larger values never display smaller |
| `DecimalDisplay.DecimalShowsNearest` | crates/qcli-output/src/lib.rs:363-384 | the displayed text has as many places as the scale and the maximum allow and reads back as the one and only half-even rounding to them |
| `DecimalDisplay.PlainIsTight` | crates/qcli-output/src/lib.rs:348-361 | no superfluous zeros in front: a leading zero stands alone or before the point |
| `DecimalDisplay.RoundingFits` | crates/qcli-output/src/lib.rs:363-384 | for magnitudes below 10^38 and scales up to 38 neither conversion overflows |
| `EditDistance.NextRow` | crates/qcli-config/src/lib.rs:627-634 | the inner loop turns the row of one prefix into the row of the next |
| `EditDistance.ComputeDistance` | crates/qcli-config/src/lib.rs:624-638 | the two-row loop computes the recursive Levenshtein distance |
| `EditDistance.NoCheaperScript` | crates/qcli-config/src/lib.rs:624-638 | no edit script between two strings costs less than their distance |
| `EditDistance.CheapestScript` | crates/qcli-config/src/lib.rs:624-638 | some edit script costs exactly the distance |
| `EditDistance.Symmetric` | crates/qcli-config/src/lib.rs:624-638 | the distance does not depend on the order of its arguments |
| `EditDistance.ZeroMeansEqual` | crates/qcli-config/src/lib.rs:624-638 | the distance is zero if and only if the strings are equal |
| `EditDistance.Triangle` | crates/qcli-config/src/lib.rs:624-638 | the triangle inequality |
| `EditDistance.Closest` | crates/qcli-config/src/lib.rs:616-622 | a suggestion is a true minimiser at distance at most three; there is none if and only if every candidate is further |
| `EditDistance.NearestIsFirst` | crates/qcli-config/src/lib.rs:616-622 | of several equally near candidates the first is taken |
| `Sessions.ApplyEdits` | crates/qcli-core/src/lib.rs:276-282 | the loop over the edits sets and removes exactly the named options, in any order |
| `Sessions.SessionManager.Create` | crates/qcli-core/src/lib.rs:121-146 | a session of version one under the drawn identifier |
| `Sessions.SessionManager.Restore` | crates/qcli-core/src/lib.rs:84-103 | succeeds exactly when target and engine agree, and then the session is the snapshot's |
| `Sessions.SessionManager.SetOptions` | crates/qcli-core/src/lib.rs:194-213 | the in-place update refines one mutation attempt |
| `Sessions.SessionManager.SwitchTarget` | crates/qcli-core/src/lib.rs:222-243 | the same for a target switch, which forgets all options |
| `Sessions.SessionManager.Mutate` | crates/qcli-core/src/lib.rs:254-285 | the same for the combined mutation |
| `Sessions.SessionManager.Close` | crates/qcli-core/src/lib.rs:295-302 | removes that session only, and succeeds exactly if it existed |
| `Sessions.SessionHistory` | crates/qcli-core/src/lib.rs:175-303 | over every run between two creations of an id, closing included: it is there exactly until closed, the version has grown by the number of successful mutations, the k-th of which expected the version k steps on, and the session, now or when it was closed, is the replay of the winners |
| `Sessions.NoWinnersAfterClosing` | crates/qcli-core/src/lib.rs:295-303 | on a session that is not there no attempt ever wins |
| `Sessions.ReplayDecides` | crates/qcli-core/src/lib.rs:254-285 | an option's final value is what the last winner that mentions it, or the last target switch, left |
| `Sessions.SnapshotShowsHistory` | crates/qcli-core/src/lib.rs:344-360 | what a snapshot shows after every run: the target and engine of the last winner that names one, the version counted by the winners, and for each option the value the last deciding winner left, or else that target's own |
| `Sessions.RestoreUndoesSnapshot` | crates/qcli-core/src/lib.rs:84-103 | restoring a snapshot gives back the session it was taken of |
| `MetadataCache.MetadataService.Lookup` | crates/qcli-metadata/src/lib.rs:68-194 | the in-place cache refines the lookup function: purge, hit, missing adapter, adapter failure, stored answer |
| `MetadataCache.MetadataService.Invalidate` | crates/qcli-metadata/src/lib.rs:143-148 | drops exactly the entries of one target |
| `MetadataCache.CacheAgreesWithAdapter` | crates/qcli-metadata/src/lib.rs:68-209 | over every sequential run with an injective property hash: a request hits if and only if the latest adapter answer to that very request, not followed by an invalidation of its target, is at most one TTL old, and then returns it; otherwise the adapter's reply is returned, or that there is none; an answer is served again at once; every entry has its operation's variant |
| `MetadataRaces.HitsAreStanding` | crates/qcli-metadata/src/lib.rs:176-194 | under every interleaving of lookups, late answers and invalidations a request hits if and only if the answer stored last for its key, not followed by an invalidation of its target, is at most one TTL old |
| `MetadataRaces.InvalidationHoldsExactly` | crates/qcli-metadata/src/lib.rs:68-148 | from every reachable state: after an invalidation all later hits for the target are answers requested after it if and only if no request for that target was under way |

## Left out

- `PostgresClusterStateStore` and its SQL text: the semantics of a foreign database.
- Node registration, heartbeats and draining: informational; no other call depends on them.
- Cryptography and access checks (tickets, tokens, TLS, bearer and proxy headers): library code and configuration policy.
- Network code of the Trino, Databricks and Snowflake adapters, the HTTP and gRPC servers, OpenAPI and the JDBC wrapper.
- Arrow IPC, CSV, JSON, base64 and UUID internals; decoding failures of stored files while reading.
- Terminal handling, completion, history, argument parsing, audit sinks, conformance profiles, and Trino's `normalize_signature`.
- `mutate_session_clustered` re-reads the resource version just before it writes, so no cross-node session property is stated.
- The local session and query quotas, which test and insert under separate locks.
- Session identifiers: `next_session_id` wraps after 99 per minute, so `Sessions` takes the identifier as a parameter and lets a repeated one replace the session.
- Overflow of the 64-bit fence counter and of resource, session and event versions, and of the 32-bit bracket depth.
- A gateway handler dropped by a timeout or a disconnect during ingestion, and an adapter task that panics.
- Ingest: the two sides are modelled on values, as steps of one state machine, because they interleave; their loops in imperative form are in `IngestLoops`, where the cancel flag is what each check reads. Rejections by the gateway before the adapter starts are one outcome.
- ClusterProtocol: modelled on values for the same reason. A recovery's new expiry is taken at its write, and the stored status keeps state, row count and error only.
- QueryRecords.CollectQuery: when the retention limit is the largest `usize`, the saturating test passes and the bound on the retained bytes is not claimed; the sums themselves are unbounded here.
- LocalResults.QueryAndReadBack: asks for batches times 16 and rows to fit a `usize`, which the in-memory representation guarantees.
- Globs.LiteralRoundTrip: covers the quoting of values, not the assembly of the statements around them.
