/** Reading a query's retained result on the node that owns it, page by page or endpoint by endpoint. */
module LocalResults {
  import opened Basics
  import opened Outcomes
  import opened Batches
  import opened Queries
  import opened QueryRecords
  import opened ResultReaders
  import opened Paging
  import opened PageTokens

  function SourceOf(storage: ResultStorage): ResultSource {
    if storage.Memory? then MemorySource(storage.batches) else SpillSource(storage.file)
  }

  /** One page of a record; no page is served while an error is set or the query runs. */
  method RecordPage(record: QueryRecord, offset: nat, limit: nat) returns (r: Result<Page, string>)
    requires record.error.None? ==> record.rows == |Rows(record.Contents())| <= USIZE_MAX
    ensures r.Ok? <==> record.error.None? && IsTerminal(record.phase) && (record.storage.Spill? ==> !record.storage.open)
    ensures r.Ok? ==>
      var start := Min(offset, record.rows);
      var end := if r.value.nextOffset.Some? then r.value.nextOffset.value else record.rows;
      && start <= end <= record.rows && Rows(r.value.batches) == Rows(record.Contents())[start..end]
      && end - start == Min(Max(limit, 1), record.rows - start) && r.value.totalRows == record.rows
  {
    var reading := record.OpenPage();
    if reading.Err? {
      return Err(reading.error);
    }
    var page := ResultPage(SourceOf(record.storage), record.rows, offset, limit);
    return Ok(page);
  }

  /** One partition of a record: it must have completed, without an error. */
  method RecordPartition(record: QueryRecord, p: nat, count: nat) returns (r: Result<seq<Batch>, string>)
    ensures r.Ok? <==>
      && p < count && record.phase.Completed? && record.error.None? && (record.storage.Spill? ==> !record.storage.open)
    ensures r.Ok? ==> r.value == Partition(record.Contents(), p, count)
  {
    if count == 0 || p >= count {
      return Err("invalid_result_partition");
    }
    if !record.phase.Completed? || (record.storage.Spill? && record.storage.open) {
      return Err("query_running");
    }
    var reading := record.OpenReader();
    if reading.Err? {
      return reading;
    }
    r := ReadPartition(reading.value, p, count);
  }

  /**
    Ask for some endpoints and read them one after the other: there are as many as asked for but at
    most one per batch, each its own partition and none empty unless the result is, and together they
    are the result.
  */
  method ReadEndpoints(record: QueryRecord, requested: nat) returns (r: Result<seq<Batch>, string>, parts: seq<seq<Batch>>)
    requires 1 <= requested <= 16
    ensures r.Ok? <==> record.phase.Completed? && record.error.None? && (record.storage.Spill? ==> !record.storage.open)
    ensures r.Ok? && |record.Contents()| * 16 <= USIZE_MAX ==> r.value == record.Contents()
    ensures r.Ok? ==> |parts| == Min(requested, Max(|record.Contents()|, 1))
    ensures r.Ok? ==> forall p :: 0 <= p < |parts| ==> parts[p] == Partition(record.Contents(), p, |parts|)
    ensures r.Ok? && 0 < |record.Contents()| * 16 <= USIZE_MAX ==> forall p :: 0 <= p < |parts| ==> parts[p] != []
  {
    var all := record.Contents();
    var count := Min(requested, Max(|all|, 1));
    var batches: seq<Batch> := [];
    parts := [];
    for p := 0 to count
      invariant batches == Drained(all, p, count) && |parts| == p
      invariant forall i :: 0 <= i < p ==> parts[i] == Partition(all, i, count)
      invariant p > 0 ==> record.phase.Completed? && record.error.None? && (record.storage.Spill? ==> !record.storage.open)
    {
      var part := RecordPartition(record, p, count);
      if part.Err? {
        return part, parts;
      }
      batches, parts := batches + part.value, parts + [part.value];
    }
    if |all| * 16 <= USIZE_MAX {
      EndpointsTile(all, requested);
      NoEndpointIsEmpty(all, requested);
    }
    return Ok(batches), parts;
  }

  lemma NoEndpointIsEmpty(source: seq<Batch>, requested: nat)
    requires 1 <= requested <= 16 && |source| * 16 <= USIZE_MAX
    ensures
      var count := Min(requested, Max(|source|, 1));
      source != [] ==> forall p :: 0 <= p < count ==> Partition(source, p, count) != []
  {
    var count := Min(requested, Max(|source|, 1));
    if source != [] {
      forall p | 0 <= p < count ensures Partition(source, p, count) != [] {
        ProductGrows(|source|, requested, 16);
        AdvertisedPartitionIsNotEmpty(|source|, requested, p);
        StartWithin(|source|, p + 1, count);
      }
    }
  }

  lemma ProductGrows(x: nat, a: nat, b: nat)
    requires a <= b
    ensures x * a <= x * b
  {
  }

  lemma EndpointsTile(source: seq<Batch>, requested: nat)
    requires 1 <= requested <= 16 && |source| * 16 <= USIZE_MAX
    ensures var count := Min(requested, Max(|source|, 1)); count > 0 && Drained(source, count, count) == source
  {
    var count := Min(requested, Max(|source|, 1));
    ProductGrows(|source|, count, 16);
    PartitionsTile(source, count);
  }

  /**
    A query from submission to reading: whatever the adapter sends, in whatever order its
    channels are drained and wherever the result is kept, both ways of reading return exactly
    the delivered batches or an error; without disk failure they succeed when the adapter
    finished and the result fits, and fail when it does not fit.
  */
  method QueryAndReadBack(sent: seq<QueryEvent>, delivered: seq<Batch>, finish: Finish, limits: Limits, faults: seq<Fault>,
                          finishFails: bool, requested: nat, secret: nat, maxPageRows: nat, now: int)
    returns (pages: Result<seq<Row>, string>, endpoints: Result<seq<Batch>, string>)
    requires |Rows(delivered)| <= USIZE_MAX && |delivered| * 16 <= USIZE_MAX && 1 <= requested <= 16
    requires secret <= U64_MAX && maxPageRows >= 1
    ensures pages.Ok? ==> pages.value == Rows(delivered)
    ensures endpoints.Ok? ==> endpoints.value == delivered
    ensures Clean(limits, faults) && !finishFails && finish.Finished? ==>
      (pages.Ok? <==> Bytes(delivered) <= limits.maxBytes) && (endpoints.Ok? <==> Bytes(delivered) <= limits.maxBytes)
  {
    var record := new QueryRecord();
    var handle := new QueryHandle(sent, delivered, finish);
    var _ := CollectQuery(record, handle, limits, faults, finishFails, now);
    var read, parts := ReadEndpoints(record, requested);
    endpoints := read;
    var reading := record.OpenPage();
    if reading.Err? {
      return Err(reading.error), endpoints;
    }
    var rows := FollowPages(SourceOf(record.storage), secret, maxPageRows);
    pages := Ok(rows);
  }
}
