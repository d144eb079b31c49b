/**
  The two loops of bulk ingestion as they are written: the handler reading the upload and the
  demo adapter receiving, then changing the table map in place. Where they interleave is the
  subject of `Ingest`.
*/
module IngestLoops {
  import opened Basics
  import opened Outcomes
  import opened Batches
  import opened Ingest

  // ---- the handler ----

  /** The adapter may have given up, so that sending fails. */
  method ReceiverGone() returns (gone: bool) {
    gone := *;
  }

  /** One decoded item against what has been accepted so far. */
  method CheckItem(q: Request, next: nat, rows: nat, bytes: nat, schema: Option<nat>) returns (rows': nat, bytes': nat, rejection: Option<string>)
    requires next < |q.upload| && Accepted(q, next, rows, bytes, schema)
    ensures rejection.Some? ==> !Acceptable(q.upload)
    ensures rejection == Some("decode") <==> q.upload[next].Malformed?
    ensures rejection == Some("schema") <==>
      q.upload[next].Chunk? && schema.Some? && schema.value != q.upload[next].batch.schema
    ensures rejection.None? ==> q.upload[next].Chunk? && Accepted(q, next + 1, rows', bytes', Some(q.upload[next].batch.schema))
  {
    rows', bytes', rejection := rows, bytes, None;
    OneMore(q, next, rows, bytes, schema);
    if Acceptable(q.upload) {
      AcceptableShrinks(q.upload, next + 1, |q.upload|);
    }
    if q.upload[next].Malformed? {
      return rows, bytes, Some("decode");
    }
    var batch := q.upload[next].batch;
    if schema.Some? && schema.value != batch.schema {
      return rows, bytes, Some("schema");
    }
    rows' := SatAdd(rows, |batch.rows|);
    bytes' := SatAdd(bytes, batch.bytes);
    if rows' > MAX_ROWS || bytes' > MAX_BYTES {
      return rows', bytes', Some("limit");
    }
    AcceptNext(q, next, rows, bytes, schema, batch);
  }

  /**
    Read the upload, send its batches on, and stop at the first item that breaks a rule. An
    upload is rejected only if it is unacceptable, and unless the adapter has gone away an
    unacceptable one always is; what was sent are the first `taken` items, in order.
  */
  method ReadUpload(q: Request) returns (sent: seq<Batch>, rejection: Option<string>, gone: bool, ghost taken: nat)
    ensures rejection.Some? ==> !Acceptable(q.upload)
    ensures rejection.None? && !gone ==> Acceptable(q.upload) && sent == Chunks(q.upload)
    ensures taken <= |q.upload| && sent == Chunks(q.upload[..taken])
  {
    var rows: nat, bytes: nat, schema := 0, 0, None;
    sent, rejection, gone, taken := [], None, false, 0;
    for next := 0 to |q.upload|
      invariant Accepted(q, next, rows, bytes, schema) && taken == next && sent == Chunks(q.upload[..next])
      invariant rejection.None? && !gone
    {
      rows, bytes, rejection := CheckItem(q, next, rows, bytes, schema);
      if rejection.Some? {
        return;
      }
      schema := Some(q.upload[next].batch.schema);
      gone := ReceiverGone();
      if gone {
        return;
      }
      ChunksAppend(q, next);
      sent := sent + [q.upload[next].batch];
      taken := next + 1;
    }
    assert q.upload[..|q.upload|] == q.upload;
  }

  // ---- the adapter ----

  /** Nothing stops the adapter while receiving: no cancellation seen, one schema throughout. */
  ghost predicate Steady(arrivals: seq<Batch>, cancelled: seq<bool>) {
    && (forall i :: 0 <= i < |cancelled| ==> !cancelled[i])
    && (forall i :: 0 <= i < |arrivals| ==> arrivals[i].schema == arrivals[0].schema)
  }

  /**
    Receive until the sender closes. `cancelled[i]` is what the flag says after batch `i`, and its
    last element what it says once the channel has closed.
  */
  method Receive(arrivals: seq<Batch>, cancelled: seq<bool>) returns (incoming: seq<Batch>, rowCount: nat, error: Option<string>)
    requires |cancelled| == |arrivals| + 1
    ensures error.None? <==> Steady(arrivals, cancelled)
    ensures error.None? ==> incoming == arrivals && rowCount == Count(arrivals)
  {
    var schema: Option<nat> := None;
    incoming, rowCount, error := [], 0, None;
    for i := 0 to |arrivals|
      invariant incoming == arrivals[..i] && rowCount == Count(incoming) && error.None?
      invariant schema == if i == 0 then None else Some(arrivals[0].schema)
      invariant forall k :: 0 <= k < i ==> !cancelled[k] && arrivals[k].schema == arrivals[0].schema
    {
      if cancelled[i] {
        error := Some("cancelled");
        return;
      }
      if schema.Some? && schema.value != arrivals[i].schema {
        error := Some("ingest_schema_mismatch");
        return;
      }
      schema := Some(arrivals[i].schema);
      RowsAppend(incoming, arrivals[i]);
      rowCount := SatI64(rowCount, |arrivals[i].rows|);
      incoming := incoming + [arrivals[i]];
    }
    if cancelled[|arrivals|] {
      error := Some("cancelled");
    }
  }

  class DemoAdapter {
    var tables: Tables

    constructor ()
      ensures tables == map[]
    {
      tables := map[];
    }

    /** Collect the whole upload, then change the table in one step or not at all. */
    method Ingest(q: Request, arrivals: seq<Batch>, cancelled: seq<bool>) returns (r: Result<nat, string>)
      requires |cancelled| == |arrivals| + 1
      modifies this
      ensures r.Err? ==> tables == old(tables)
      ensures r.Ok? ==> Landed(old(tables), tables, q, arrivals) && r.value == Count(arrivals)
      ensures r.Ok? <==> !q.temporary && Steady(arrivals, cancelled) && Permits(old(tables), q, arrivals)
      ensures !q.temporary && Steady(arrivals, cancelled) ==> (tables, r) == Commit(old(tables), q, arrivals, Count(arrivals))
    {
      if q.temporary {
        return Err("unsupported_ingest_mode");
      }
      var incoming, rowCount, error := Receive(arrivals, cancelled);
      if error.Some? {
        return Err(error.value);
      }
      CommitLands(tables, q, incoming, rowCount);
      CommitsExactly(tables, q, incoming, rowCount);
      r := Store(q, incoming, rowCount);
    }

    method Store(q: Request, incoming: seq<Batch>, rowCount: nat) returns (r: Result<nat, string>)
      modifies this
      ensures (tables, r) == Commit(old(tables), q, incoming, rowCount)
    {
      var key := Lower(q.table);
      if key !in tables {
        if !q.createIfMissing {
          return Err("ingest_table_not_found");
        }
        tables := tables[key := incoming];
      } else if q.ifExists.Fail? {
        return Err("ingest_table_exists");
      } else if q.ifExists.Append? {
        var existing := tables[key];
        if existing != [] && incoming != [] && existing[0].schema != incoming[0].schema {
          return Err("ingest_schema_mismatch");
        }
        tables := tables[key := existing + incoming];
      } else {
        tables := tables[key := incoming];
      }
      return Ok(rowCount);
    }
  }
}
