/**
  Bulk ingestion: the Flight handler decodes an upload and feeds a bounded channel, the
  demo adapter collects the batches and swaps the table in one step.

  The two tasks interleave freely, share a cancel flag, and other requests may change the
  table map at any time. The handler itself is assumed to run to its reply.
*/
module Ingest {
  import opened Basics
  import opened Outcomes
  import opened Batches

  datatype Upload = Chunk(batch: Batch) | Malformed

  datatype TableExists = Fail | Append | Replace

  datatype Request = Request(
    table: string, createIfMissing: bool, ifExists: TableExists, temporary: bool, upload: seq<Upload>)

  type Tables = map<string, seq<Batch>>

  const CAPACITY := 2
  const MAX_ROWS := 1_000_000
  const MAX_BYTES := 64 * 1024 * 1024
  const I64_MAX: nat := 0x7FFF_FFFF_FFFF_FFFF

  function SatI64(a: nat, b: nat): nat {
    if a + b <= I64_MAX then a + b else I64_MAX
  }

  // ---- the adapter's commit ----

  function Commit(tables: Tables, q: Request, incoming: seq<Batch>, rows: nat): (Tables, Result<nat, string>) {
    var key := Lower(q.table);
    if key !in tables then
      if q.createIfMissing then (tables[key := incoming], Ok(rows)) else (tables, Err("ingest_table_not_found"))
    else
      var existing := tables[key];
      match q.ifExists
      case Fail => (tables, Err("ingest_table_exists"))
      case Append =>
        if existing != [] && incoming != [] && existing[0].schema != incoming[0].schema then
          (tables, Err("ingest_schema_mismatch"))
        else (tables[key := existing + incoming], Ok(rows))
      case Replace => (tables[key := incoming], Ok(rows))
  }

  /** The table holds exactly what the request asked for and no other table changed. */
  predicate Landed(before: Tables, after: Tables, q: Request, batches: seq<Batch>) {
    var key := Lower(q.table);
    && after.Keys == before.Keys + {key}
    && (forall k :: k in before && k != key ==> after[k] == before[k])
    && (key in before ==> !q.ifExists.Fail?) && (key !in before ==> q.createIfMissing)
    && after[key] == (if key in before && q.ifExists.Append? then before[key] else []) + batches
  }

  lemma CommitLands(tables: Tables, q: Request, incoming: seq<Batch>, rows: nat)
    ensures var (after, r) := Commit(tables, q, incoming, rows);
      (r.Ok? ==> r.value == rows && Landed(tables, after, q, incoming)) && (r.Err? ==> after == tables)
  {
    assert [] + incoming == incoming;
  }

  /** What the request's options allow on the table map as it is. */
  predicate Permits(tables: Tables, q: Request, incoming: seq<Batch>) {
    var key := Lower(q.table);
    || (key !in tables && q.createIfMissing)
    || (key in tables && q.ifExists.Replace?)
    || (key in tables && q.ifExists.Append?
        && (tables[key] == [] || incoming == [] || tables[key][0].schema == incoming[0].schema))
  }

  /** A commit goes through exactly if the options allow it. */
  lemma CommitsExactly(tables: Tables, q: Request, incoming: seq<Batch>, rows: nat)
    ensures Commit(tables, q, incoming, rows).1.Ok? <==> Permits(tables, q, incoming)
    ensures
      var r, key := Commit(tables, q, incoming, rows).1, Lower(q.table);
      var reason :=
        if key !in tables then "ingest_table_not_found" else if q.ifExists.Fail? then "ingest_table_exists" else "ingest_schema_mismatch";
      r.Err? ==> r == Err(reason)
  {
  }

  /** Table names are compared without regard to letter case: two spellings name one table exactly if they differ in case only. */
  lemma TablesIgnoreCase(tables: Tables, q: Request, spelling: string, incoming: seq<Batch>, rows: nat)
    ensures Lower(q.table) == Lower(spelling) <==> SameLetters(q.table, spelling)
    ensures SameLetters(q.table, spelling) ==>
      Commit(tables, q.(table := spelling), incoming, rows) == Commit(tables, q, incoming, rows)
  {
    LowerForgetsCase(q.table, spelling);
  }

  /** All batches have one schema. */
  predicate IsUniform(batches: seq<Batch>) {
    forall i :: 0 <= i < |batches| ==> batches[i].schema == batches[0].schema
  }

  predicate AreUniform(tables: Tables) {
    forall key :: key in tables ==> IsUniform(tables[key])
  }

  lemma CommitKeepsUniform(tables: Tables, q: Request, incoming: seq<Batch>, rows: nat)
    requires AreUniform(tables) && IsUniform(incoming)
    ensures AreUniform(Commit(tables, q, incoming, rows).0)
  {
    var key := Lower(q.table);
    if key in tables && q.ifExists.Append? && Permits(tables, q, incoming) {
      assert IsUniform(tables[key] + incoming);
    }
  }

  // ---- the two tasks ----

  datatype Producer =
    | Decoding(next: nat, rows: nat, bytes: nat, schema: Option<nat>)
    | Sending(next: nat, rows: nat, bytes: nat, schema: Option<nat>, batch: Batch)
    /** The cancel flag is set; the sender is still open. */
    | Cancelled(reason: string)
    /** The sender is closed; waiting for the adapter, with a rejection to report or none. */
    | Joining(rejection: Option<string>)
    | Replied(reply: Result<nat, string>)

  datatype Consumer =
    | Starting
    | Receiving(incoming: seq<Batch>, schema: Option<nat>, rowCount: nat)
    | Checking(batch: Batch, incoming: seq<Batch>, schema: Option<nat>, rowCount: nat)
    | Closing(incoming: seq<Batch>, rowCount: nat)
    | Committing(incoming: seq<Batch>, rowCount: nat)
    | Done(result: Result<nat, string>)

  datatype System = System(
    tables: Tables,
    channel: seq<Batch>,
    cancelled: bool,
    producer: Producer,
    consumer: Consumer,
    /** History: the table map just before and just after this request's commit. */
    committed: Option<(Tables, Tables)>,
    /** History: the table map the commit was tried on. */
    triedOn: Option<Tables>)

  predicate SenderOpen(p: Producer) {
    p.Decoding? || p.Sending? || p.Cancelled?
  }

  /** The handler looks at the next decoded item; a rejection first sets the cancel flag. */
  function Decode(s: System, item: Upload, next: nat, rows: nat, bytes: nat, schema: Option<nat>): System {
    match item
    case Malformed => s.(cancelled := true, producer := Cancelled("decode"))
    case Chunk(batch) =>
      var rows' := SatAdd(rows, |batch.rows|);
      var bytes' := SatAdd(bytes, batch.bytes);
      if schema.Some? && schema.value != batch.schema then
        s.(cancelled := true, producer := Cancelled("schema"))
      else if rows' > MAX_ROWS || bytes' > MAX_BYTES then
        s.(cancelled := true, producer := Cancelled("limit"))
      else s.(producer := Sending(next + 1, rows', bytes', Some(batch.schema), batch))
  }

  function ProducerStep(q: Request, s: System): System {
    match s.producer
    case Decoding(next, rows, bytes, schema) =>
      if next >= |q.upload| then s.(producer := Joining(None))
      else Decode(s, q.upload[next], next, rows, bytes, schema)
    case Sending(next, rows, bytes, schema, batch) =>
      if s.consumer.Done? then s.(producer := Joining(None))
      else if |s.channel| < CAPACITY then
        s.(channel := s.channel + [batch], producer := Decoding(next, rows, bytes, schema))
      else s
    case Cancelled(reason) => s.(producer := Joining(Some(reason)))
    case Joining(rejection) =>
      if !s.consumer.Done? then s
      else if rejection.Some? then s.(producer := Replied(Err(rejection.value)))
      else s.(producer := Replied(s.consumer.result))
    case Replied(_) => s
  }

  /** `admitted` is whether the gateway's own checks let the request through to the adapter. */
  function ConsumerStep(q: Request, s: System, admitted: bool): System {
    match s.consumer
    case Starting =>
      if admitted && !q.temporary then s.(consumer := Receiving([], None, 0))
      else s.(consumer := Done(Err("not_admitted")), channel := [])
    case Receiving(incoming, schema, rowCount) =>
      if s.channel != [] then
        s.(channel := s.channel[1..], consumer := Checking(s.channel[0], incoming, schema, rowCount))
      else if SenderOpen(s.producer) then s
      else s.(consumer := Closing(incoming, rowCount))
    case Checking(batch, incoming, schema, rowCount) =>
      if s.cancelled then s.(consumer := Done(Err("cancelled")), channel := [])
      else if schema.Some? && schema.value != batch.schema then
        s.(consumer := Done(Err("ingest_schema_mismatch")), channel := [])
      else s.(consumer := Receiving(incoming + [batch], Some(batch.schema), SatI64(rowCount, |batch.rows|)))
    case Closing(incoming, rowCount) =>
      s.(consumer := if s.cancelled then Done(Err("cancelled")) else Committing(incoming, rowCount))
    case Committing(incoming, rowCount) =>
      var (after, result) := Commit(s.tables, q, incoming, rowCount);
      s.(tables := after, consumer := Done(result), triedOn := Some(s.tables),
         committed := if result.Ok? then Some((s.tables, after)) else s.committed)
    case Done(_) => s
  }

  datatype Action = Produce | Consume(admitted: bool) | Others(tables: Tables)

  function Next(q: Request, s: System, a: Action): System {
    match a
    case Produce => ProducerStep(q, s)
    case Consume(admitted) => ConsumerStep(q, s, admitted)
    case Others(tables) => s.(tables := tables)
  }

  function Run(q: Request, s: System, actions: seq<Action>): System {
    if actions == [] then s else Next(q, Run(q, s, actions[..|actions| - 1]), actions[|actions| - 1])
  }

  function Initial(tables: Tables): System {
    System(tables, [], false, Decoding(0, 0, 0, None), Starting, None, None)
  }

  // ---- what an upload amounts to ----

  function Chunks(upload: seq<Upload>): seq<Batch> {
    if upload == [] then []
    else
      var last := upload[|upload| - 1];
      Chunks(upload[..|upload| - 1]) + if last.Chunk? then [last.batch] else []
  }

  /** The first `n` items are well formed, of one schema and within the request limits. */
  ghost predicate AcceptableTo(upload: seq<Upload>, n: nat)
    requires n <= |upload|
  {
    && (forall i :: 0 <= i < n ==> upload[i].Chunk? && upload[0].Chunk? && upload[i].batch.schema == upload[0].batch.schema)
    && |Rows(Chunks(upload[..n]))| <= MAX_ROWS && Bytes(Chunks(upload[..n])) <= MAX_BYTES
  }

  ghost predicate Acceptable(upload: seq<Upload>) {
    AcceptableTo(upload, |upload|)
  }

  /** The bookkeeping the handler has after accepting the first `next` items. */
  ghost predicate Accepted(q: Request, next: nat, rows: nat, bytes: nat, schema: Option<nat>) {
    && next <= |q.upload| && AcceptableTo(q.upload, next)
    && rows == |Rows(Chunks(q.upload[..next]))| && bytes == Bytes(Chunks(q.upload[..next]))
    && (schema.None? <==> next == 0)
    && (next > 0 ==> schema == Some(q.upload[0].batch.schema))
  }

  lemma ChunksAppend(q: Request, next: nat)
    requires next < |q.upload| && q.upload[next].Chunk?
    ensures Chunks(q.upload[..next + 1]) == Chunks(q.upload[..next]) + [q.upload[next].batch]
    ensures |Rows(Chunks(q.upload[..next + 1]))| == |Rows(Chunks(q.upload[..next]))| + |q.upload[next].batch.rows|
    ensures Bytes(Chunks(q.upload[..next + 1])) == Bytes(Chunks(q.upload[..next])) + q.upload[next].batch.bytes
  {
    assert q.upload[..next + 1][..next] == q.upload[..next];
    RowsAppend(Chunks(q.upload[..next]), q.upload[next].batch);
  }

  /** Batches between the handler and the table: collected, in hand, or in the channel. */
  function InFlight(channel: seq<Batch>, consumer: Consumer): seq<Batch> {
    match consumer
    case Starting => channel
    case Receiving(incoming, _, _) => incoming + channel
    case Checking(batch, incoming, _, _) => incoming + [batch] + channel
    case Closing(incoming, _) => incoming
    case Committing(incoming, _) => incoming
    case Done(_) => []
  }

  // ---- the invariant ----

  ghost predicate ProducerInv(q: Request, s: System) {
    && (s.cancelled ==> !Acceptable(q.upload))
    && match s.producer
       case Decoding(next, rows, bytes, schema) =>
         && !s.cancelled && Accepted(q, next, rows, bytes, schema)
         && (!s.consumer.Done? ==> InFlight(s.channel, s.consumer) == Chunks(q.upload[..next]))
       case Sending(next, rows, bytes, schema, batch) =>
         && !s.cancelled && next > 0 && Accepted(q, next, rows, bytes, schema) && q.upload[next - 1] == Chunk(batch)
         && (!s.consumer.Done? ==> InFlight(s.channel, s.consumer) == Chunks(q.upload[..next - 1]))
       case Cancelled(_) => s.cancelled
       case Joining(rejection) =>
         && (s.cancelled <==> rejection.Some?)
         && (rejection.None? && !s.consumer.Done? ==> Acceptable(q.upload) && InFlight(s.channel, s.consumer) == Chunks(q.upload))
       case Replied(reply) =>
         && s.consumer.Done? && (s.cancelled ==> reply.Err?) && (!s.cancelled ==> reply == s.consumer.result)
  }

  ghost predicate ConsumerInv(q: Request, s: System) {
    match s.consumer
    case Receiving(incoming, schema, rowCount) => rowCount == Count(incoming) && schema == LastSchema(incoming)
    case Checking(_, incoming, schema, rowCount) => rowCount == Count(incoming) && schema == LastSchema(incoming)
    case Closing(incoming, rowCount) =>
      rowCount == Count(incoming) && s.channel == [] && !SenderOpen(s.producer)
    case Committing(incoming, rowCount) =>
      rowCount == Count(incoming) && s.channel == [] && !SenderOpen(s.producer) && !s.cancelled
    case _ => true
  }

  function LastSchema(batches: seq<Batch>): Option<nat> {
    if batches == [] then None else Some(batches[|batches| - 1].schema)
  }

  function Count(batches: seq<Batch>): nat {
    Min(|Rows(batches)|, I64_MAX)
  }

  ghost predicate CommitInv(q: Request, s: System) {
    && (s.committed.Some? <==> s.consumer.Done? && s.consumer.result.Ok?)
    && (s.committed.Some? ==>
          && !s.cancelled && !SenderOpen(s.producer) && Acceptable(q.upload)
          && Commit(s.committed.value.0, q, Chunks(q.upload), |Rows(Chunks(q.upload))|)
             == (s.committed.value.1, s.consumer.result))
  }

  ghost predicate Inv(q: Request, s: System) {
    && |s.channel| <= CAPACITY && ProducerInv(q, s) && ConsumerInv(q, s) && CommitInv(q, s)
    && (s.consumer.Done? ==> s.channel == [])
  }

  /** Accepting one more item keeps the bookkeeping exact. */
  lemma AcceptNext(q: Request, next: nat, rows: nat, bytes: nat, schema: Option<nat>, batch: Batch)
    requires Accepted(q, next, rows, bytes, schema) && next < |q.upload| && q.upload[next] == Chunk(batch)
    requires schema.Some? ==> schema.value == batch.schema
    requires rows + |batch.rows| <= MAX_ROWS && bytes + batch.bytes <= MAX_BYTES
    ensures Accepted(q, next + 1, rows + |batch.rows|, bytes + batch.bytes, Some(batch.schema))
  {
    ChunksAppend(q, next);
  }

  /** While the sender is open, the handler's own moves are all that has to be looked at. */
  lemma ProducerMoves(q: Request, s: System, channel: seq<Batch>, cancelled: bool, producer: Producer)
    requires Inv(q, s) && SenderOpen(s.producer) && |channel| <= CAPACITY && (s.consumer.Done? ==> channel == [])
    requires ProducerInv(q, s.(channel := channel, cancelled := cancelled, producer := producer))
    ensures Inv(q, s.(channel := channel, cancelled := cancelled, producer := producer))
  {
  }

  lemma {:induction false} AcceptableShrinks(upload: seq<Upload>, n: nat, m: nat)
    requires n <= m <= |upload| && AcceptableTo(upload, m)
    ensures AcceptableTo(upload, n)
    decreases m
  {
    if n < m {
      ShrinkByOne(upload, m - 1);
      AcceptableShrinks(upload, n, m - 1);
    }
  }

  lemma ShrinkByOne(upload: seq<Upload>, n: nat)
    requires n < |upload| && AcceptableTo(upload, n + 1)
    ensures AcceptableTo(upload, n)
  {
    assert upload[n].Chunk?;
    ChunksAppend(Request("", false, Fail, false, upload), n);
  }

  /** What the handler's counters hold decides whether one more item is acceptable. */
  lemma OneMore(q: Request, next: nat, rows: nat, bytes: nat, schema: Option<nat>)
    requires Accepted(q, next, rows, bytes, schema) && next < |q.upload|
    ensures AcceptableTo(q.upload, next + 1) <==>
      && q.upload[next].Chunk? && (schema.Some? ==> schema.value == q.upload[next].batch.schema)
      && rows + |q.upload[next].batch.rows| <= MAX_ROWS && bytes + q.upload[next].batch.bytes <= MAX_BYTES
  {
    if q.upload[next].Chunk? {
      ChunksAppend(q, next);
    } else {
      assert !AcceptableTo(q.upload, next + 1);
    }
  }

  /** The handler rejects only what is unacceptable. */
  lemma RejectOne(q: Request, s: System)
    requires ProducerInv(q, s) && s.producer.Decoding? && ProducerStep(q, s).cancelled
    ensures !Acceptable(q.upload)
  {
    var Decoding(next, rows, bytes, schema) := s.producer;
    OneMore(q, next, rows, bytes, schema);
    if Acceptable(q.upload) {
      AcceptableShrinks(q.upload, next + 1, |q.upload|);
    }
  }

  lemma AcceptOne(q: Request, s: System)
    requires ProducerInv(q, s) && s.producer.Decoding? && ProducerStep(q, s).producer.Sending?
    ensures ProducerInv(q, ProducerStep(q, s))
  {
    var Decoding(next, rows, bytes, schema) := s.producer;
    var batch := ProducerStep(q, s).producer.batch;
    AcceptNext(q, next, rows, bytes, schema, batch);
  }

  lemma DecodeOne(q: Request, s: System)
    requires ProducerInv(q, s) && s.producer.Decoding?
    ensures ProducerInv(q, ProducerStep(q, s))
  {
    var t := ProducerStep(q, s);
    if t.producer.Cancelled? {
      RejectOne(q, s);
    } else if t.producer.Sending? {
      AcceptOne(q, s);
    } else {
      assert q.upload[..s.producer.next] == q.upload;
    }
  }

  lemma SentOneMore(s: System, batch: Batch)
    requires !s.consumer.Done? && !s.consumer.Closing? && !s.consumer.Committing?
    ensures InFlight(s.channel + [batch], s.consumer) == InFlight(s.channel, s.consumer) + [batch]
  {
  }

  lemma SendOne(q: Request, s: System)
    requires ProducerInv(q, s) && ConsumerInv(q, s) && s.producer.Sending?
    ensures ProducerInv(q, ProducerStep(q, s))
  {
    var t := ProducerStep(q, s);
    if t.producer.Decoding? {
      ChunksAppend(q, s.producer.next - 1);
      SentOneMore(s, s.producer.batch);
    }
  }

  lemma ProducerShape(q: Request, s: System)
    ensures
      var t := ProducerStep(q, s);
      && t == s.(channel := t.channel, cancelled := t.cancelled, producer := t.producer)
      && (t.channel == s.channel || (!s.consumer.Done? && |t.channel| <= CAPACITY))
  {
  }

  lemma SenderKeepsInv(q: Request, s: System)
    requires Inv(q, s) && (s.producer.Decoding? || s.producer.Sending?)
    requires ProducerInv(q, ProducerStep(q, s))
    ensures Inv(q, ProducerStep(q, s))
  {
    var t := ProducerStep(q, s);
    ProducerShape(q, s);
    ProducerMoves(q, s, t.channel, t.cancelled, t.producer);
  }

  lemma ProducerKeepsInv(q: Request, s: System)
    requires Inv(q, s)
    ensures Inv(q, ProducerStep(q, s))
  {
    if s.producer.Decoding? {
      DecodeOne(q, s);
      SenderKeepsInv(q, s);
    } else if s.producer.Sending? {
      SendOne(q, s);
      SenderKeepsInv(q, s);
    }
  }

  /** A move of the adapter that loses nothing on the way, or gives up. */
  lemma ConsumerMoves(q: Request, s: System, channel: seq<Batch>, consumer: Consumer)
    requires Inv(q, s) && !s.consumer.Done? && |channel| <= CAPACITY
    requires consumer.Done? ==> channel == [] && consumer.result.Err?
    requires !consumer.Done? ==> InFlight(channel, consumer) == InFlight(s.channel, s.consumer)
    requires ConsumerInv(q, s.(channel := channel, consumer := consumer))
    ensures Inv(q, s.(channel := channel, consumer := consumer))
  {
  }

  /** The adapter's moves up to the commit keep the batches in flight and their count. */
  lemma CollectOne(q: Request, s: System, admitted: bool)
    requires ConsumerInv(q, s) && (s.consumer.Done? ==> s.channel == [])
    requires s.consumer.Starting? || s.consumer.Receiving? || s.consumer.Checking? || s.consumer.Closing?
    ensures
      var t := ConsumerStep(q, s, admitted);
      && t == s.(channel := t.channel, consumer := t.consumer) && |t.channel| <= |s.channel| && ConsumerInv(q, t)
      && (t.consumer.Done? ==> t.channel == [] && t.consumer.result.Err?)
      && (!t.consumer.Done? ==> InFlight(t.channel, t.consumer) == InFlight(s.channel, s.consumer))
  {
    if s.consumer.Checking? {
      RowsAppend(s.consumer.incoming, s.consumer.batch);
    } else if s.consumer.Receiving? && s.channel != [] {
      var incoming := s.consumer.incoming;
      assert s.channel == [s.channel[0]] + s.channel[1..];
      assert incoming + [s.channel[0]] + s.channel[1..] == incoming + s.channel;
    }
  }

  lemma CollectKeepsInv(q: Request, s: System, admitted: bool)
    requires Inv(q, s) && (s.consumer.Starting? || s.consumer.Receiving? || s.consumer.Checking? || s.consumer.Closing?)
    ensures Inv(q, ConsumerStep(q, s, admitted))
  {
    var t := ConsumerStep(q, s, admitted);
    CollectOne(q, s, admitted);
    ConsumerMoves(q, s, t.channel, t.consumer);
  }

  lemma CommitKeepsInv(q: Request, s: System)
    requires Inv(q, s) && s.consumer.Committing?
    ensures Inv(q, ConsumerStep(q, s, true))
  {
    assert s.producer == Joining(None);
    assert q.upload[..|q.upload|] == q.upload;
  }

  lemma ConsumerKeepsInv(q: Request, s: System, admitted: bool)
    requires Inv(q, s)
    ensures Inv(q, ConsumerStep(q, s, admitted))
  {
    if s.consumer.Committing? {
      CommitKeepsInv(q, s);
    } else if !s.consumer.Done? {
      CollectKeepsInv(q, s, admitted);
    }
  }

  lemma {:induction false} ReachableInv(q: Request, tables: Tables, actions: seq<Action>)
    ensures Inv(q, Run(q, Initial(tables), actions))
  {
    if actions != [] {
      var front, a := actions[..|actions| - 1], actions[|actions| - 1];
      ReachableInv(q, tables, front);
      var s := Run(q, Initial(tables), front);
      match a
      case Produce => ProducerKeepsInv(q, s);
      case Consume(admitted) => ConsumerKeepsInv(q, s, admitted);
      case Others(_) =>
    }
  }

  /**
    All or nothing, over every interleaving: the reply is a row count exactly when the request
    committed; then the upload was acceptable and exactly its batches, in order, were created,
    appended or swapped in, and the count is their number of rows. An acceptable upload is
    never rejected by the handler: its reply is the adapter's answer.
  */
  lemma AllOrNothing(q: Request, tables: Tables, actions: seq<Action>)
    requires Run(q, Initial(tables), actions).producer.Replied?
    ensures
      var s := Run(q, Initial(tables), actions);
      var reply := s.producer.reply;
      && s.consumer.Done? && (reply.Ok? <==> s.committed.Some?)
      && (Acceptable(q.upload) ==> reply == s.consumer.result)
      && (reply.Ok? ==>
            && Acceptable(q.upload) && reply.value == |Rows(Chunks(q.upload))|
            && Landed(s.committed.value.0, s.committed.value.1, q, Chunks(q.upload)))
  {
    ReachableInv(q, tables, actions);
    var s := Run(q, Initial(tables), actions);
    if s.committed.Some? {
      CommitLands(s.committed.value.0, q, Chunks(q.upload), |Rows(Chunks(q.upload))|);
    }
  }

  /** With no other request around, the table map is the committed one or still the original. */
  lemma {:induction false} NothingElseTouched(q: Request, tables: Tables, actions: seq<Action>)
    requires forall i :: 0 <= i < |actions| ==> !actions[i].Others?
    ensures
      var s := Run(q, Initial(tables), actions);
      && s.tables == (if s.committed.Some? then s.committed.value.1 else tables)
      && (s.committed.Some? ==> s.committed.value.0 == tables)
  {
    if actions != [] {
      NothingElseTouched(q, tables, actions[..|actions| - 1]);
      ReachableInv(q, tables, actions[..|actions| - 1]);
      StepTouches(q, Run(q, Initial(tables), actions[..|actions| - 1]), actions[|actions| - 1]);
    }
  }

  /** Apart from other requests, only a successful commit changes the table map. */
  lemma StepTouches(q: Request, s: System, a: Action)
    requires !a.Others?
    ensures
      var t := Next(q, s, a);
      || (t.tables == s.tables && t.committed == s.committed)
      || (s.consumer.Committing? && t.committed == Some((s.tables, t.tables)))
  {
    if a.Consume? && s.consumer.Committing? {
      CommitLands(s.tables, q, s.consumer.incoming, s.consumer.rowCount);
    }
  }

  // ---- exactly when an upload is accepted ----

  lemma {:induction false} AcceptableHasOneSchema(upload: seq<Upload>, n: nat, i: nat)
    requires n <= |upload| && AcceptableTo(upload, n) && i < |Chunks(upload[..n])|
    ensures n > 0 && upload[0].Chunk? && Chunks(upload[..n])[i].schema == upload[0].batch.schema
  {
    assert n > 0 by {
      assert upload[..0] == [];
    }
    ShrinkByOne(upload, n - 1);
    ChunksAppend(Request("", false, Fail, false, upload), n - 1);
    if i < |Chunks(upload[..n - 1])| {
      AcceptableHasOneSchema(upload, n - 1, i);
    }
  }

  /** While an acceptable upload is under way, what is in flight is the part of it that was sent. */
  lemma FlightIsPrefix(q: Request, s: System) returns (n: nat)
    requires ProducerInv(q, s) && Acceptable(q.upload) && !s.consumer.Done?
    ensures n <= |q.upload| && AcceptableTo(q.upload, n) && InFlight(s.channel, s.consumer) == Chunks(q.upload[..n])
  {
    assert q.upload[..|q.upload|] == q.upload;
    n := |q.upload|;
    if s.producer.Decoding? {
      n := s.producer.next;
    } else if s.producer.Sending? {
      n := s.producer.next - 1;
      ShrinkByOne(q.upload, n);
    }
  }

  /** The adapter never finds two schemas in an acceptable upload. */
  lemma NoMismatch(q: Request, s: System)
    requires ProducerInv(q, s) && ConsumerInv(q, s) && Acceptable(q.upload) && s.consumer.Checking?
    ensures s.consumer.schema.Some? ==> s.consumer.schema.value == s.consumer.batch.schema
  {
    var n := FlightIsPrefix(q, s);
    var Checking(batch, incoming, schema, _) := s.consumer;
    var flight := InFlight(s.channel, s.consumer);
    assert flight[|incoming|] == batch;
    AcceptableHasOneSchema(q.upload, n, |incoming|);
    if incoming != [] {
      assert flight[|incoming| - 1] == incoming[|incoming| - 1];
      AcceptableHasOneSchema(q.upload, n, |incoming| - 1);
    }
  }

  /** What the gateway's checks decided when the adapter's side started, if it has. */
  function Admission(actions: seq<Action>): Option<bool> {
    if actions == [] then None
    else
      var before, a := Admission(actions[..|actions| - 1]), actions[|actions| - 1];
      if before.None? && a.Consume? then Some(a.admitted) else before
  }

  predicate IsAdmitted(q: Request, admission: Option<bool>) {
    admission == Some(true) && !q.temporary
  }

  /** Where the adapter is, given what was decided at its start. */
  ghost predicate AdmissionInv(q: Request, s: System, admission: Option<bool>) {
    && (s.consumer.Starting? <==> admission.None?)
    && (s.triedOn.Some? ==> s.consumer.Done? && IsAdmitted(q, admission))
    && match s.consumer
       case Starting => true
       case Done(result) =>
         && (!IsAdmitted(q, admission) ==> result.Err?)
         && (s.triedOn.Some? ==> (result.Ok? <==> Permits(s.triedOn.value, q, Chunks(q.upload))))
         && (IsAdmitted(q, admission) && Acceptable(q.upload) ==> s.triedOn.Some?)
       case _ => IsAdmitted(q, admission)
  }

  lemma CommitTries(q: Request, s: System)
    requires Inv(q, s) && s.consumer.Committing?
    ensures s.consumer.incoming == Chunks(q.upload) && Acceptable(q.upload)
  {
    assert q.upload[..|q.upload|] == q.upload;
  }

  lemma ConsumerKeepsAdmission(q: Request, s: System, admitted: bool, admission: Option<bool>)
    requires Inv(q, s) && AdmissionInv(q, s, admission)
    ensures AdmissionInv(q, ConsumerStep(q, s, admitted), if admission.None? then Some(admitted) else admission)
  {
    if s.consumer.Committing? {
      CommitTries(q, s);
      CommitsExactly(s.tables, q, s.consumer.incoming, s.consumer.rowCount);
    } else if s.consumer.Checking? && Acceptable(q.upload) {
      NoMismatch(q, s);
    }
  }

  lemma ProducerKeepsAdmission(q: Request, s: System, admission: Option<bool>)
    requires AdmissionInv(q, s, admission)
    ensures AdmissionInv(q, ProducerStep(q, s), admission)
  {
    ProducerShape(q, s);
  }

  lemma {:induction false} RunKeepsAdmission(q: Request, tables: Tables, actions: seq<Action>)
    ensures AdmissionInv(q, Run(q, Initial(tables), actions), Admission(actions))
  {
    if actions != [] {
      var front, a := actions[..|actions| - 1], actions[|actions| - 1];
      var s := Run(q, Initial(tables), front);
      RunKeepsAdmission(q, tables, front);
      ReachableInv(q, tables, front);
      match a
      case Produce => ProducerKeepsAdmission(q, s, Admission(front));
      case Consume(admitted) => ConsumerKeepsAdmission(q, s, admitted, Admission(front));
      case Others(_) =>
    }
  }

  /**
    Exactly when an upload succeeds, under every interleaving: the reply is a row count if and only if
    the upload is acceptable, the gateway admitted it, it is not temporary, and the options allow it on
    the table map as it was when the commit was tried.
  */
  lemma AcceptedExactly(q: Request, tables: Tables, actions: seq<Action>)
    requires Run(q, Initial(tables), actions).producer.Replied?
    ensures
      var s := Run(q, Initial(tables), actions);
      var welcome := Acceptable(q.upload) && IsAdmitted(q, Admission(actions));
      && (welcome ==> s.triedOn.Some?)
      && (s.producer.reply.Ok? <==> welcome && Permits(s.triedOn.value, q, Chunks(q.upload)))
  {
    ReachableInv(q, tables, actions);
    RunKeepsAdmission(q, tables, actions);
  }

  // ---- one schema per table ----

  /** Other requests leave tables of one schema behind. */
  predicate OthersAreUniform(actions: seq<Action>) {
    forall i :: 0 <= i < |actions| && actions[i].Others? ==> AreUniform(actions[i].tables)
  }

  /** Tables of one schema stay tables of one schema. */
  lemma {:induction false} TablesStayUniform(q: Request, tables: Tables, actions: seq<Action>)
    requires AreUniform(tables) && OthersAreUniform(actions)
    ensures AreUniform(Run(q, Initial(tables), actions).tables)
  {
    if actions != [] {
      var front, a := actions[..|actions| - 1], actions[|actions| - 1];
      var s := Run(q, Initial(tables), front);
      TablesStayUniform(q, tables, front);
      ReachableInv(q, tables, front);
      if a.Consume? && s.consumer.Committing? {
        CommitTries(q, s);
        assert q.upload[..|q.upload|] == q.upload;
        forall i | 0 <= i < |Chunks(q.upload)| ensures Chunks(q.upload)[i].schema == Chunks(q.upload)[0].schema {
          AcceptableHasOneSchema(q.upload, |q.upload|, i);
          AcceptableHasOneSchema(q.upload, |q.upload|, 0);
        }
        CommitKeepsUniform(s.tables, q, s.consumer.incoming, s.consumer.rowCount);
      } else if !a.Others? {
        StepTouches(q, s, a);
      }
    }
  }

  // ---- progress ----

  /** How many moves the handler has left, counting what it may still hand over. */
  function HandlerWork(q: Request, p: Producer): nat {
    match p
    case Decoding(next, _, _, _) => (if next <= |q.upload| then 4 * (|q.upload| - next) else 0) + 3
    case Sending(next, _, _, _, _) => (if next <= |q.upload| then 4 * (|q.upload| - next) else 0) + 6
    case Cancelled(_) => 2
    case Joining(_) => 1
    case Replied(_) => 0
  }

  function AdapterWork(c: Consumer): nat {
    match c
    case Starting => 4
    case Receiving(_, _, _) => 3
    case Checking(_, _, _, _) => 4
    case Closing(_, _) => 2
    case Committing(_, _) => 1
    case Done(_) => 0
  }

  function Work(q: Request, s: System): nat {
    HandlerWork(q, s.producer) + 2 * |s.channel| + AdapterWork(s.consumer)
  }

  lemma HandlerMoveIsWork(q: Request, s: System)
    requires ProducerStep(q, s) != s
    ensures Work(q, ProducerStep(q, s)) < Work(q, s)
  {
  }

  lemma AdapterMoveIsWork(q: Request, s: System, admitted: bool)
    requires ConsumerStep(q, s, admitted) != s
    ensures Work(q, ConsumerStep(q, s, admitted)) < Work(q, s)
  {
  }

  /** One of the two sides did something in step `a`. */
  predicate Moves(q: Request, s: System, a: Action) {
    !a.Others? && Next(q, s, a) != s
  }

  /** How often that was so in a run. */
  function MovesMade(q: Request, s: System, actions: seq<Action>): nat {
    if actions == [] then 0
    else
      var front, a := actions[..|actions| - 1], actions[|actions| - 1];
      MovesMade(q, s, front) + if Moves(q, Run(q, s, front), a) then 1 else 0
  }

  lemma {:induction false} MovesAreWork(q: Request, tables: Tables, actions: seq<Action>)
    ensures MovesMade(q, Initial(tables), actions) + Work(q, Run(q, Initial(tables), actions)) <= 4 * |q.upload| + 7
  {
    if actions != [] {
      var front, a := actions[..|actions| - 1], actions[|actions| - 1];
      MovesAreWork(q, tables, front);
      var s := Run(q, Initial(tables), front);
      if Moves(q, s, a) {
        if a.Produce? {
          HandlerMoveIsWork(q, s);
        } else {
          AdapterMoveIsWork(q, s, a.admitted);
        }
      }
    }
  }

  /** Until the reply is given, one of the two sides can move. */
  lemma SomeoneMoves(q: Request, s: System)
    requires Inv(q, s) && !s.producer.Replied?
    ensures Moves(q, s, Produce) || Moves(q, s, Consume(true))
  {
  }

  /**
    Every upload is answered: no run, however it interleaves, holds more than four moves per uploaded
    item and seven, and as long as the reply has not been given there is another move.
  */
  lemma ReplyIsNear(q: Request, tables: Tables, actions: seq<Action>)
    ensures
      var s := Run(q, Initial(tables), actions);
      && MovesMade(q, Initial(tables), actions) <= 4 * |q.upload| + 7
      && (!s.producer.Replied? ==> Moves(q, s, Produce) || Moves(q, s, Consume(true)))
      && (MovesMade(q, Initial(tables), actions) == 4 * |q.upload| + 7 ==> s.producer.Replied?)
  {
    MovesAreWork(q, tables, actions);
    ReachableInv(q, tables, actions);
    if !Run(q, Initial(tables), actions).producer.Replied? {
      SomeoneMoves(q, Run(q, Initial(tables), actions));
    }
  }
}
