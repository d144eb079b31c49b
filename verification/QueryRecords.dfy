/**
  The gateway's record of one query: result retention and the event history.

  A record takes the adapter's batches in memory until a threshold, then moves to a
  spill file; the collector drains the adapter's two channels into it and announces one
  terminal event. `Contents` is the plain list of retained batches that both storage
  forms stand for.
*/
module QueryRecords {
  import opened Basics
  import opened Outcomes
  import opened Batches
  import opened Queries

  datatype ResultStorage = Memory(batches: seq<Batch>) | Spill(file: seq<Batch>, open: bool)

  datatype Limits = Limits(memoryBytes: nat, maxBytes: nat)

  /** Which disk operation fails while a batch is stored, if any. */
  datatype Fault = NoFault | OpenFails | CopyFails | AppendFails

  datatype ServiceEvent = ServiceEvent(id: nat, event: QueryEvent, terminal: bool)

  function Terminals(events: seq<ServiceEvent>): nat {
    if events == [] then 0
    else Terminals(events[..|events| - 1]) + if events[|events| - 1].terminal then 1 else 0
  }

  lemma TerminalsAppend(events: seq<ServiceEvent>, e: ServiceEvent)
    ensures Terminals(events + [e]) == Terminals(events) + if e.terminal then 1 else 0
  {
    assert (events + [e])[..|events|] == events;
  }

  class QueryRecord {
    var phase: Phase
    var engineQueryId: Option<string>
    var rows: nat
    var retainedBytes: nat
    var schema: Option<nat>
    var storage: ResultStorage
    var events: seq<ServiceEvent>
    var nextEventId: nat
    var error: Option<string>
    var completedAt: Option<int>
    var cancelRequested: bool

    /** The retained batches, wherever they are. */
    function Contents(): seq<Batch>
      reads this
    {
      if storage.Memory? then storage.batches else storage.file
    }

    /**
      Event ids are 1, 2, 3, ..., no sensitive value shows, and the completion time is set exactly
      when a terminal event was recorded.
    */
    ghost predicate Valid()
      reads this
    {
      && nextEventId == |events| + 1
      && (forall i :: 0 <= i < |events| ==> events[i].id == i + 1 && IsDiscreet(events[i].event))
      && (forall i :: 0 <= i < |events| ==> (events[i].terminal ==> IsTerminalEvent(events[i].event)))
      && (completedAt.Some? <==> Terminals(events) > 0)
    }

    /** The record holds exactly `batches`, with the sums that go with them. */
    ghost predicate Holds(batches: seq<Batch>)
      reads this
    {
      Contents() == batches && rows == |Rows(batches)| && retainedBytes == Bytes(batches)
    }

    constructor ()
      ensures Valid() && Holds([]) && events == [] && phase == Submitted
      ensures error == None && storage == Memory([]) && !cancelRequested && engineQueryId == None
    {
      phase, engineQueryId, rows, retainedBytes, schema := Submitted, None, 0, 0, None;
      storage, events, nextEventId, error, completedAt, cancelRequested := Memory([]), [], 1, None, None, false;
    }

    // ---- events ----

    method PushEvent(event: QueryEvent, terminal: bool, now: int)
      requires Valid() && (terminal ==> IsTerminalEvent(event)) && IsDiscreet(event)
      modifies this`phase, this`completedAt, this`events, this`nextEventId
      ensures Valid()
      ensures events == old(events) + [ServiceEvent(|old(events)| + 1, event, terminal)]
      ensures phase == if event.StateChange? then event.phase else old(phase)
      ensures completedAt == if terminal then Some(now) else old(completedAt)
      ensures Terminals(events) == Terminals(old(events)) + if terminal then 1 else 0
    {
      if event.StateChange? {
        phase := event.phase;
        if terminal {
          completedAt := Some(now);
        }
      }
      var entry := ServiceEvent(nextEventId, event, terminal);
      nextEventId := nextEventId + 1;
      events := events + [entry];
      TerminalsAppend(old(events), entry);
    }

    method RecordEvent(event: QueryEvent, now: int)
      requires Valid()
      modifies this`phase, this`completedAt, this`events, this`nextEventId, this`engineQueryId
      ensures Valid()
      ensures events == old(events) + [ServiceEvent(|old(events)| + 1, Redacted(event), IsTerminalEvent(event))]
      ensures phase == if event.StateChange? then event.phase else old(phase)
      ensures engineQueryId == if event.EngineQueryId? then Some(event.id) else old(engineQueryId)
      ensures completedAt == if IsTerminalEvent(event) then Some(now) else old(completedAt)
      ensures Terminals(events) == Terminals(old(events)) + if IsTerminalEvent(event) then 1 else 0
    {
      if event.EngineQueryId? {
        engineQueryId := Some(event.id);
      }
      RedactedIsDiscreet(event);
      PushEvent(Redacted(event), IsTerminalEvent(event), now);
    }

    /** A caller asks for cancellation; this is recorded even on a finished query. */
    method RequestCancel(now: int)
      requires Valid()
      modifies this`cancelRequested, this`phase, this`completedAt, this`events, this`nextEventId
      ensures Valid() && cancelRequested && phase == Cancelling && completedAt == old(completedAt)
      ensures events == old(events) + [ServiceEvent(|old(events)| + 1, StateChange(Cancelling), false)]
      ensures Terminals(events) == Terminals(old(events))
    {
      cancelRequested := true;
      PushEvent(StateChange(Cancelling), false, now);
    }

    // ---- retention ----

    /** The batch fits under the retention limit; the sum saturates. */
    predicate Fits(batch: Batch, limits: Limits)
      reads this
    {
      SatAdd(retainedBytes, batch.bytes) <= limits.maxBytes
    }

    method StoreBatch(batch: Batch, limits: Limits, fault: Fault) returns (r: Result<(), string>)
      modifies this`schema, this`storage, this`rows, this`retainedBytes
      ensures r.Ok? ==> Contents() == old(Contents()) + [batch] && old(Fits(batch, limits))
      ensures r.Ok? ==> rows == old(rows) + |batch.rows| && retainedBytes == old(retainedBytes) + batch.bytes
      ensures r.Err? ==> rows == old(rows) && retainedBytes == old(retainedBytes)
      ensures fault.NoFault? && old(storage.Spill? ==> storage.open) ==> (r.Ok? <==> old(Fits(batch, limits)))
      ensures fault.NoFault? && r.Err? ==> Contents() == old(Contents())
      ensures r == Err("result_limit") <==> !old(Fits(batch, limits))
      ensures r.Ok? ==> (storage.Memory? <==> old(storage.Memory?) && SatAdd(old(retainedBytes), batch.bytes) <= limits.memoryBytes)
      ensures old(storage.Spill? ==> storage.open) ==> storage.Spill? ==> storage.open
    {
      if schema.None? {
        schema := Some(batch.schema);
      }
      if SatAdd(retainedBytes, batch.bytes) > limits.maxBytes {
        return Err("result_limit");
      }
      if storage.Memory? && SatAdd(retainedBytes, batch.bytes) > limits.memoryBytes {
        if fault.OpenFails? {
          return Err("result_storage");
        }
        var existing := storage.batches;
        storage := Memory([]);
        if fault.CopyFails? {
          return Err("result_storage");
        }
        var written := [];
        for i := 0 to |existing|
          invariant written == existing[..i]
        {
          written := written + [existing[i]];
        }
        storage := Spill(written, true);
      }
      match storage {
        case Memory(batches) =>
          storage := Memory(batches + [batch]);
        case Spill(file, open) =>
          if !open || fault.AppendFails? {
            return Err("result_storage");
          }
          storage := Spill(file + [batch], true);
      }
      rows := rows + |batch.rows|;
      retainedBytes := retainedBytes + batch.bytes;
      return Ok(());
    }

    /** Close the spill file; the batches it holds do not change. */
    method FinishResults(fails: bool) returns (r: Result<(), string>)
      modifies this`storage
      ensures Contents() == old(Contents()) && (storage.Spill? ==> !storage.open) && storage.Memory? == old(storage.Memory?)
      ensures r.Err? ==> fails
      ensures !fails ==> r.Ok?
    {
      r := Ok(());
      if storage.Spill? {
        if storage.open && fails {
          r := Err("result_storage");
        }
        storage := Spill(storage.file, false);
      }
    }

    /** What a local result reader is opened on. */
    method OpenReader() returns (r: Result<seq<Batch>, string>)
      ensures r.Ok? <==> error.None? && (phase.Completed? || phase.Cancelled?) && (storage.Spill? ==> !storage.open)
      ensures r.Ok? ==> r.value == Contents()
    {
      if error.Some? {
        return Err(error.value);
      }
      if !(phase.Completed? || phase.Cancelled?) || (storage.Spill? && storage.open) {
        return Err("query_running");
      }
      return Ok(Contents());
    }

    /** What a local result page is cut from. */
    method OpenPage() returns (r: Result<seq<Batch>, string>)
      ensures r.Ok? <==> error.None? && IsTerminal(phase) && (storage.Spill? ==> !storage.open)
      ensures r.Ok? ==> r.value == Contents()
    {
      if storage.Spill? && storage.open {
        return Err("query_running");
      }
      if error.Some? {
        return Err(error.value);
      }
      if !IsTerminal(phase) {
        return Err("query_running");
      }
      return Ok(Contents());
    }
  }

  // ---- the adapter's side ----

  datatype QueryItem = EventItem(event: QueryEvent) | BatchItem(batch: Batch)

  /** The receiving end of a submitted query: two channels, drained in whatever order they become ready. */
  class QueryHandle {
    /** Everything still to be received. */
    var events: seq<QueryEvent>
    var batches: seq<Batch>
    var eventsDone: bool
    var batchesDone: bool
    var finish: Finish

    ghost predicate Valid()
      reads this
    {
      (eventsDone ==> events == []) && (batchesDone ==> batches == [])
    }

    /** The last terminal state on the channel is the one that goes with the adapter's ending. */
    ghost predicate AnnouncesEnding()
      reads this
    {
      LastTerminal(events) == Some(StateChange(FinalPhase(finish)))
    }

    /** The service announces submission first and the final state last, around what the adapter sends. */
    constructor (sent: seq<QueryEvent>, delivered: seq<Batch>, finish: Finish)
      ensures Valid() && AnnouncesEnding() && this.finish == finish && batches == delivered
      ensures events == [StateChange(Submitted)] + sent + [StateChange(FinalPhase(finish))]
    {
      events := [StateChange(Submitted)] + sent + [StateChange(FinalPhase(finish))];
      batches, eventsDone, batchesDone := delivered, false, false;
      this.finish := finish;
    }

    method NextItem() returns (item: Option<QueryItem>)
      requires Valid()
      modifies this`events, this`batches, this`eventsDone, this`batchesDone
      ensures Valid()
      ensures item.None? ==> old(events) == [] && old(batches) == [] && events == [] && batches == []
      ensures item.Some? ==> old(events) == Told(item.value) + events && old(batches) == Taken(item.value) + batches
    {
      while true
        invariant Valid() && events == old(events) && batches == old(batches)
        decreases !eventsDone, !batchesDone
      {
        if eventsDone && batchesDone {
          return None;
        }
        var eventFirst: bool := *;
        if !eventsDone && (batchesDone || eventFirst) {
          if events != [] {
            item := Some(EventItem(events[0]));
            events := events[1..];
            return;
          }
          eventsDone := true;
        } else {
          if batches != [] {
            item := Some(BatchItem(batches[0]));
            batches := batches[1..];
            return;
          }
          batchesDone := true;
        }
      }
    }
  }

  function LastTerminal(events: seq<QueryEvent>): Option<QueryEvent> {
    if events == [] then None
    else if IsTerminalEvent(events[|events| - 1]) then Some(events[|events| - 1])
    else LastTerminal(events[..|events| - 1])
  }

  /** The engine-reported session properties of a stream, later reports winning. */
  function Reported(events: seq<QueryEvent>): map<string, string> {
    if events == [] then map[]
    else
      var last := events[|events| - 1];
      Reported(events[..|events| - 1]) + (if last.SessionProperties? then last.properties else map[])
  }

  lemma HeardOneMore(heard: seq<QueryEvent>, event: QueryEvent)
    ensures LastTerminal(heard + [event]) == if IsTerminalEvent(event) then Some(event) else LastTerminal(heard)
    ensures Reported(heard + [event]) == Reported(heard) + (if event.SessionProperties? then event.properties else map[])
  {
    assert (heard + [event])[..|heard|] == heard;
  }

  /** The id the engine reported last, or `before` if it reported none. */
  function EngineId(heard: seq<QueryEvent>, before: Option<string>): Option<string> {
    if heard == [] then before
    else if heard[|heard| - 1].EngineQueryId? then Some(heard[|heard| - 1].id)
    else EngineId(heard[..|heard| - 1], before)
  }

  /** What of a stream goes into the history as it comes: everything but terminal states, redacted. */
  function Announced(heard: seq<QueryEvent>): seq<QueryEvent> {
    if heard == [] then []
    else
      var last := heard[|heard| - 1];
      Announced(heard[..|heard| - 1]) + if IsTerminalEvent(last) then [] else [Redacted(last)]
  }

  /** The history `events` is `base`, then `told` in order, with nothing but cancel requests in between. */
  predicate Weaves(events: seq<ServiceEvent>, base: seq<ServiceEvent>, told: seq<QueryEvent>) {
    if |events| <= |base| then events == base && told == []
    else
      var n, e := |events| - 1, events[|events| - 1];
      && !e.terminal
      && (|| (told != [] && e.event == told[|told| - 1] && Weaves(events[..n], base, told[..|told| - 1]))
          || (e.event == StateChange(Cancelling) && Weaves(events[..n], base, told)))
  }

  lemma WeaveMore(events: seq<ServiceEvent>, base: seq<ServiceEvent>, told: seq<QueryEvent>, e: ServiceEvent)
    requires Weaves(events, base, told) && !e.terminal
    ensures Weaves(events + [e], base, told + [e.event])
    ensures e.event == StateChange(Cancelling) ==> Weaves(events + [e], base, told)
  {
    assert (events + [e])[..|events|] == events && (told + [e.event])[..|told|] == told;
  }

  lemma HeardMore(heard: seq<QueryEvent>, event: QueryEvent, before: Option<string>)
    ensures Announced(heard + [event]) == Announced(heard) + if IsTerminalEvent(event) then [] else [Redacted(event)]
    ensures EngineId(heard + [event], before) == if event.EngineQueryId? then Some(event.id) else EngineId(heard, before)
  {
    assert (heard + [event])[..|heard|] == heard;
  }

  /** The entry an event makes in the history when it comes. */
  function EntryOf(event: QueryEvent, id: nat): seq<ServiceEvent> {
    if IsTerminalEvent(event) then [] else [ServiceEvent(id, Redacted(event), false)]
  }

  function EntryFor(item: QueryItem, id: nat): seq<ServiceEvent> {
    if item.EventItem? then EntryOf(item.event, id) else []
  }

  /** The history and the engine's id after one more item. */
  lemma WeaveItem(events: seq<ServiceEvent>, base: seq<ServiceEvent>, heard: seq<QueryEvent>, item: QueryItem, before: Option<string>)
    requires Weaves(events, base, Announced(heard))
    ensures Weaves(events + EntryFor(item, |events| + 1), base, Announced(heard + Told(item)))
    ensures EngineId(heard + Told(item), before) ==
      if item.EventItem? && item.event.EngineQueryId? then Some(item.event.id) else EngineId(heard, before)
  {
    if item.EventItem? {
      HeardMore(heard, item.event, before);
      if IsTerminalEvent(item.event) {
        assert events + [] == events && Announced(heard) + [] == Announced(heard);
      } else {
        WeaveMore(events, base, Announced(heard), ServiceEvent(|events| + 1, Redacted(item.event), false));
      }
    } else {
      assert heard + [] == heard && events + [] == events;
    }
  }

  /** What the collector has achieved after draining `seen`, having refused a batch or not. */
  ghost predicate Retained(record: QueryRecord, seen: seq<Batch>, limits: Limits, refused: bool)
    reads record
  {
    && (record.storage.Spill? ==> record.storage.open)
    && (refused ==> record.error.Some? && record.cancelRequested)
    && (!refused ==> record.error.None? && record.Holds(seen))
    && (!refused && limits.maxBytes < USIZE_MAX ==> Bytes(seen) <= limits.maxBytes)
    && (!refused && limits.memoryBytes < USIZE_MAX ==> (record.storage.Memory? <==> Bytes(seen) <= limits.memoryBytes))
  }

  /** Store one batch; a refusal sets the record's error and asks the adapter to stop. */
  method KeepBatch(record: QueryRecord, batch: Batch, limits: Limits, fault: Fault, ghost seen: seq<Batch>, ghost refused: bool)
    returns (failed: bool)
    requires Retained(record, seen, limits, refused)
    modifies record`schema, record`storage, record`rows, record`retainedBytes, record`error, record`cancelRequested
    ensures Retained(record, seen + [batch], limits, refused || failed)
    ensures fault.NoFault? && !refused && limits.maxBytes < USIZE_MAX ==>
      (failed <==> Bytes(seen + [batch]) > limits.maxBytes)
    ensures !failed ==> record.error == old(record.error)
    ensures fault.NoFault? && failed ==> record.error == Some("result_limit")
  {
    RowsAppend(seen, batch);
    failed := false;
    var r := record.StoreBatch(batch, limits, fault);
    if r.Err? {
      failed := true;
      record.error := Some(r.error);
      record.cancelRequested := true;
    }
  }

  /** Keep a terminal state for the end and any session report for later; record every other event now. */
  method TakeEvent(record: QueryRecord, event: QueryEvent, pending: Option<QueryEvent>, updates: map<string, string>, now: int,
                   ghost heard: seq<QueryEvent>, ghost seen: seq<Batch>, limits: Limits, ghost refused: bool)
    returns (terminalEvent: Option<QueryEvent>, merged: map<string, string>)
    requires record.Valid() && Retained(record, seen, limits, refused)
    requires pending == LastTerminal(heard) && updates == Reported(heard)
    modifies record`phase, record`completedAt, record`events, record`nextEventId, record`engineQueryId
    ensures record.Valid() && Terminals(record.events) == Terminals(old(record.events))
    ensures Retained(record, seen, limits, refused)
    ensures terminalEvent == LastTerminal(heard + [event]) && merged == Reported(heard + [event])
    ensures record.events == old(record.events) + EntryOf(event, |old(record.events)| + 1)
    ensures record.engineQueryId == if event.EngineQueryId? then Some(event.id) else old(record.engineQueryId)
  {
    HeardOneMore(heard, event);
    terminalEvent, merged := pending, updates;
    if event.SessionProperties? {
      merged := merged + event.properties;
    }
    if IsTerminalEvent(event) {
      terminalEvent := Some(event);
    } else {
      record.RecordEvent(event, now);
    }
  }

  /** A cancel request may or may not arrive here. */
  method MaybeCancel(record: QueryRecord, now: int, ghost seen: seq<Batch>, limits: Limits, ghost refused: bool)
    requires record.Valid() && Retained(record, seen, limits, refused)
    modifies record`cancelRequested, record`phase, record`completedAt, record`events, record`nextEventId
    ensures record.Valid() && Terminals(record.events) == Terminals(old(record.events))
    ensures Retained(record, seen, limits, refused)
    ensures record.events == old(record.events)
      || record.events == old(record.events) + [ServiceEvent(|old(record.events)| + 1, StateChange(Cancelling), false)]
  {
    var arrives: bool := *;
    if arrives {
      record.RequestCancel(now);
    }
  }

  function Taken(item: QueryItem): seq<Batch> {
    if item.BatchItem? then [item.batch] else []
  }

  function Told(item: QueryItem): seq<QueryEvent> {
    if item.EventItem? then [item.event] else []
  }

  /** A clean disk and a limit that arithmetic can exceed. */
  ghost predicate Clean(limits: Limits, faults: seq<Fault>) {
    limits.maxBytes < USIZE_MAX && forall i :: 0 <= i < |faults| ==> faults[i].NoFault?
  }

  /** Everything the collector knows after hearing `heard` and being handed `seen`. */
  ghost predicate Collected(record: QueryRecord, heard: seq<QueryEvent>, seen: seq<Batch>, limits: Limits, faults: seq<Fault>,
                            overflow: bool, terminalEvent: Option<QueryEvent>, updates: map<string, string>)
    reads record
  {
    && record.Valid() && Terminals(record.events) == 0
    && Retained(record, seen, limits, overflow)
    && (Clean(limits, faults) ==>
          (overflow <==> Bytes(seen) > limits.maxBytes) && (overflow ==> record.error == Some("result_limit")))
    && terminalEvent == LastTerminal(heard) && updates == Reported(heard)
  }

  /** Keep a batch, unless it is refused; once one was, the result is lost. */
  method TakeBatch(record: QueryRecord, batch: Batch, limits: Limits, faults: seq<Fault>, index: nat, refused: bool,
                   ghost pending: Option<QueryEvent>, ghost merged: map<string, string>,
                   ghost heard: seq<QueryEvent>, ghost seen: seq<Batch>)
    returns (overflow: bool)
    requires Collected(record, heard, seen, limits, faults, refused, pending, merged)
    modifies record`schema, record`storage, record`rows, record`retainedBytes, record`error, record`cancelRequested
    ensures Collected(record, heard, seen + [batch], limits, faults, overflow, pending, merged)
  {
    RowsAppend(seen, batch);
    var fault := if index < |faults| then faults[index] else NoFault;
    var failed := KeepBatch(record, batch, limits, fault, seen, refused);
    overflow := refused || failed;
  }

  /** Take in an event; the result is not touched. */
  method TakeNews(record: QueryRecord, event: QueryEvent, limits: Limits, ghost faults: seq<Fault>, now: int, ghost refused: bool,
                  pending: Option<QueryEvent>, merged: map<string, string>, ghost heard: seq<QueryEvent>, ghost seen: seq<Batch>)
    returns (terminalEvent: Option<QueryEvent>, updates: map<string, string>)
    requires Collected(record, heard, seen, limits, faults, refused, pending, merged)
    modifies record`phase, record`completedAt, record`events, record`nextEventId, record`engineQueryId
    ensures Collected(record, heard + [event], seen, limits, faults, refused, terminalEvent, updates)
    ensures record.events == old(record.events) + EntryOf(event, |old(record.events)| + 1)
    ensures record.engineQueryId == if event.EngineQueryId? then Some(event.id) else old(record.engineQueryId)
  {
    terminalEvent, updates := TakeEvent(record, event, pending, merged, now, heard, seen, limits, refused);
  }

  method TakeItem(record: QueryRecord, item: QueryItem, limits: Limits, faults: seq<Fault>, index: nat, now: int,
                  refused: bool, pending: Option<QueryEvent>, merged: map<string, string>,
                  ghost heard: seq<QueryEvent>, ghost seen: seq<Batch>)
    returns (overflow: bool, terminalEvent: Option<QueryEvent>, updates: map<string, string>)
    requires Collected(record, heard, seen, limits, faults, refused, pending, merged)
    modifies record
    ensures Collected(record, heard + Told(item), seen + Taken(item), limits, faults, overflow, terminalEvent, updates)
    ensures record.events == old(record.events) + EntryFor(item, |old(record.events)| + 1)
    ensures record.engineQueryId ==
      if item.EventItem? && item.event.EngineQueryId? then Some(item.event.id) else old(record.engineQueryId)
  {
    overflow, terminalEvent, updates := refused, pending, merged;
    assert seen + [] == seen && heard + [] == heard;
    if item.EventItem? {
      terminalEvent, updates := TakeNews(record, item.event, limits, faults, now, refused, pending, merged, heard, seen);
    } else {
      overflow := TakeBatch(record, item.batch, limits, faults, index, refused, pending, merged, heard, seen);
    }
  }

  /** A cancel request that arrives leaves an entry and nothing else. */
  method Interrupt(record: QueryRecord, limits: Limits, ghost faults: seq<Fault>, now: int, ghost refused: bool,
                   ghost pending: Option<QueryEvent>, ghost merged: map<string, string>,
                   ghost heard: seq<QueryEvent>, ghost seen: seq<Batch>, ghost base: seq<ServiceEvent>)
    requires Collected(record, heard, seen, limits, faults, refused, pending, merged)
    requires Weaves(record.events, base, Announced(heard))
    modifies record`cancelRequested, record`phase, record`completedAt, record`events, record`nextEventId
    ensures Collected(record, heard, seen, limits, faults, refused, pending, merged)
    ensures Weaves(record.events, base, Announced(heard))
  {
    ghost var history := record.events;
    MaybeCancel(record, now, seen, limits, refused);
    WeaveMore(history, base, Announced(heard), ServiceEvent(|history| + 1, StateChange(Cancelling), false));
  }

  /** Take one item; what it announces goes into the history. */
  method OneRound(record: QueryRecord, item: QueryItem, limits: Limits, faults: seq<Fault>, index: nat, now: int,
                  refused: bool, pending: Option<QueryEvent>, merged: map<string, string>,
                  ghost heard: seq<QueryEvent>, ghost seen: seq<Batch>, ghost base: seq<ServiceEvent>, ghost before: Option<string>)
    returns (overflow: bool, terminalEvent: Option<QueryEvent>, updates: map<string, string>)
    requires Collected(record, heard, seen, limits, faults, refused, pending, merged)
    requires Weaves(record.events, base, Announced(heard)) && record.engineQueryId == EngineId(heard, before)
    modifies record
    ensures Collected(record, heard + Told(item), seen + Taken(item), limits, faults, overflow, terminalEvent, updates)
    ensures Weaves(record.events, base, Announced(heard + Told(item)))
    ensures record.engineQueryId == EngineId(heard + Told(item), before)
  {
    WeaveItem(record.events, base, heard, item, before);
    overflow, terminalEvent, updates := TakeItem(record, item, limits, faults, index, now, refused, pending, merged, heard, seen);
  }

  /** The history past `base` and the engine's id are what was heard. */
  ghost predicate HistoryTells(record: QueryRecord, heard: seq<QueryEvent>, base: seq<ServiceEvent>, before: Option<string>)
    reads record
  {
    Weaves(record.events, base, Announced(heard)) && record.engineQueryId == EngineId(heard, before)
  }

  /** Wait for the next item, during which a cancel request may arrive, and take it. */
  method NextRound(record: QueryRecord, handle: QueryHandle, limits: Limits, faults: seq<Fault>, index: nat, now: int,
                   refused: bool, pending: Option<QueryEvent>, merged: map<string, string>,
                   ghost heard: seq<QueryEvent>, ghost seen: seq<Batch>, ghost base: seq<ServiceEvent>, ghost before: Option<string>)
    returns (item: Option<QueryItem>, overflow: bool, terminalEvent: Option<QueryEvent>, updates: map<string, string>)
    requires handle.Valid() && Collected(record, heard, seen, limits, faults, refused, pending, merged)
    requires HistoryTells(record, heard, base, before)
    modifies record, handle`events, handle`batches, handle`eventsDone, handle`batchesDone
    ensures handle.Valid()
    ensures item.None? ==> old(handle.events) == [] && old(handle.batches) == []
    ensures item.Some? ==>
      old(handle.events) == Told(item.value) + handle.events && old(handle.batches) == Taken(item.value) + handle.batches
    ensures
      var heard', seen' := if item.Some? then heard + Told(item.value) else heard, if item.Some? then seen + Taken(item.value) else seen;
      Collected(record, heard', seen', limits, faults, overflow, terminalEvent, updates) && HistoryTells(record, heard', base, before)
  {
    Interrupt(record, limits, faults, now, refused, pending, merged, heard, seen, base);
    item := handle.NextItem();
    if item.None? {
      return item, refused, pending, merged;
    }
    overflow, terminalEvent, updates :=
      OneRound(record, item.value, limits, faults, index, now, refused, pending, merged, heard, seen, base, before);
  }

  /** Drain both channels into the record. Cancel requests may arrive at any moment. */
  method Drain(record: QueryRecord, handle: QueryHandle, limits: Limits, faults: seq<Fault>, now: int)
    returns (overflow: bool, terminalEvent: Option<QueryEvent>, updates: map<string, string>)
    requires record.Valid() && Retained(record, [], limits, false) && Terminals(record.events) == 0
    requires handle.Valid()
    modifies record, handle`events, handle`batches, handle`eventsDone, handle`batchesDone
    ensures Collected(record, old(handle.events), old(handle.batches), limits, faults, overflow, terminalEvent, updates)
    ensures HistoryTells(record, old(handle.events), old(record.events), old(record.engineQueryId))
  {
    overflow, terminalEvent, updates := false, None, map[];
    var index, item := 0, None;
    ghost var seen: seq<Batch>, heard: seq<QueryEvent> := [], [];
    while true
      invariant handle.Valid()
      invariant old(handle.batches) == seen + handle.batches && old(handle.events) == heard + handle.events
      invariant Collected(record, heard, seen, limits, faults, overflow, terminalEvent, updates)
      invariant HistoryTells(record, heard, old(record.events), old(record.engineQueryId))
      decreases |handle.events| + |handle.batches|
    {
      item, overflow, terminalEvent, updates :=
        NextRound(record, handle, limits, faults, index, now, overflow, terminalEvent, updates, heard, seen,
                  old(record.events), old(record.engineQueryId));
      if item.None? {
        assert seen + [] == seen && heard + [] == heard;
        break;
      }
      Shift(seen, Taken(item.value), handle.batches);
      Shift(heard, Told(item.value), handle.events);
      seen, heard := seen + Taken(item.value), heard + Told(item.value);
      index := if item.value.BatchItem? then index + 1 else index;
    }
  }

  /**
    Collect a submitted query into its fresh record and announce the outcome. The result
    is the engine-reported session update, if it is to be applied.
  */
  method CollectQuery(record: QueryRecord, handle: QueryHandle, limits: Limits, faults: seq<Fault>, finishFails: bool, now: int)
    returns (updates: Option<map<string, string>>)
    requires record.Valid() && record.Holds([]) && record.storage == Memory([])
    requires record.error.None? && Terminals(record.events) == 0
    requires handle.Valid() && handle.AnnouncesEnding()
    modifies record, handle
    // exactly one terminal event, and the record ends in its state
    ensures record.Valid() && Terminals(record.events) == 1 && record.completedAt.Some? && IsTerminal(record.phase)
    // the history is what the adapter announced, in order, with only cancel requests in between, and then the outcome
    ensures
      var n := |record.events| - 1;
      && n >= 0 && Weaves(record.events[..n], old(record.events), Announced(old(handle.events)))
      && record.events[n] == ServiceEvent(n + 1, StateChange(record.phase), true)
    ensures record.engineQueryId == EngineId(old(handle.events), old(record.engineQueryId))
    // completion means everything was retained, in order, within the limit
    ensures record.phase.Completed? ==>
      && old(handle.finish).Finished? && record.error.None? && record.Holds(old(handle.batches))
      && (limits.maxBytes < USIZE_MAX ==> record.retainedBytes <= limits.maxBytes)
    ensures record.storage.Spill? ==> !record.storage.open
    // a result without error is in memory exactly if it is small enough
    ensures record.error.None? && limits.memoryBytes < USIZE_MAX ==>
      (record.storage.Memory? <==> Bytes(old(handle.batches)) <= limits.memoryBytes)
    // absent disk failure, it completes exactly when the adapter finished and the result fits
    ensures Clean(limits, faults) && !finishFails ==>
      (record.phase.Completed? <==> old(handle.finish).Finished? && Bytes(old(handle.batches)) <= limits.maxBytes)
    // otherwise an error stays behind, unless the adapter was cancelled with every batch retained
    ensures record.error.None? ==> record.Holds(old(handle.batches)) && !old(handle.finish).DriverFailed?
    ensures Clean(limits, faults) && !finishFails && Bytes(old(handle.batches)) > limits.maxBytes ==>
      record.error == Some("result_limit") && record.cancelRequested
    // the outcome in plain terms
    ensures record.phase.Completed? <==> old(handle.finish).Finished? && record.error.None?
    ensures record.phase.Cancelled? <==> old(handle.finish).DriverCancelled?
    ensures record.phase.Failed? <==> old(handle.finish).DriverFailed? || (old(handle.finish).Finished? && record.error.Some?)
    ensures updates ==
      if old(handle.finish).Finished? && Reported(old(handle.events)) != map[] then Some(Reported(old(handle.events))) else None
  {
    var overflow, terminalEvent, sessionUpdates := Drain(record, handle, limits, faults, now);
    updates := None;
    if handle.finish.Finished? && sessionUpdates != map[] {
      updates := Some(sessionUpdates);
    }
    ghost var history := record.events;
    Conclude(record, handle.finish, overflow, terminalEvent, finishFails, now);
    assert record.events[..|record.events| - 1] == history;
  }

  /** Close the storage, settle the error and decide the outcome. */
  method Settle(record: QueryRecord, finish: Finish, overflow: bool, terminalEvent: Option<QueryEvent>, finishFails: bool)
    returns (outcome: QueryEvent)
    requires terminalEvent == Some(StateChange(FinalPhase(finish))) && (overflow <==> record.error.Some?)
    modifies record`storage, record`error
    ensures record.Contents() == old(record.Contents()) && (record.storage.Spill? ==> !record.storage.open)
    ensures record.storage.Memory? == old(record.storage.Memory?)
    ensures old(record.error).Some? ==> record.error.Some?
    ensures record.error.None? ==> !finish.DriverFailed?
    ensures !finishFails && (old(record.error).Some? || !finish.DriverFailed?) ==> record.error == old(record.error)
    ensures !finishFails && old(record.error).None? && finish.DriverFailed? ==> record.error == Some("query_failed")
    ensures outcome == StateChange(Completed) <==> finish.Finished? && record.error.None?
    ensures outcome == StateChange(Cancelled) <==> finish.DriverCancelled?
    ensures outcome == StateChange(Failed) <==> finish.DriverFailed? || (finish.Finished? && record.error.Some?)
  {
    var failed := overflow;
    var closed := record.FinishResults(finishFails);
    if closed.Err? {
      record.error := Some(closed.error);
      failed := true;
    }
    outcome := StateChange(Failed);
    if finish.DriverCancelled? {
      outcome := if terminalEvent.Some? then terminalEvent.value else StateChange(Cancelled);
    } else if finish.DriverFailed? {
      if record.error.None? {
        record.error := Some("query_failed");
      }
    } else if !failed {
      outcome := if terminalEvent.Some? then terminalEvent.value else StateChange(Completed);
    }
  }

  /** Settle the query and record its one terminal event. */
  method Conclude(record: QueryRecord, finish: Finish, overflow: bool, terminalEvent: Option<QueryEvent>, finishFails: bool, now: int)
    requires record.Valid() && terminalEvent == Some(StateChange(FinalPhase(finish)))
    requires overflow <==> record.error.Some?
    modifies record
    ensures record.Valid() && Terminals(record.events) == Terminals(old(record.events)) + 1 && record.completedAt.Some?
    ensures record.Contents() == old(record.Contents()) && (record.storage.Spill? ==> !record.storage.open)
    ensures record.storage.Memory? == old(record.storage.Memory?)
    ensures record.rows == old(record.rows) && record.retainedBytes == old(record.retainedBytes)
    ensures old(record.error).Some? ==> record.error.Some?
    ensures record.error.None? ==> !finish.DriverFailed?
    ensures record.phase.Completed? <==> finish.Finished? && record.error.None?
    ensures record.phase.Cancelled? <==> finish.DriverCancelled?
    ensures record.phase.Failed? <==> finish.DriverFailed? || (finish.Finished? && record.error.Some?)
    ensures record.events == old(record.events) + [ServiceEvent(|old(record.events)| + 1, StateChange(record.phase), true)]
    ensures !finishFails && (old(record.error).Some? || !finish.DriverFailed?) ==> record.error == old(record.error)
    ensures !finishFails && old(record.error).None? && finish.DriverFailed? ==> record.error == Some("query_failed")
    ensures record.engineQueryId == old(record.engineQueryId) && record.cancelRequested == old(record.cancelRequested)
  {
    var outcome := Settle(record, finish, overflow, terminalEvent, finishFails);
    record.RecordEvent(outcome, now);
  }
}
