/** The collector and the session it ran under: what the engine reported becomes a session mutation. */
module Collection {
  import opened Outcomes
  import opened Batches
  import opened Queries
  import opened QueryRecords
  import Sessions

  /** The sessions after collecting: the reported options are one more attempt at the submission's version. */
  function SessionsAfter(sessions: map<string, Sessions.Session>, id: string, version: nat, closeSession: bool,
                         finish: Finish, heard: seq<QueryEvent>): map<string, Sessions.Session>
  {
    if closeSession then sessions - {id}
    else if finish.Finished? && Reported(heard) != map[] then
      Sessions.Attempt(sessions, id, version, Sessions.SetOptions(Reported(heard))).0
    else sessions
  }

  /** Collect a query; then update its session, or close it if it was made for this query only. */
  method CollectForSession(manager: Sessions.SessionManager, id: string, version: nat, closeSession: bool,
                           record: QueryRecord, handle: QueryHandle, limits: Limits, faults: seq<Fault>,
                           finishFails: bool, now: int)
    requires record.Valid() && record.Holds([]) && record.storage == Memory([])
    requires record.error.None? && Terminals(record.events) == 0
    requires handle.Valid() && handle.AnnouncesEnding()
    modifies manager, record, handle
    ensures manager.sessions ==
      SessionsAfter(old(manager.sessions), id, version, closeSession, old(handle.finish), old(handle.events))
    ensures Terminals(record.events) == 1 && IsTerminal(record.phase)
    // a session of its own is gone; one that is kept shows what the engine reported; others are as they were
    ensures closeSession ==> id !in manager.sessions
    ensures forall other :: other != id ==> Sessions.Find(manager.sessions, other) == Sessions.Find(old(manager.sessions), other)
    ensures
      var before, reported := Sessions.Find(old(manager.sessions), id), Reported(old(handle.events));
      !closeSession && before.Some? ==>
        && id in manager.sessions
        && manager.sessions[id] ==
             if old(handle.finish).Finished? && reported != map[] && before.value.version == version
             then before.value.(overrides := before.value.overrides + reported, version := version + 1)
             else before.value
  {
    var updates := CollectQuery(record, handle, limits, faults, finishFails, now);
    if updates.Some? && !closeSession {
      var _ := manager.SetOptions(id, version, updates.value);
    }
    if closeSession {
      var _ := manager.Close(id);
    }
  }
}
