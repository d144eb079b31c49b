/**
  Versioned sessions: every mutation names the version it expects, and wins or changes nothing.
*/
module Sessions {
  import opened Outcomes

  datatype Target = Target(name: string, engine: string, properties: map<string, string>)

  datatype Session = Session(id: string, version: nat, target: Target, overrides: map<string, string>)

  datatype Snapshot = Snapshot(
    id: string, version: nat, target: string, engine: string,
    properties: map<string, string>, overrides: map<string, string>)

  datatype CoreError = SessionNotFound | VersionConflict(expected: nat, actual: nat)

  function SnapshotOf(s: Session): Snapshot {
    Snapshot(s.id, s.version, s.target.name, s.target.engine, s.target.properties + s.overrides, s.overrides)
  }

  /** The session a snapshot is restored to. */
  function Restored(snapshot: Snapshot, target: Target): Session {
    Session(snapshot.id, snapshot.version, target, snapshot.overrides)
  }

  /** Restoring a snapshot gives back the session it was taken of, and its snapshot is the one restored. */
  lemma RestoreUndoesSnapshot(s: Session)
    ensures Restored(SnapshotOf(s), s.target) == s
    ensures SnapshotOf(Restored(SnapshotOf(s), s.target)) == SnapshotOf(s)
  {
  }

  // ---- mutations ----

  datatype Change =
    | SetOptions(values: map<string, string>)
    | SwitchTarget(target: Target)
    | Mutate(newTarget: Option<Target>, edits: map<string, Option<string>>)

  /** Set the named options and remove those edited to nothing. */
  function Edited(overrides: map<string, string>, edits: map<string, Option<string>>): map<string, string> {
    map name | name in overrides.Keys + edits.Keys && (name in edits ==> edits[name].Some?)
             :: if name in edits then edits[name].value else overrides[name]
  }

  lemma EditedStep(overrides: map<string, string>, done: map<string, Option<string>>, name: string, value: Option<string>)
    ensures Edited(overrides, done[name := value])
         == if value.Some? then Edited(overrides, done)[name := value.value] else Edited(overrides, done) - {name}
  {
  }

  /** The loop over the edits of one mutation. */
  method ApplyEdits(overrides: map<string, string>, edits: map<string, Option<string>>) returns (r: map<string, string>)
    ensures r == Edited(overrides, edits)
  {
    r := overrides;
    var left := edits.Keys;
    ghost var done: map<string, Option<string>> := map[];
    assert Edited(overrides, done) == overrides;
    while left != {}
      invariant left <= edits.Keys && done.Keys == edits.Keys - left
      invariant forall name :: name in done ==> done[name] == edits[name]
      invariant r == Edited(overrides, done)
      decreases |left|
    {
      var name :| name in left;
      EditedStep(overrides, done, name, edits[name]);
      if edits[name].Some? {
        r := r[name := edits[name].value];
      } else {
        r := r - {name};
      }
      left := left - {name};
      done := done[name := edits[name]];
    }
    assert done == edits;
  }

  function Apply(s: Session, change: Change): Session {
    match change
    case SetOptions(values) => s.(overrides := s.overrides + values, version := s.version + 1)
    case SwitchTarget(target) => s.(target := target, overrides := map[], version := s.version + 1)
    case Mutate(target, edits) =>
      var base := if target.Some? then s.(target := target.value, overrides := map[]) else s;
      base.(overrides := Edited(base.overrides, edits), version := base.version + 1)
  }

  function Attempt(sessions: map<string, Session>, id: string, expected: nat, change: Change)
    : (map<string, Session>, Result<Snapshot, CoreError>)
  {
    if id !in sessions then (sessions, Err(SessionNotFound))
    else if sessions[id].version != expected then (sessions, Err(VersionConflict(expected, sessions[id].version)))
    else
      var changed := Apply(sessions[id], change);
      (sessions[id := changed], Ok(SnapshotOf(changed)))
  }

  function Find(sessions: map<string, Session>, id: string): Option<Session> {
    if id in sessions then Some(sessions[id]) else None
  }

  class SessionManager {
    var sessions: map<string, Session>

    constructor ()
      ensures sessions == map[]
    {
      sessions := map[];
    }

    /** `id` is the identifier drawn for the new session; drawing a live one again replaces that session. */
    method Create(id: string, target: Target, overrides: map<string, string>) returns (r: Snapshot)
      modifies this
      ensures sessions == old(sessions)[id := Session(id, 1, target, overrides)]
      ensures r == SnapshotOf(sessions[id])
    {
      var session := Session(id, 1, target, overrides);
      sessions := sessions[id := session];
      r := SnapshotOf(session);
    }

    method Restore(snapshot: Snapshot, target: Target) returns (r: Result<(), CoreError>)
      modifies this
      ensures r.Ok? <==> snapshot.target == target.name && snapshot.engine == target.engine
      ensures sessions == if r.Err? then old(sessions)
        else old(sessions)[snapshot.id := Restored(snapshot, target)]
    {
      if snapshot.target != target.name || snapshot.engine != target.engine {
        return Err(SessionNotFound);
      }
      sessions := sessions[snapshot.id := Session(snapshot.id, snapshot.version, target, snapshot.overrides)];
      return Ok(());
    }

    method SetOptions(id: string, expected: nat, values: map<string, string>) returns (r: Result<Snapshot, CoreError>)
      modifies this
      ensures (sessions, r) == Attempt(old(sessions), id, expected, Change.SetOptions(values))
    {
      if id !in sessions {
        return Err(SessionNotFound);
      }
      var session := sessions[id];
      if session.version != expected {
        return Err(VersionConflict(expected, session.version));
      }
      session := session.(overrides := session.overrides + values);
      session := session.(version := session.version + 1);
      sessions := sessions[id := session];
      return Ok(SnapshotOf(session));
    }

    method SwitchTarget(id: string, expected: nat, target: Target) returns (r: Result<Snapshot, CoreError>)
      modifies this
      ensures (sessions, r) == Attempt(old(sessions), id, expected, Change.SwitchTarget(target))
    {
      if id !in sessions {
        return Err(SessionNotFound);
      }
      var session := sessions[id];
      if session.version != expected {
        return Err(VersionConflict(expected, session.version));
      }
      session := session.(target := target, overrides := map[]);
      session := session.(version := session.version + 1);
      sessions := sessions[id := session];
      return Ok(SnapshotOf(session));
    }

    method Mutate(id: string, expected: nat, target: Option<Target>, values: map<string, Option<string>>)
      returns (r: Result<Snapshot, CoreError>)
      modifies this
      ensures (sessions, r) == Attempt(old(sessions), id, expected, Change.Mutate(target, values))
    {
      if id !in sessions {
        return Err(SessionNotFound);
      }
      var session := sessions[id];
      if session.version != expected {
        return Err(VersionConflict(expected, session.version));
      }
      if target.Some? {
        session := session.(target := target.value, overrides := map[]);
      }
      var overrides := ApplyEdits(session.overrides, values);
      session := session.(overrides := overrides, version := session.version + 1);
      sessions := sessions[id := session];
      return Ok(SnapshotOf(session));
    }

    method Close(id: string) returns (r: Result<(), CoreError>)
      modifies this
      ensures r.Ok? <==> id in old(sessions)
      ensures sessions == old(sessions) - {id}
    {
      r := if id in sessions then Ok(()) else Err(SessionNotFound);
      sessions := sessions - {id};
    }
  }

  // ---- runs ----

  datatype Op =
    | Put(id: string, session: Session)   // a create or a successful restore
    | Drop(id: string)
    | Try(id: string, expected: nat, change: Change)

  function Step(sessions: map<string, Session>, op: Op): map<string, Session> {
    match op
    case Put(id, session) => sessions[id := session]
    case Drop(id) => sessions - {id}
    case Try(id, expected, change) => Attempt(sessions, id, expected, change).0
  }

  function Run(sessions: map<string, Session>, ops: seq<Op>): map<string, Session> {
    if ops == [] then sessions else Step(Run(sessions, ops[..|ops| - 1]), ops[|ops| - 1])
  }

  /** The attempts on `id` that succeeded, in the order they did. */
  function Winners(sessions: map<string, Session>, ops: seq<Op>, id: string): seq<Op> {
    if ops == [] then []
    else
      var front, op := ops[..|ops| - 1], ops[|ops| - 1];
      Winners(sessions, front, id)
        + if op.Try? && op.id == id && Attempt(Run(sessions, front), id, op.expected, op.change).1.Ok? then [op] else []
  }

  function Replay(s: Session, winners: seq<Op>): Session
    requires forall i :: 0 <= i < |winners| ==> winners[i].Try?
  {
    if winners == [] then s
    else Apply(Replay(s, winners[..|winners| - 1]), winners[|winners| - 1].change)
  }

  lemma ReplayAppend(s: Session, winners: seq<Op>, op: Op)
    requires op.Try? && forall i :: 0 <= i < |winners| ==> winners[i].Try?
    ensures Replay(s, winners + [op]) == Apply(Replay(s, winners), op.change)
  {
    assert (winners + [op])[..|winners|] == winners;
  }

  /** `s` is what `start` has become through `winners`, each of which expected the version it found. */
  ghost predicate History(start: Session, winners: seq<Op>, s: Session) {
    && s.version == start.version + |winners|
    && (forall k :: 0 <= k < |winners| ==> winners[k].Try? && winners[k].expected == start.version + k)
    && s == Replay(start, winners)
  }

  lemma HistoryExtends(start: Session, winners: seq<Op>, s: Session, op: Op)
    requires History(start, winners, s) && op.Try? && op.expected == s.version
    ensures History(start, winners + [op], Apply(s, op.change))
  {
    ReplayAppend(start, winners, op);
  }

  /** The session as it last stood: as it is now or, once closed, as it was then. */
  function Stood(sessions: map<string, Session>, ops: seq<Op>, id: string): Session
    requires id in sessions
  {
    if id in Run(sessions, ops) then Run(sessions, ops)[id]
    else if ops == [] then sessions[id]
    else Stood(sessions, ops[..|ops| - 1], id)
  }

  predicate Recreated(ops: seq<Op>, id: string) {
    exists i :: 0 <= i < |ops| && ops[i].Put? && ops[i].id == id
  }

  predicate Closed(ops: seq<Op>, id: string) {
    exists i :: 0 <= i < |ops| && ops[i].Drop? && ops[i].id == id
  }

  /** Between two creations a session is there exactly until it is closed. */
  lemma {:induction false} ThereUntilClosed(sessions: map<string, Session>, ops: seq<Op>, id: string)
    requires !Recreated(ops, id)
    ensures id in Run(sessions, ops) <==> id in sessions && !Closed(ops, id)
  {
    if ops != [] {
      var n := |ops| - 1;
      assert ops == ops[..n] + [ops[n]];
      assert Recreated(ops, id) <==> Recreated(ops[..n], id) || (ops[n].Put? && ops[n].id == id);
      assert Closed(ops, id) <==> Closed(ops[..n], id) || (ops[n].Drop? && ops[n].id == id);
      ThereUntilClosed(sessions, ops[..n], id);
    }
  }

  /** No attempt on a session that is not there ever wins. */
  lemma {:induction false} NoWinnersAfterClosing(sessions: map<string, Session>, ops: seq<Op>, id: string)
    requires id !in sessions && !Recreated(ops, id)
    ensures Winners(sessions, ops, id) == []
  {
    if ops != [] {
      var n := |ops| - 1;
      assert Recreated(ops[..n], id) ==> Recreated(ops, id);
      NoWinnersAfterClosing(sessions, ops[..n], id);
      ThereUntilClosed(sessions, ops[..n], id);
    }
  }

  /**
    Session history over every run between two creations of `id`, closing included: its version
    has grown by the number of successful mutations, the k-th of which expected the version k steps
    on, so at most one wins per expected version and none after the close, and the session, now or
    when it was closed, is the replay of the winners in version order.
  */
  lemma {:induction false} SessionHistory(sessions: map<string, Session>, ops: seq<Op>, id: string)
    requires id in sessions && !Recreated(ops, id)
    ensures id in Run(sessions, ops) <==> !Closed(ops, id)
    ensures History(sessions[id], Winners(sessions, ops, id), Stood(sessions, ops, id))
  {
    ThereUntilClosed(sessions, ops, id);
    if ops != [] {
      var n := |ops| - 1;
      assert Recreated(ops[..n], id) ==> Recreated(ops, id);
      SessionHistory(sessions, ops[..n], id);
      HistoryStep(sessions, ops, id);
    }
  }

  lemma HistoryStep(sessions: map<string, Session>, ops: seq<Op>, id: string)
    requires id in sessions && ops != [] && !(ops[|ops| - 1].Put? && ops[|ops| - 1].id == id)
    requires History(sessions[id], Winners(sessions, ops[..|ops| - 1], id), Stood(sessions, ops[..|ops| - 1], id))
    ensures History(sessions[id], Winners(sessions, ops, id), Stood(sessions, ops, id))
  {
    var front, op := ops[..|ops| - 1], ops[|ops| - 1];
    var before, winners := Run(sessions, front), Winners(sessions, front, id);
    if op.Try? && op.id == id && id in before && before[id].version == op.expected {
      HistoryExtends(sessions[id], winners, before[id], op);
    } else {
      assert winners + [] == winners;
      assert Stood(sessions, ops, id) == Stood(sessions, front, id);
    }
  }

  /** A mutation that is refused, for whatever reason, changes nothing; a win touches one session only. */
  lemma AttemptIsAtomic(sessions: map<string, Session>, id: string, expected: nat, change: Change)
    ensures
      var (after, r) := Attempt(sessions, id, expected, change);
      && (r.Ok? <==> id in sessions && sessions[id].version == expected)
      && (r == Err(SessionNotFound) <==> id !in sessions)
      && (r.Err? && id in sessions ==> r == Err(VersionConflict(expected, sessions[id].version)))
      && (r.Err? ==> after == sessions)
      && (r.Ok? ==> after.Keys == sessions.Keys && after[id].version == expected + 1 && after - {id} == sessions - {id})
  {
  }

  // ---- what the replay means for one option ----

  /** The last winner that decides option `name`: a later target switch forgets earlier values. */
  function Decided(start: Session, winners: seq<Op>, name: string): Option<string>
    requires forall i :: 0 <= i < |winners| ==> winners[i].Try?
  {
    if winners == [] then if name in start.overrides then Some(start.overrides[name]) else None
    else
      var front := winners[..|winners| - 1];
      match winners[|winners| - 1].change
      case SetOptions(values) => if name in values then Some(values[name]) else Decided(start, front, name)
      case SwitchTarget(_) => None
      case Mutate(target, edits) =>
        if name in edits then edits[name] else if target.Some? then None else Decided(start, front, name)
  }

  lemma {:induction false} ReplayDecides(start: Session, winners: seq<Op>, name: string)
    requires forall i :: 0 <= i < |winners| ==> winners[i].Try?
    ensures
      var overrides := Replay(start, winners).overrides;
      Decided(start, winners, name) == if name in overrides then Some(overrides[name]) else None
  {
    if winners != [] {
      ReplayDecides(start, winners[..|winners| - 1], name);
    }
  }

  /** The target of the last winner that names one. */
  function TargetOf(start: Session, winners: seq<Op>): Target
    requires forall i :: 0 <= i < |winners| ==> winners[i].Try?
  {
    if winners == [] then start.target
    else
      match winners[|winners| - 1].change
      case SwitchTarget(target) => target
      case Mutate(Some(target), _) => target
      case _ => TargetOf(start, winners[..|winners| - 1])
  }

  lemma {:induction false} ReplayTargets(start: Session, winners: seq<Op>)
    requires forall i :: 0 <= i < |winners| ==> winners[i].Try?
    ensures Replay(start, winners).target == TargetOf(start, winners) && Replay(start, winners).id == start.id
  {
    if winners != [] {
      ReplayTargets(start, winners[..|winners| - 1]);
    }
  }

  /** What a query sees of one option: the session's own value, else the target's. */
  function Visible(own: Option<string>, target: Target, name: string): Option<string> {
    if own.Some? then own else if name in target.properties then Some(target.properties[name]) else None
  }

  function Lookup(properties: map<string, string>, name: string): Option<string> {
    if name in properties then Some(properties[name]) else None
  }

  /**
    What a snapshot shows after every run between two creations: the target and engine of the last
    winner that names a target, a version counted by the winners, and for each option the value the
    last deciding winner left, or else that target's own.
  */
  lemma SnapshotShowsHistory(sessions: map<string, Session>, ops: seq<Op>, id: string, name: string)
    requires id in sessions && sessions[id].id == id && !Recreated(ops, id)
    ensures History(sessions[id], Winners(sessions, ops, id), Stood(sessions, ops, id))
    ensures
      var start, winners := sessions[id], Winners(sessions, ops, id);
      var shown, target := SnapshotOf(Stood(sessions, ops, id)), TargetOf(start, winners);
      && shown.id == id && shown.version == start.version + |winners|
      && shown.target == target.name && shown.engine == target.engine
      && Lookup(shown.overrides, name) == Decided(start, winners, name)
      && Lookup(shown.properties, name) == Visible(Decided(start, winners, name), target, name)
  {
    SessionHistory(sessions, ops, id);
    var start, winners := sessions[id], Winners(sessions, ops, id);
    ReplayTargets(start, winners);
    ReplayDecides(start, winners, name);
  }
}
