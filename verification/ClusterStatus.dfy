/**
  Where a shared status comes from: whatever the cluster shows of a query was the owner's own local
  record at some earlier moment, or is the first status, a recovery's verdict or a failed upload.
*/
module ClusterStatus {
  import opened Outcomes
  import opened Batches
  import CS = ClusterStore
  import opened Queries
  import opened ClusterProtocol

  /** The states a run has gone through, from its start to its end. */
  function Past(c: Context, start: System, actions: seq<Action>): (past: seq<System>)
    ensures |past| == |actions| + 1
  {
    if actions == [] then [start] else Past(c, start, actions[..|actions| - 1]) + [Run(c, start, actions)]
  }

  /** They are the states after each of its prefixes. */
  lemma {:induction false} PastIsPrefixes(c: Context, start: System, actions: seq<Action>, k: nat)
    requires k <= |actions|
    ensures Past(c, start, actions)[k] == Run(c, start, actions[..k])
  {
    if k == |actions| {
      assert actions[..k] == actions;
    } else {
      PastIsPrefixes(c, start, actions[..|actions| - 1], k);
      assert actions[..|actions| - 1][..k] == actions[..k];
    }
  }

  // ---- the four origins ----

  predicate IsFirst(st: QueryStatus) {
    st.phase.Submitted? && st.rows == 0 && st.error.None?
  }

  /** `st` is what the owner's local record says in `t`: its phase, its error, its rows so far. */
  predicate IsLocal(t: System, st: QueryStatus) {
    t.local.Some? && st.phase == t.local.value.0 && st.error == t.local.value.1 && st.rows == |Rows(t.batches)|
  }

  ghost predicate WasLocal(past: seq<System>, st: QueryStatus) {
    exists t :: t in past && IsLocal(t, st)
  }

  /** The same, and the collector had finished by then. */
  ghost predicate WasOutcome(past: seq<System>, st: QueryStatus) {
    exists t :: t in past && t.done && IsLocal(t, st)
  }

  /** The query had completed, but its result could not be stored. */
  predicate IsLostResult(t: System, st: QueryStatus) {
    && t.done && t.local.Some? && t.local.value.0.Completed?
    && st.phase.Failed? && st.error == Some("shared_result_store") && st.rows == |Rows(t.batches)|
  }

  ghost predicate WasLostResult(past: seq<System>, st: QueryStatus) {
    exists t :: t in past && IsLostResult(t, st)
  }

  /** A recovery found the query unfinished in `t`. */
  predicate IsVerdict(c: Context, t: System, st: QueryStatus) {
    && Published(c, t) && !IsTerminal(Current(c, t).payload.status.phase)
    && st.phase.Failed? && st.error == Some("orphaned_query") && st.rows == Current(c, t).payload.status.rows
  }

  ghost predicate WasVerdict(c: Context, past: seq<System>, st: QueryStatus) {
    exists t :: t in past && IsVerdict(c, t, st)
  }

  ghost predicate Origin(c: Context, past: seq<System>, st: QueryStatus) {
    IsFirst(st) || WasLocal(past, st) || WasLostResult(past, st) || WasVerdict(c, past, st)
  }

  ghost predicate FinalOrigin(past: seq<System>, st: QueryStatus) {
    IsTerminal(st.phase) && (WasOutcome(past, st) || WasLostResult(past, st))
  }

  lemma OriginGrows(c: Context, past: seq<System>, t: System, st: QueryStatus)
    ensures WasLocal(past, st) ==> WasLocal(past + [t], st)
    ensures WasOutcome(past, st) ==> WasOutcome(past + [t], st)
    ensures WasLostResult(past, st) ==> WasLostResult(past + [t], st)
    ensures WasVerdict(c, past, st) ==> WasVerdict(c, past + [t], st)
  {
    assert forall u :: u in past ==> u in past + [t];
  }

  // ---- the publisher ----

  ghost predicate PayloadFrom(past: seq<System>, write: Write, st: QueryStatus) {
    match write
    case First => IsFirst(st)
    case Refresh => WasLocal(past, st)
    case Final => FinalOrigin(past, st)
  }

  ghost predicate PublisherFrom(past: seq<System>, p: Publisher) {
    match p
    case Fetching(write, payload, _) => PayloadFrom(past, write, payload.status)
    case Writing(write, record, _, _) => PayloadFrom(past, write, record.payload.status)
    case Reading(status, _) => WasOutcome(past, status) && status.phase.Completed?
    case Uploading(status, _, _) => WasOutcome(past, status) && status.phase.Completed?
    case _ => true
  }

  predicate EndsWhenDone(s: System) {
    s.local.Some? && IsTerminal(s.local.value.0) ==> s.done
  }

  lemma PollFrom(c: Context, s: System, chance: Chance, past: seq<System>)
    requires s in past && EndsWhenDone(s) && s.publisher.Polling?
    ensures PublisherFrom(past, PublisherStep(c, s, chance).publisher)
  {
    if s.local.Some? {
      var st := QueryStatus(s.local.value.0, |Rows(s.batches)|, s.local.value.1);
      assert IsLocal(s, st);
    }
  }

  lemma LostFrom(past: seq<System>, status: QueryStatus)
    requires WasOutcome(past, status) && status.phase.Completed?
    ensures WasLostResult(past, status.(phase := Failed, error := Some("shared_result_store")))
  {
    var t :| t in past && t.done && IsLocal(t, status);
    assert IsLostResult(t, status.(phase := Failed, error := Some("shared_result_store")));
  }

  lemma UploadFrom(c: Context, s: System, chance: Chance, past: seq<System>)
    requires PublisherFrom(past, s.publisher) && (s.publisher.Reading? || s.publisher.Uploading?)
    ensures PublisherFrom(past, PublisherStep(c, s, chance).publisher)
  {
    LostFrom(past, s.publisher.status);
  }

  lemma WriteFrom(c: Context, s: System, chance: Chance, past: seq<System>)
    requires PublisherFrom(past, s.publisher) && (s.publisher.Fetching? || s.publisher.Writing?)
    ensures PublisherFrom(past, PublisherStep(c, s, chance).publisher)
  {
  }

  lemma LeaseFrom(c: Context, s: System, chance: Chance, past: seq<System>)
    requires s.publisher.Claiming? || s.publisher.Renewing? || s.publisher.Releasing? || s.publisher.Stopped?
    ensures PublisherFrom(past, PublisherStep(c, s, chance).publisher)
  {
  }

  lemma PublisherKeepsFrom(c: Context, s: System, chance: Chance, past: seq<System>)
    requires s in past && EndsWhenDone(s) && PublisherFrom(past, s.publisher)
    ensures PublisherFrom(past, PublisherStep(c, s, chance).publisher)
  {
    if s.publisher.Polling? {
      PollFrom(c, s, chance, past);
    } else if s.publisher.Reading? || s.publisher.Uploading? {
      UploadFrom(c, s, chance, past);
    } else if s.publisher.Fetching? || s.publisher.Writing? {
      WriteFrom(c, s, chance, past);
    } else {
      LeaseFrom(c, s, chance, past);
    }
  }

  // ---- records ----

  ghost predicate WasStored(c: Context, past: seq<System>, r: Record) {
    exists t :: t in past && Published(c, t) && Current(c, t) == r
  }

  ghost predicate RecoveryFrom(c: Context, past: seq<System>, r: Recovery) {
    r.Claims? || r.Writes? ==> WasStored(c, past, r.read) && !IsTerminal(r.read.payload.status.phase)
  }

  ghost predicate RecordFrom(c: Context, past: seq<System>, s: System) {
    && (Published(c, s) ==> Origin(c, past, Current(c, s).payload.status))
    && (s.final.Some? ==> FinalOrigin(past, s.final.value.payload.status))
  }

  ghost predicate StatusInv(c: Context, past: seq<System>, s: System) {
    && s in past && EndsWhenDone(s) && PublisherFrom(past, s.publisher) && RecordFrom(c, past, s)
    && (forall id :: id in s.recoveries ==> RecoveryFrom(c, past, s.recoveries[id]))
  }

  /** The publisher leaves the shared record as it is, or stores what it holds. */
  lemma PublisherStores(c: Context, s: System, chance: Chance)
    ensures
      var t := PublisherStep(c, s, chance);
      && (Published(c, t) ==>
            || (Published(c, s) && Current(c, t) == Current(c, s))
            || (s.publisher.Writing? && Current(c, t).payload == s.publisher.record.payload))
      && (t.final == s.final
          || (s.publisher.Writing? && s.publisher.write.Final? && t.final.Some? && t.final.value.payload == s.publisher.record.payload))
  {
    if s.publisher.Claiming? || s.publisher.Renewing? || s.publisher.Releasing? {
      PublisherLeaseShape(c, s, chance);
    }
  }

  lemma OutcomeWasLocal(past: seq<System>, st: QueryStatus)
    requires WasOutcome(past, st)
    ensures WasLocal(past, st)
  {
  }

  lemma PayloadIsOrigin(c: Context, past: seq<System>, write: Write, st: QueryStatus)
    requires PayloadFrom(past, write, st)
    ensures Origin(c, past, st)
  {
    if write.Final? && WasOutcome(past, st) {
      OutcomeWasLocal(past, st);
    }
  }

  lemma PublisherKeepsRecord(c: Context, s: System, chance: Chance, past: seq<System>)
    requires PublisherFrom(past, s.publisher) && RecordFrom(c, past, s)
    ensures RecordFrom(c, past, PublisherStep(c, s, chance))
  {
    PublisherStores(c, s, chance);
    if s.publisher.Writing? {
      PayloadIsOrigin(c, past, s.publisher.write, s.publisher.record.payload.status);
    }
  }

  /** A recovery's write stores its verdict on what it read. */
  lemma VerdictFrom(c: Context, past: seq<System>, read: Record, st: QueryStatus)
    requires WasStored(c, past, read) && !IsTerminal(read.payload.status.phase)
    requires st.phase.Failed? && st.error == Some("orphaned_query") && st.rows == read.payload.status.rows
    ensures WasVerdict(c, past, st)
  {
    var t :| t in past && Published(c, t) && Current(c, t) == read;
    assert IsVerdict(c, t, st);
  }

  lemma RecoveryStores(c: Context, s: System, id: nat, pause: nat)
    requires id in s.recoveries
    ensures
      var t := RecoveryStep(c, s, id, pause);
      && t.final == s.final && t.local == s.local && t.done == s.done && t.publisher == s.publisher
      && (Published(c, t) ==>
            || (Published(c, s) && Current(c, t) == Current(c, s))
            || (s.recoveries[id].Writes? && var st := Current(c, t).payload.status;
                st.phase.Failed? && st.error == Some("orphaned_query") && st.rows == s.recoveries[id].read.payload.status.rows))
  {
    RecoveryShape(c, s, id, pause);
  }

  lemma RecoveryKeepsRecord(c: Context, s: System, id: nat, pause: nat, past: seq<System>)
    requires id in s.recoveries && RecordFrom(c, past, s) && RecoveryFrom(c, past, s.recoveries[id])
    ensures RecordFrom(c, past, RecoveryStep(c, s, id, pause))
  {
    var t := RecoveryStep(c, s, id, pause);
    RecoveryStores(c, s, id, pause);
    if Published(c, t) && !(Published(c, s) && Current(c, t) == Current(c, s)) {
      VerdictFrom(c, past, s.recoveries[id].read, Current(c, t).payload.status);
    }
  }

  // ---- steps ----

  /** Everything that holds of a past holds of a longer one. */
  lemma InvGrows(c: Context, past: seq<System>, t: System)
    requires EndsWhenDone(t) && PublisherFrom(past, t.publisher) && RecordFrom(c, past, t)
    requires forall id :: id in t.recoveries ==> RecoveryFrom(c, past, t.recoveries[id])
    ensures StatusInv(c, past + [t], t)
  {
    var more := past + [t];
    forall st: QueryStatus
      ensures WasLocal(past, st) ==> WasLocal(more, st)
      ensures WasOutcome(past, st) ==> WasOutcome(more, st)
      ensures WasLostResult(past, st) ==> WasLostResult(more, st)
      ensures WasVerdict(c, past, st) ==> WasVerdict(c, more, st)
    {
      OriginGrows(c, past, t, st);
    }
    forall id | id in t.recoveries ensures RecoveryFrom(c, more, t.recoveries[id]) {
      RecoveryGrows(c, past, t, t.recoveries[id]);
    }
  }

  lemma RecoveryGrows(c: Context, past: seq<System>, t: System, r: Recovery)
    requires RecoveryFrom(c, past, r)
    ensures RecoveryFrom(c, past + [t], r)
  {
    if r.Claims? || r.Writes? {
      var u :| u in past && Published(c, u) && Current(c, u) == r.read;
      assert u in past + [t];
    }
  }

  lemma PublisherKeepsStatusInv(c: Context, s: System, chance: Chance, past: seq<System>)
    requires StatusInv(c, past, s)
    ensures StatusInv(c, past + [PublisherStep(c, s, chance)], PublisherStep(c, s, chance))
  {
    PublisherKeepsFrom(c, s, chance, past);
    PublisherKeepsRecord(c, s, chance, past);
    PublisherTouches(c, s, chance);
    InvGrows(c, past, PublisherStep(c, s, chance));
  }

  lemma RecoveryKeepsStatusInv(c: Context, s: System, id: nat, pause: nat, past: seq<System>)
    requires StatusInv(c, past, s) && id in s.recoveries
    ensures StatusInv(c, past + [RecoveryStep(c, s, id, pause)], RecoveryStep(c, s, id, pause))
  {
    var t := RecoveryStep(c, s, id, pause);
    assert RecoveryFrom(c, past, s.recoveries[id]);
    RecoveryStores(c, s, id, pause);
    RecoveryKeepsRecord(c, s, id, pause, past);
    RecoveryShape(c, s, id, pause);
    InvGrows(c, past, t);
  }

  lemma RecoverKeepsStatusInv(c: Context, s: System, id: nat, node: string, past: seq<System>)
    requires StatusInv(c, past, s) && id !in s.recoveries
    ensures var t := s.(recoveries := s.recoveries[id := RecoveryStart(c, s, node)]); StatusInv(c, past + [t], t)
  {
    var t := s.(recoveries := s.recoveries[id := RecoveryStart(c, s, node)]);
    var r := RecoveryStart(c, s, node);
    if r.Claims? {
      assert s in past && Published(c, s) && Current(c, s) == r.read;
    }
    InvGrows(c, past, t);
  }

  lemma QuietKeepsStatusInv(c: Context, s: System, a: Action, past: seq<System>)
    requires StatusInv(c, past, s) && !a.Publish? && !a.Recover? && !a.Continue?
    ensures StatusInv(c, past + [Next(c, s, a)], Next(c, s, a))
  {
    QuietMove(c, s, a);
    InvGrows(c, past, Next(c, s, a));
  }

  /** The collector, a cancel request, an eviction or other activity in the store leave the shared record alone. */
  lemma QuietMove(c: Context, s: System, a: Action)
    requires EndsWhenDone(s) && !a.Publish? && !a.Recover? && !a.Continue?
    ensures
      var t := Next(c, s, a);
      && EndsWhenDone(t) && t.publisher == s.publisher && t.recoveries == s.recoveries && t.final == s.final
      && (Published(c, t) <==> Published(c, s)) && (Published(c, s) ==> Current(c, t) == Current(c, s))
  {
  }

  lemma NextKeepsStatusInv(c: Context, s: System, a: Action, past: seq<System>)
    requires StatusInv(c, past, s)
    ensures StatusInv(c, past + [Next(c, s, a)], Next(c, s, a))
  {
    match a
    case Publish(chance) => PublisherKeepsStatusInv(c, s, chance, past);
    case Recover(id, node) =>
      if id in s.recoveries {
        InvGrows(c, past, s);
      } else {
        RecoverKeepsStatusInv(c, s, id, node, past);
      }
    case Continue(id, pause) =>
      if id in s.recoveries {
        RecoveryKeepsStatusInv(c, s, id, pause, past);
      } else {
        InvGrows(c, past, s);
      }
    case _ => QuietKeepsStatusInv(c, s, a, past);
  }

  lemma {:induction false} RunKeepsStatusInv(c: Context, start: System, actions: seq<Action>)
    requires Init(c, start)
    ensures StatusInv(c, Past(c, start, actions), Run(c, start, actions))
  {
    if actions != [] {
      var front := actions[..|actions| - 1];
      RunKeepsStatusInv(c, start, front);
      NextKeepsStatusInv(c, Run(c, start, front), actions[|actions| - 1], Past(c, start, front));
    }
  }

  /**
    Over every run: the status any node can see is the first one, or exactly the phase, error and row
    count of the owner's local record at some earlier moment, or a recovery's verdict on an unfinished
    query, or says that a completed query's result could not be stored. The publisher's terminal
    status is of the second or the last kind, from a moment when the collector had finished, and its
    row count is that of the result.
  */
  lemma SharedStatusIsTrue(c: Context, start: System, actions: seq<Action>)
    requires Init(c, start)
    ensures
      var s, past := Run(c, start, actions), Past(c, start, actions);
      && (Published(c, s) ==> Origin(c, past, Current(c, s).payload.status))
      && (s.final.Some? ==>
            var st := s.final.value.payload.status;
            FinalOrigin(past, st) && s.done && st.rows == |Rows(s.batches)|)
  {
    RunKeepsStatusInv(c, start, actions);
    var s, past := Run(c, start, actions), Past(c, start, actions);
    if s.final.Some? {
      FinalRows(c, start, actions);
    }
  }

  lemma FinalRows(c: Context, start: System, actions: seq<Action>)
    requires Run(c, start, actions).final.Some?
    requires FinalOrigin(Past(c, start, actions), Run(c, start, actions).final.value.payload.status)
    ensures
      var s := Run(c, start, actions);
      s.done && s.final.value.payload.status.rows == |Rows(s.batches)|
  {
    var s, past := Run(c, start, actions), Past(c, start, actions);
    var t :| t in past && t.done && s.final.value.payload.status.rows == |Rows(t.batches)|;
    var k :| 0 <= k < |past| && past[k] == t;
    DoneSince(c, start, actions, k);
  }

  /** Once the collector has finished, the retained batches are what they were then. */
  lemma {:induction false} DoneSince(c: Context, start: System, actions: seq<Action>, k: nat)
    requires k <= |actions| && Past(c, start, actions)[k].done
    ensures Run(c, start, actions).done && Run(c, start, actions).batches == Past(c, start, actions)[k].batches
  {
    if k < |actions| {
      var front := actions[..|actions| - 1];
      DoneSince(c, start, front, k);
      StepFrozen(c, Run(c, start, front), actions[|actions| - 1]);
    }
  }
}
