/**
  Exactly which events a client of the event stream misses. An event is recorded and broadcast
  in two steps, so broadcasts may overtake each other, and the live loop drops every id that is
  not above all ids it has seen.
*/
module EventLoss {
  import opened Basics
  import opened Queries
  import opened QueryRecords
  import opened EventStream

  // ---- exactly which events get through ----

  /** Entry `k` has an id above `seen` and above every id heard before it. */
  predicate Peak(seen: nat, live: seq<Live>, k: nat)
    requires k < |live|
  {
    && live[k].Entry? && live[k].entry.id > seen
    && forall j :: 0 <= j < k && live[j].Entry? ==> live[j].entry.id < live[k].entry.id
  }

  /** Entry `k` is a peak, and no peak before it ended the stream. */
  predicate Passes(seen: nat, live: seq<Live>, k: nat)
    requires k < |live|
  {
    Peak(seen, live, k) && forall j :: 0 <= j < k && Peak(seen, live, j) ==> !live[j].entry.terminal
  }

  /** The level the loop compares with after its first entry. */
  function Level(seen: nat, first: Live): nat {
    if first.Entry? then Max(seen, first.entry.id) else seen
  }

  lemma PeakShifts(seen: nat, live: seq<Live>, k: nat)
    requires k + 1 < |live|
    ensures Peak(seen, live, k + 1) <==> Peak(Level(seen, live[0]), live[1..], k)
  {
    if Peak(Level(seen, live[0]), live[1..], k) {
      forall j | 0 <= j < k + 1 && live[j].Entry? ensures live[j].entry.id < live[k + 1].entry.id {
        assert j > 0 ==> live[j] == live[1..][j - 1];
      }
    }
  }

  lemma PassShifts(seen: nat, live: seq<Live>, k: nat)
    requires k + 1 < |live|
    ensures Passes(seen, live, k + 1) <==>
      Passes(Level(seen, live[0]), live[1..], k) && !(Peak(seen, live, 0) && live[0].entry.terminal)
  {
    PeakShifts(seen, live, k);
    forall j | 0 <= j < k ensures Peak(seen, live, j + 1) <==> Peak(Level(seen, live[0]), live[1..], j) {
      PeakShifts(seen, live, j);
    }
    if Passes(Level(seen, live[0]), live[1..], k) && !(Peak(seen, live, 0) && live[0].entry.terminal) {
      forall j | 0 <= j < k + 1 && Peak(seen, live, j) ensures !live[j].entry.terminal {
        if j > 0 {
          assert Peak(seen, live, (j - 1) + 1) && live[j] == live[1..][j - 1];
        }
      }
    }
  }

  /** Some entry carrying `e` passes. */
  predicate GetsThrough(seen: nat, live: seq<Live>, e: ServiceEvent) {
    exists k :: 0 <= k < |live| && live[k] == Entry(e) && Passes(seen, live, k)
  }

  lemma ThroughShifts(seen: nat, live: seq<Live>, e: ServiceEvent)
    requires live != []
    ensures GetsThrough(seen, live, e) <==>
      || (live[0] == Entry(e) && Peak(seen, live, 0))
      || (!(Peak(seen, live, 0) && live[0].entry.terminal) && GetsThrough(Level(seen, live[0]), live[1..], e))
  {
    if GetsThrough(seen, live, e) {
      var k :| 0 <= k < |live| && live[k] == Entry(e) && Passes(seen, live, k);
      if k > 0 {
        PassShifts(seen, live, k - 1);
        assert live[1..][k - 1] == Entry(e);
      }
    }
    if live[0] == Entry(e) && Peak(seen, live, 0) {
      assert Passes(seen, live, 0);
    }
    if !(Peak(seen, live, 0) && live[0].entry.terminal) && GetsThrough(Level(seen, live[0]), live[1..], e) {
      var k :| 0 <= k < |live[1..]| && live[1..][k] == Entry(e) && Passes(Level(seen, live[0]), live[1..], k);
      PassShifts(seen, live, k);
      assert live[k + 1] == Entry(e);
    }
  }

  /** The live loop sends an event exactly when it gets through, whatever is heard, in any order and with any losses. */
  lemma {:induction false} LiveExactly(seen: nat, live: seq<Live>, e: ServiceEvent)
    ensures e in LiveAfter(seen, live) <==> GetsThrough(seen, live, e)
    decreases live
  {
    if live != [] {
      ThroughShifts(seen, live, e);
      LiveExactly(Level(seen, live[0]), live[1..], e);
    }
  }

  /** Entry `k` comes after a larger id, or after an event that had already ended the stream. */
  predicate Hidden(seen: nat, live: seq<Live>, k: nat)
    requires k < |live| && live[k].Entry?
  {
    exists j :: 0 <= j < k && live[j].Entry?
      && (live[j].entry.id > live[k].entry.id || (live[j].entry.terminal && Peak(seen, live, j)))
  }

  predicate Distinct(live: seq<Live>) {
    forall i, j :: 0 <= i < j < |live| && live[i].Entry? && live[j].Entry? ==> live[i].entry.id != live[j].entry.id
  }

  lemma PassesUnlessHidden(seen: nat, live: seq<Live>, k: nat)
    requires k < |live| && live[k].Entry? && live[k].entry.id > seen && Distinct(live)
    ensures Passes(seen, live, k) <==> !Hidden(seen, live, k)
  {
  }

  lemma ThroughUnlessHidden(seen: nat, live: seq<Live>, k: nat)
    requires k < |live| && live[k].Entry? && live[k].entry.id > seen && Distinct(live)
    ensures live[k].entry in LiveAfter(seen, live) <==> !Hidden(seen, live, k)
  {
    var e := live[k].entry;
    LiveExactly(seen, live, e);
    PassesUnlessHidden(seen, live, k);
    assert live[k] == Entry(e);
    if GetsThrough(seen, live, e) {
      var m :| 0 <= m < |live| && live[m] == Entry(e) && Passes(seen, live, m);
      assert m == k;
    }
  }

  // ---- over the runs of the hub ----

  /** Only recorded events go out, each of them once. */
  ghost predicate LogInv(h: Hub) {
    && Numbered(h.history)
    && (forall i :: 0 <= i < |h.log| ==> h.log[i] in h.history)
    && (forall i, j :: 0 <= i < j < |h.log| ==> h.log[i] != h.log[j])
  }

  lemma NextKeepsLogInv(h: Hub, a: Action)
    requires LogInv(h)
    ensures LogInv(Next(h, a))
  {
  }

  lemma {:induction false} RunKeepsLogInv(actions: seq<Action>)
    ensures LogInv(Run(IDLE, actions))
  {
    if actions != [] {
      RunKeepsLogInv(actions[..|actions| - 1]);
      NextKeepsLogInv(Run(IDLE, actions[..|actions| - 1]), actions[|actions| - 1]);
    }
  }

  lemma HeardIsDistinct(h: Hub)
    requires LogInv(h) && h.client.Streaming? && h.client.from <= |h.log|
    ensures Distinct(Heard(h))
  {
    var from, heard := h.client.from, Heard(h);
    forall i, j | 0 <= i < j < |heard| ensures heard[i].entry.id != heard[j].entry.id {
      assert h.log[from + i] != h.log[from + j];
    }
  }

  /** What the client has been sent when its receiver has never lagged. */
  function Received(h: Hub): seq<ServiceEvent>
    requires h.client.Streaming? && h.client.from <= |h.log|
  {
    Delivered(h.client.last, h.client.snapshot, Heard(h))
  }

  /** The id above which the client relies on live traffic. */
  function Covered(h: Hub): nat
    requires h.client.Streaming?
  {
    Max(h.client.last, h.client.at)
  }

  lemma SnapshotCovers(h: Hub)
    requires HubInv(h) && h.client.Streaming?
    ensures SeenAfter(h.client.last, h.client.snapshot) == Covered(h)
    ensures h.client.snapshot == h.history[..h.client.at][Min(h.client.last, h.client.at)..]
  {
    var Streaming(from, last, at, snapshot) := h.client;
    AfterIsSuffix(h.history[..at], last);
    if last <= at {
      SeenOfSuffix(h.history[..at], last, last);
    }
  }

  /** Heard entry `k` lies past the snapshot. */
  predicate Beyond(h: Hub, k: nat)
    requires h.client.Streaming? && h.client.from <= |h.log|
  {
    k < |Heard(h)| && Heard(h)[k].entry.id > Covered(h)
  }

  lemma HubLosesHidden(h: Hub, k: nat)
    requires HubInv(h) && LogInv(h) && h.client.Streaming? && Beyond(h, k) && !HasTerminal(h.client.snapshot)
    ensures Heard(h)[k].entry !in Received(h) <==> Hidden(Covered(h), Heard(h), k)
  {
    SnapshotCovers(h);
    SeenBounds(h.client.last, h.client.snapshot);
    HeardIsDistinct(h);
    ThroughUnlessHidden(Covered(h), Heard(h), k);
  }

  /**
    Exactly what is lost, over every run: with a snapshot that did not end the query and a receiver
    that never lags, a broadcast event past the snapshot is missing if and only if a larger id, or
    an event that ended the stream, was heard before it.
  */
  lemma LostExactlyWhenHidden(actions: seq<Action>, k: nat)
    requires
      var h := Run(IDLE, actions);
      h.client.Streaming? && h.client.from <= |h.log| && Beyond(h, k) && !HasTerminal(h.client.snapshot)
    ensures
      var h := Run(IDLE, actions);
      Heard(h)[k].entry !in Received(h) <==> Hidden(Covered(h), Heard(h), k)
  {
    RunKeepsHubInv(actions);
    RunKeepsLogInv(actions);
    HubLosesHidden(Run(IDLE, actions), k);
  }

  // ---- exactly when nothing is lost ----

  /** A strictly climbing stream that has every id up to `top` is the ids one after the other. */
  lemma {:induction false} ClimbsWithoutGap(base: nat, top: nat, events: seq<ServiceEvent>)
    requires base <= top && Climbs(base, events) && forall i :: 0 <= i < |events| ==> events[i].id <= top
    requires forall n :: base < n <= top ==> HasId(events, n)
    ensures |events| == top - base && forall i :: 0 <= i < |events| ==> events[i].id == base + 1 + i
    decreases top
  {
    assert |events| > 0 ==> events[0].id > base;
    if base < top {
      assert HasId(events, top);
      var n := |events| - 1;
      assert events[n].id == top;
      var front := events[..n];
      forall m | base < m <= top - 1 ensures HasId(front, m) {
        assert HasId(events, m);
        var i :| 0 <= i < |events| && events[i].id == m;
        assert front[i].id == m;
      }
      ClimbsWithoutGap(base, top - 1, front);
    }
  }

  predicate HasId(events: seq<ServiceEvent>, n: nat) {
    exists i :: 0 <= i < |events| && events[i].id == n
  }


  /** The part of the history the client asked for, up to its first terminal event. */
  function Wanted(h: Hub): seq<ServiceEvent>
    requires h.client.Streaming?
  {
    UpToTerminal(h.history[Min(h.client.last, |h.history|)..])
  }

  /** Everything recorded has been broadcast. */
  predicate Settled(h: Hub) {
    forall i :: 0 <= i < |h.history| ==> h.history[i] in h.log
  }

  /** No wanted event past the snapshot is hidden. */
  ghost predicate Unhidden(h: Hub)
    requires h.client.Streaming? && h.client.from <= |h.log|
  {
    forall k: nat :: Beyond(h, k) && Heard(h)[k].entry in Wanted(h) ==> !Hidden(Covered(h), Heard(h), k)
  }

  lemma WantedIsRange(h: Hub)
    requires LogInv(h) && h.client.Streaming?
    ensures
      var low := Min(h.client.last, |h.history|);
      var top := low + |Wanted(h)|;
      top <= |h.history| && Wanted(h) == h.history[low..top] && TerminalOnlyLast(Wanted(h))
  {
    CutIsPrefix(h.history[Min(h.client.last, |h.history|)..]);
  }

  lemma {:induction false} CutEndsOrAll(events: seq<ServiceEvent>)
    ensures UpToTerminal(events) == events || HasTerminal(UpToTerminal(events))
  {
    if events != [] && !events[0].terminal {
      CutEndsOrAll(events[1..]);
      assert events == [events[0]] + events[1..];
      if HasTerminal(UpToTerminal(events[1..])) {
        var k :| 0 <= k < |UpToTerminal(events[1..])| && UpToTerminal(events[1..])[k].terminal;
        assert UpToTerminal(events)[k + 1].terminal;
      }
    } else if events != [] {
      assert UpToTerminal(events)[0].terminal;
    }
  }

  predicate Recorded(h: Hub, e: ServiceEvent) {
    1 <= e.id <= |h.history| && h.history[e.id - 1] == e
  }

  lemma RangeWasRecorded(history: seq<ServiceEvent>, low: nat, high: nat, e: ServiceEvent)
    requires Numbered(history) && low <= high <= |history| && e in history[..high][low..]
    ensures 1 <= e.id <= |history| && history[e.id - 1] == e
  {
    var i :| 0 <= i < high - low && history[..high][low..][i] == e;
    assert history[low + i] == e;
  }

  lemma SnapshotWasRecorded(h: Hub, e: ServiceEvent)
    requires HubInv(h) && h.client.Streaming? && e in h.client.snapshot
    ensures Recorded(h, e)
  {
    SnapshotCovers(h);
    RangeWasRecorded(h.history, Min(h.client.last, h.client.at), h.client.at, e);
  }

  lemma HeardWasRecorded(h: Hub, seen: nat, e: ServiceEvent)
    requires LogInv(h) && h.client.Streaming? && h.client.from <= |h.log| && e in LiveAfter(seen, Heard(h))
    ensures Recorded(h, e)
  {
    LiveExactly(seen, Heard(h), e);
    var k :| 0 <= k < |Heard(h)| && Heard(h)[k] == Entry(e) && Passes(seen, Heard(h), k);
    assert h.log[h.client.from + k] == e;
  }

  lemma DeliveredFrom(last: nat, history: seq<ServiceEvent>, live: seq<Live>, e: ServiceEvent)
    requires e in Delivered(last, history, live)
    ensures e in history || e in LiveAfter(SeenAfter(last, history), live)
  {
    CutIsPrefix(history);
  }

  /** Whatever the client has received was recorded, under the same id. */
  lemma ReceivedWasRecorded(h: Hub, e: ServiceEvent)
    requires HubInv(h) && LogInv(h) && h.client.Streaming? && e in Received(h)
    ensures Recorded(h, e)
  {
    DeliveredFrom(h.client.last, h.client.snapshot, Heard(h), e);
    if e in h.client.snapshot {
      SnapshotWasRecorded(h, e);
    } else {
      HeardWasRecorded(h, SeenAfter(h.client.last, h.client.snapshot), e);
    }
  }

  lemma ReceivedClimbs(h: Hub)
    requires HubInv(h) && h.client.Streaming?
    ensures Climbs(h.client.last, Received(h)) && TerminalOnlyLast(Received(h))
  {
    SnapshotCovers(h);
    StreamClimbs(h.client.last, h.client.snapshot, Heard(h));
  }

  /** In a settled hub every event past the snapshot has been heard. */
  lemma HeardPastSnapshot(h: Hub, n: nat) returns (k: nat)
    requires HubInv(h) && LogInv(h) && Settled(h) && h.client.Streaming? && Covered(h) < n <= |h.history|
    ensures Beyond(h, k) && Heard(h)[k].entry == h.history[n - 1]
  {
    var e := h.history[n - 1];
    var i :| 0 <= i < |h.log| && h.log[i] == e;
    k := i - h.client.from;
  }

  lemma WantedArrives(h: Hub, n: nat)
    requires HubInv(h) && LogInv(h) && Settled(h) && h.client.Streaming? && Unhidden(h) && !HasTerminal(h.client.snapshot)
    requires h.client.last < n <= |h.history| && h.history[n - 1] in Wanted(h)
    ensures h.history[n - 1] in Received(h)
  {
    SnapshotCovers(h);
    if n <= h.client.at {
      assert h.client.snapshot[n - 1 - h.client.last] == h.history[n - 1];
    } else {
      var k := HeardPastSnapshot(h, n);
      HubLosesHidden(h, k);
    }
  }

  /** If every wanted id arrives, what arrives is the wanted part and nothing else. */
  lemma AllArrived(h: Hub)
    requires HubInv(h) && LogInv(h) && h.client.Streaming? && h.client.last <= |h.history|
    requires forall n :: h.client.last < n <= h.client.last + |Wanted(h)| ==> HasId(Received(h), n)
    ensures Received(h) == Wanted(h)
  {
    var last, received, wanted := h.client.last, Received(h), Wanted(h);
    var top := last + |wanted|;
    WantedIsRange(h);
    ReceivedClimbs(h);
    forall i | 0 <= i < |received| ensures received[i].id <= top && Recorded(h, received[i]) {
      ReceivedWasRecorded(h, received[i]);
      NoneAfterTheEnd(h, i);
    }
    ClimbsWithoutGap(last, top, received);
  }

  lemma NoneAfterTheEnd(h: Hub, i: nat)
    requires HubInv(h) && LogInv(h) && h.client.Streaming? && h.client.last <= |h.history| && i < |Received(h)|
    requires forall n :: h.client.last < n <= h.client.last + |Wanted(h)| ==> HasId(Received(h), n)
    ensures Received(h)[i].id <= h.client.last + |Wanted(h)|
  {
    var top := h.client.last + |Wanted(h)|;
    WantedIsRange(h);
    ReceivedClimbs(h);
    ReceivedWasRecorded(h, Received(h)[i]);
    CutEndsOrAll(h.history[h.client.last..]);
    if top < |h.history| {
      assert HasTerminal(Wanted(h));
      assert Wanted(h)[|Wanted(h)| - 1].terminal;
      assert HasId(Received(h), top);
      var m :| 0 <= m < |Received(h)| && Received(h)[m].id == top;
      ReceivedWasRecorded(h, Received(h)[m]);
      assert Received(h)[m].terminal;
      assert m == |Received(h)| - 1;
    }
  }

  lemma CompleteIfUnhidden(h: Hub)
    requires HubInv(h) && LogInv(h) && Settled(h) && h.client.Streaming? && !HasTerminal(h.client.snapshot)
    requires h.client.last <= |h.history| && Unhidden(h)
    ensures Received(h) == Wanted(h)
  {
    var last := h.client.last;
    WantedIsRange(h);
    forall n | last < n <= last + |Wanted(h)| ensures HasId(Received(h), n) {
      assert Wanted(h)[n - 1 - last] == h.history[n - 1];
      WantedArrives(h, n);
      var i :| 0 <= i < |Received(h)| && Received(h)[i] == h.history[n - 1];
    }
    AllArrived(h);
  }

  lemma UnhiddenIfComplete(h: Hub)
    requires HubInv(h) && LogInv(h) && h.client.Streaming? && !HasTerminal(h.client.snapshot)
    requires Received(h) == Wanted(h)
    ensures Unhidden(h)
  {
    forall k: nat | Beyond(h, k) && Heard(h)[k].entry in Wanted(h) ensures !Hidden(Covered(h), Heard(h), k) {
      HubLosesHidden(h, k);
    }
  }

  lemma CutWithin(history: seq<ServiceEvent>, low: nat, high: nat)
    requires low <= high <= |history| && HasTerminal(history[..high][low..])
    ensures UpToTerminal(history[low..]) == UpToTerminal(history[..high][low..])
  {
    assert history[low..] == history[..high][low..] + history[high..];
    CutConcat(history[..high][low..], history[high..]);
  }

  lemma SnapshotIsAll(h: Hub)
    requires HubInv(h) && h.client.Streaming? && HasTerminal(h.client.snapshot)
    ensures Received(h) == Wanted(h) == UpToTerminal(h.client.snapshot)
  {
    SnapshotCovers(h);
    NotEmpty(h.client.snapshot);
    CutWithin(h.history, h.client.last, h.client.at);
  }

  lemma NotEmpty(events: seq<ServiceEvent>)
    requires HasTerminal(events)
    ensures |events| > 0
  {
  }

  lemma WantedIsCovered(h: Hub, e: ServiceEvent)
    requires HubInv(h) && h.client.Streaming? && HasTerminal(h.client.snapshot) && e in Wanted(h)
    ensures e.id <= Covered(h)
  {
    SnapshotIsAll(h);
    SnapshotCovers(h);
    CutIsPrefix(h.client.snapshot);
    SeenBounds(h.client.last, h.client.snapshot);
  }

  /** A snapshot with a terminal event is complete by itself, and nothing past it is wanted. */
  lemma EndedSnapshot(h: Hub)
    requires HubInv(h) && h.client.Streaming? && HasTerminal(h.client.snapshot)
    ensures Received(h) == Wanted(h) && Unhidden(h)
  {
    SnapshotIsAll(h);
    forall e | e in Wanted(h) ensures e.id <= Covered(h) {
      WantedIsCovered(h, e);
    }
  }

  /** A client that resumes past the end of the history wants nothing and gets nothing. */
  lemma NothingYet(h: Hub)
    requires HubInv(h) && LogInv(h) && h.client.Streaming? && h.client.last > |h.history|
    ensures Received(h) == [] == Wanted(h)
  {
    ReceivedClimbs(h);
    if Received(h) != [] {
      ReceivedWasRecorded(h, Received(h)[0]);
    }
  }

  /**
    Exactly when nothing is lost, over every run that has broadcast all it recorded: the client has
    its whole part of the history, in order and up to the first terminal event, if and only if none
    of those events was overtaken by a larger id or by the end of the stream.
  */
  lemma CompleteUnlessOvertaken(actions: seq<Action>)
    requires Run(IDLE, actions).client.Streaming? && Settled(Run(IDLE, actions))
    ensures
      var h := Run(IDLE, actions);
      h.client.from <= |h.log| && (Received(h) == Wanted(h) <==> Unhidden(h))
  {
    var h := Run(IDLE, actions);
    RunKeepsHubInv(actions);
    RunKeepsLogInv(actions);
    if HasTerminal(h.client.snapshot) {
      EndedSnapshot(h);
    } else if Received(h) == Wanted(h) {
      UnhiddenIfComplete(h);
    } else if h.client.last > |h.history| {
      NothingYet(h);
    } else if Unhidden(h) {
      CompleteIfUnhidden(h);
    }
  }

  /** Events can be lost for good, even the one that ends the query: the later id hides the earlier one. */
  lemma OvertakingLosesAnEvent(first: QueryEvent, ends: bool, second: QueryEvent)
    ensures
      var h := Run(IDLE, [Subscribe, Snapshot(0), Record(first, ends), Record(second, false), Broadcast(2), Broadcast(1)]);
      && h.client.Streaming? && h.client.from <= |h.log| && |h.history| == 2 && h.history[0].terminal == ends
      && Received(h) == [h.history[1]] && !HasTerminal(Received(h))
  {
    var a1, a2 := [Subscribe, Snapshot(0)], [Record(first, ends), Record(second, false)];
    var e1, e2 := ServiceEvent(1, first, ends), ServiceEvent(2, second, false);
    var client := Streaming(0, 0, 0, []);
    RunTwice(IDLE, [], Subscribe, Snapshot(0));
    assert [] + a1 == a1;
    assert Run(IDLE, a1) == Hub([], [], client);
    RunTwice(IDLE, a1, Record(first, ends), Record(second, false));
    assert Run(IDLE, a1 + a2) == Hub([e1, e2], [], client);
    RunTwice(IDLE, a1 + a2, Broadcast(2), Broadcast(1));
    var end := Hub([e1, e2], [e2, e1], client);
    assert a1 + a2 + [Broadcast(2), Broadcast(1)]
        == [Subscribe, Snapshot(0), Record(first, ends), Record(second, false), Broadcast(2), Broadcast(1)];
    assert Run(IDLE, a1 + a2 + [Broadcast(2), Broadcast(1)]) == end;
    OnlyTheSecond(end, e1, e2);
  }

  lemma OnlyTheSecond(end: Hub, e1: ServiceEvent, e2: ServiceEvent)
    requires end == Hub([e1, e2], [e2, e1], Streaming(0, 0, 0, [])) && e1.id == 1 && e2.id == 2 && !e2.terminal
    ensures Received(end) == [e2]
  {
    assert Heard(end) == [Entry(e2), Entry(e1)];
    assert Heard(end)[1..] == [Entry(e1)];
    assert LiveAfter(2, Heard(end)[1..]) == [];
    assert LiveAfter(0, Heard(end)) == [e2];
  }
}
