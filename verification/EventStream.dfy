/**
  The replayable event stream of a query: subscribe, then snapshot the history, then go live.

  Recording an event and broadcasting it are separate steps, so broadcasts may overtake
  each other; a slow receiver may lag and lose some. The client's resume point is the
  last event id it has seen, as in section 9.2 of the WHATWG HTML standard.
*/
module EventStream {
  import opened Basics
  import opened Queries
  import opened QueryRecords

  datatype Live = Entry(entry: ServiceEvent) | Lagged

  /** A stream up to and including its first terminal event. */
  function UpToTerminal(events: seq<ServiceEvent>): seq<ServiceEvent> {
    if events == [] then []
    else if events[0].terminal then [events[0]]
    else [events[0]] + UpToTerminal(events[1..])
  }

  function HasTerminal(events: seq<ServiceEvent>): bool {
    exists i :: 0 <= i < |events| && events[i].terminal
  }

  /** What passes the live loop: only ids above everything seen, and nothing after a terminal event. */
  function LiveAfter(seen: nat, live: seq<Live>): seq<ServiceEvent>
    decreases live
  {
    if live == [] then []
    else if live[0].Lagged? || live[0].entry.id <= seen then LiveAfter(seen, live[1..])
    else if live[0].entry.terminal then [live[0].entry]
    else [live[0].entry] + LiveAfter(live[0].entry.id, live[1..])
  }

  function SeenAfter(last: nat, history: seq<ServiceEvent>): nat {
    if history == [] then last else Max(SeenAfter(last, history[..|history| - 1]), history[|history| - 1].id)
  }

  /** Everything a connected client receives. */
  function Delivered(last: nat, history: seq<ServiceEvent>, live: seq<Live>): seq<ServiceEvent> {
    if HasTerminal(history) then UpToTerminal(history) else history + LiveAfter(SeenAfter(last, history), live)
  }

  lemma TailHasNone(events: seq<ServiceEvent>)
    requires events != [] && !HasTerminal(events)
    ensures !events[0].terminal && !HasTerminal(events[1..])
  {
    forall i | 0 <= i < |events[1..]| ensures !events[1..][i].terminal {
      assert events[1..][i] == events[i + 1];
    }
  }

  lemma {:induction false} CutAtFirst(events: seq<ServiceEvent>, k: nat)
    requires k < |events| && events[k].terminal && !HasTerminal(events[..k])
    ensures UpToTerminal(events) == events[..k + 1]
  {
    if k > 0 {
      TailHasNone(events[..k]);
      assert events[..k][1..] == events[1..][..k - 1];
      CutAtFirst(events[1..], k - 1);
    }
  }

  /** The client may hang up at any send. */
  method HangsUp() returns (gone: bool) {
    gone := *;
  }

  /** The replay loop: send the snapshot up to its first terminal event. */
  method Replay(last: nat, history: seq<ServiceEvent>) returns (sent: seq<ServiceEvent>, seen: nat, hungUp: bool)
    ensures sent <= UpToTerminal(history)
    ensures !hungUp ==> sent == UpToTerminal(history)
    ensures !hungUp && !HasTerminal(history) ==> sent == history && seen == SeenAfter(last, history)
  {
    sent, seen, hungUp := [], last, false;
    for i := 0 to |history|
      invariant sent == history[..i] && !HasTerminal(history[..i])
      invariant !hungUp && seen == SeenAfter(last, history[..i])
    {
      var entry := history[i];
      assert history[..i + 1][..i] == history[..i];
      seen := Max(seen, entry.id);
      hungUp := HangsUp();
      if hungUp {
        PrefixSurvivesCut(history, i);
        return;
      }
      sent := sent + [entry];
      if entry.terminal {
        CutAtFirst(history, i);
        return;
      }
    }
    assert history[..|history|] == history;
    PrefixSurvivesCut(history, |history|);
    CutIsPrefix(history);
  }

  lemma LiveUnfold(seen: nat, live: seq<Live>, i: nat)
    requires i < |live|
    ensures LiveAfter(seen, live[i..]) ==
      if live[i].Lagged? || live[i].entry.id <= seen then LiveAfter(seen, live[i + 1..])
      else if live[i].entry.terminal then [live[i].entry]
      else [live[i].entry] + LiveAfter(live[i].entry.id, live[i + 1..])
  {
    assert live[i..][1..] == live[i + 1..];
  }

  /** The live loop. */
  method GoLive(start: nat, live: seq<Live>) returns (sent: seq<ServiceEvent>, hungUp: bool)
    ensures sent <= LiveAfter(start, live)
    ensures !hungUp ==> sent == LiveAfter(start, live)
  {
    sent, hungUp := [], false;
    var seen := start;
    for i := 0 to |live|
      invariant !hungUp && LiveAfter(start, live) == sent + LiveAfter(seen, live[i..])
    {
      LiveUnfold(seen, live, i);
      if live[i].Entry? && live[i].entry.id > seen {
        Shift(sent, [live[i].entry], LiveAfter(live[i].entry.id, live[i + 1..]));
        hungUp := HangsUp();
        if hungUp {
          return;
        }
        seen := live[i].entry.id;
        sent := sent + [live[i].entry];
        if live[i].entry.terminal {
          return;
        }
      }
    }
  }

  /** The streaming task: replay the snapshot, then go live unless it already ended the query. */
  method StreamEvents(last: nat, history: seq<ServiceEvent>, live: seq<Live>) returns (sent: seq<ServiceEvent>, hungUp: bool)
    ensures sent <= Delivered(last, history, live)
    ensures !hungUp ==> sent == Delivered(last, history, live)
  {
    var seen;
    sent, seen, hungUp := Replay(last, history);
    CutIsPrefix(history);
    if hungUp || HasTerminal(history) {
      return;
    }
    var rest;
    rest, hungUp := GoLive(seen, live);
    sent := sent + rest;
  }

  lemma {:induction false} PrefixSurvivesCut(events: seq<ServiceEvent>, k: nat)
    requires k <= |events| && !HasTerminal(events[..k])
    ensures events[..k] <= UpToTerminal(events)
  {
    if k > 0 {
      TailHasNone(events[..k]);
      assert events[..k][1..] == events[1..][..k - 1];
      PrefixSurvivesCut(events[1..], k - 1);
      assert events[..k] == [events[0]] + events[1..][..k - 1];
    }
  }

  // ---- ids strictly increase and nothing follows a terminal event, whatever is broadcast ----

  predicate Climbs(last: nat, events: seq<ServiceEvent>) {
    && (forall i :: 0 <= i < |events| ==> events[i].id > last)
    && (forall i, j :: 0 <= i < j < |events| ==> events[i].id < events[j].id)
  }

  predicate TerminalOnlyLast(events: seq<ServiceEvent>) {
    forall i :: 0 <= i < |events| - 1 ==> !events[i].terminal
  }

  lemma {:induction false} LiveClimbs(seen: nat, live: seq<Live>)
    ensures Climbs(seen, LiveAfter(seen, live)) && TerminalOnlyLast(LiveAfter(seen, live))
    decreases live
  {
    if live != [] {
      if live[0].Entry? && live[0].entry.id > seen {
        LiveClimbs(live[0].entry.id, live[1..]);
      } else {
        LiveClimbs(seen, live[1..]);
      }
    }
  }

  lemma {:induction false} SeenBounds(last: nat, history: seq<ServiceEvent>)
    ensures SeenAfter(last, history) >= last
    ensures forall i :: 0 <= i < |history| ==> history[i].id <= SeenAfter(last, history)
  {
    if history != [] {
      SeenBounds(last, history[..|history| - 1]);
      assert forall i :: 0 <= i < |history| - 1 ==> history[i] == history[..|history| - 1][i];
    }
  }

  lemma {:induction false} CutIsPrefix(events: seq<ServiceEvent>)
    ensures UpToTerminal(events) <= events && TerminalOnlyLast(UpToTerminal(events))
  {
    if events != [] {
      CutIsPrefix(events[1..]);
    }
  }

  lemma ClimbConcat(last: nat, a: seq<ServiceEvent>, mid: nat, b: seq<ServiceEvent>)
    requires Climbs(last, a) && Climbs(mid, b) && last <= mid
    requires forall i :: 0 <= i < |a| ==> a[i].id <= mid
    ensures Climbs(last, a + b)
  {
  }

  /** For every snapshot in id order and every live traffic, in any order and with any losses. */
  lemma StreamClimbs(last: nat, history: seq<ServiceEvent>, live: seq<Live>)
    requires Climbs(last, history)
    ensures Climbs(last, Delivered(last, history, live))
    ensures TerminalOnlyLast(Delivered(last, history, live))
  {
    if HasTerminal(history) {
      CutIsPrefix(history);
    } else {
      var seen := SeenAfter(last, history);
      SeenBounds(last, history);
      LiveClimbs(seen, live);
      ClimbConcat(last, history, seen, LiveAfter(seen, live));
    }
  }

  // ---- the hub: recording, broadcasting, subscribing, snapshotting, in any order ----

  datatype Client = Away | Subscribed(from: nat) | Streaming(from: nat, last: nat, at: nat, snapshot: seq<ServiceEvent>)

  datatype Hub = Hub(
    /** The recorded history. */
    history: seq<ServiceEvent>,
    /** What has been broadcast so far, in the order it went out. */
    log: seq<ServiceEvent>,
    client: Client)

  datatype Action = Record(event: QueryEvent, terminal: bool) | Broadcast(id: nat) | Subscribe | Snapshot(last: nat)

  function After(history: seq<ServiceEvent>, last: nat): seq<ServiceEvent> {
    if history == [] then []
    else
      var n := |history| - 1;
      After(history[..n], last) + if history[n].id > last then [history[n]] else []
  }

  function Next(h: Hub, a: Action): Hub {
    match a
    case Record(event, terminal) => h.(history := h.history + [ServiceEvent(|h.history| + 1, event, terminal)])
    case Broadcast(id) =>
      if 1 <= id <= |h.history| && h.history[id - 1] !in h.log then h.(log := h.log + [h.history[id - 1]]) else h
    case Subscribe => if h.client.Away? then h.(client := Subscribed(|h.log|)) else h
    case Snapshot(last) =>
      if h.client.Subscribed? then
        h.(client := Streaming(h.client.from, last, |h.history|, After(h.history, last)))
      else h
  }

  function Run(h: Hub, actions: seq<Action>): Hub {
    if actions == [] then h else Next(Run(h, actions[..|actions| - 1]), actions[|actions| - 1])
  }

  const IDLE := Hub([], [], Away)

  /** What the client's receiver holds when it never lags. */
  function Heard(h: Hub): seq<Live>
    requires h.client.Streaming? && h.client.from <= |h.log|
  {
    seq(|h.log| - h.client.from, i requires 0 <= i < |h.log| - h.client.from => Entry(h.log[h.client.from + i]))
  }

  predicate Numbered(history: seq<ServiceEvent>) {
    forall i :: 0 <= i < |history| ==> history[i].id == i + 1
  }

  ghost predicate HubInv(h: Hub) {
    && Numbered(h.history)
    && (forall i :: 0 <= i < |h.log| ==> 1 <= h.log[i].id <= |h.history|)
    && (h.client.Subscribed? ==> h.client.from <= |h.log|)
    && (h.client.Streaming? ==>
          && h.client.from <= |h.log| && h.client.at <= |h.history|
          && (forall i :: 0 <= i < h.client.from ==> h.log[i].id <= h.client.at)
          && h.client.snapshot == After(h.history[..h.client.at], h.client.last))
  }

  lemma NextKeepsHubInv(h: Hub, a: Action)
    requires HubInv(h)
    ensures HubInv(Next(h, a))
  {
    var t := Next(h, a);
    if t.client.Streaming? {
      if h.client.Streaming? {
        assert t.history[..t.client.at] == h.history[..h.client.at];
      } else {
        assert t.history[..t.client.at] == h.history;
      }
    }
  }

  lemma {:induction false} RunKeepsHubInv(actions: seq<Action>)
    ensures HubInv(Run(IDLE, actions))
  {
    if actions != [] {
      RunKeepsHubInv(actions[..|actions| - 1]);
      NextKeepsHubInv(Run(IDLE, actions[..|actions| - 1]), actions[|actions| - 1]);
    }
  }

  lemma {:induction false} AfterIsSuffix(history: seq<ServiceEvent>, last: nat)
    requires Numbered(history)
    ensures After(history, last) == history[Min(last, |history|)..]
  {
    if history != [] {
      var n := |history| - 1;
      AfterIsSuffix(history[..n], last);
      if n + 1 > last {
        assert history == history[..n] + [history[n]];
        DropThenAppend(history[..n], history[n], last);
      }
    }
  }

  lemma DropThenAppend<T>(front: seq<T>, x: T, k: nat)
    requires k <= |front|
    ensures (front + [x])[k..] == front[k..] + [x]
  {
  }

  lemma {:induction false} SeenOfSuffix(history: seq<ServiceEvent>, last: nat, k: nat)
    requires Numbered(history) && k <= |history| && last <= |history|
    ensures SeenAfter(last, history[k..]) == if k < |history| then |history| else last
  {
    if k < |history| {
      var n := |history| - 1;
      assert history[k..][..|history| - k - 1] == history[..n][k..];
      if last <= n {
        SeenOfSuffix(history[..n], last, k);
      } else {
        SeenBounds(last, history[..n][k..]);
        SeenWithin(last, history[..n][k..]);
      }
    }
  }

  lemma {:induction false} SeenWithin(last: nat, events: seq<ServiceEvent>)
    requires forall i :: 0 <= i < |events| ==> events[i].id <= last
    ensures SeenAfter(last, events) == last
  {
    if events != [] {
      SeenWithin(last, events[..|events| - 1]);
    }
  }

  /** In-order live traffic: the loop lets through exactly the unseen part. */
  lemma {:induction false} LiveTail(history: seq<ServiceEvent>, i: nat, m: nat, seen: nat, live: seq<Live>)
    requires Numbered(history) && i <= m <= |history| && |live| == m - i
    requires forall k :: 0 <= k < m - i ==> live[k] == Entry(history[i + k])
    requires i <= seen
    ensures LiveAfter(seen, live) == UpToTerminal(history[Min(seen, m)..m])
    decreases m - i
  {
    if i < m {
      assert live[0] == Entry(history[i]);
      if i == seen {
        assert history[i..m][1..] == history[i + 1..m];
        LiveTail(history, i + 1, m, i + 1, live[1..]);
      } else {
        LiveTail(history, i + 1, m, seen, live[1..]);
      }
    }
  }

  lemma {:induction false} CutConcat(a: seq<ServiceEvent>, b: seq<ServiceEvent>)
    ensures UpToTerminal(a + b) == if HasTerminal(a) then UpToTerminal(a) else a + UpToTerminal(b)
  {
    if a == [] {
      assert a + b == b;
    } else {
      CutConcat(a[1..], b);
      assert (a + b)[1..] == a[1..] + b;
      if a[0].terminal {
      } else if HasTerminal(a) {
        var k :| 0 <= k < |a| && a[k].terminal;
        assert a[1..][k - 1].terminal;
      } else {
        assert forall k :: 0 <= k < |a[1..]| ==> a[1..][k] == a[k + 1];
      }
    }
  }

  /**
    No gaps over every run: when broadcasts go out in id order and the receiver never lags,
    the client receives the history from its resume point on, one id after the other, as far
    as it has been snapshotted or broadcast, up to the first terminal event.
  */
  lemma NoGaps(actions: seq<Action>)
    requires Run(IDLE, actions).client.Streaming?
    requires Run(IDLE, actions).log <= Run(IDLE, actions).history
    ensures
      var h := Run(IDLE, actions);
      var upTo := Max(h.client.at, |h.log|);
      && HubInv(h) && upTo <= |h.history|
      && Delivered(h.client.last, h.client.snapshot, Heard(h)) == UpToTerminal(h.history[Min(h.client.last, upTo)..upTo])
  {
    RunKeepsHubInv(actions);
    HubHasNoGaps(Run(IDLE, actions));
  }

  lemma HubHasNoGaps(h: Hub)
    requires HubInv(h) && h.client.Streaming? && h.log <= h.history
    ensures
      var upTo := Max(h.client.at, |h.log|);
      Delivered(h.client.last, h.client.snapshot, Heard(h)) == UpToTerminal(h.history[Min(h.client.last, upTo)..upTo])
  {
    var Streaming(from, last, at, snapshot) := h.client;
    if from > 0 {
      assert h.log[from - 1].id <= at && h.log[from - 1] == h.history[from - 1];
    }
    StreamIsSuffix(h.history, from, |h.log|, last, at, Heard(h));
  }

  lemma StreamIsSuffix(history: seq<ServiceEvent>, from: nat, m: nat, last: nat, at: nat, live: seq<Live>)
    requires Numbered(history) && from <= at <= |history| && from <= m <= |history| && |live| == m - from
    requires forall k :: 0 <= k < m - from ==> live[k] == Entry(history[from + k])
    ensures
      var upTo := Max(at, m);
      Delivered(last, After(history[..at], last), live) == UpToTerminal(history[Min(last, upTo)..upTo])
  {
    var snapshot := history[..at][Min(last, at)..];
    var tail := history[Min(Max(last, at), m)..m];
    AfterIsSuffix(history[..at], last);
    if last <= at {
      SeenOfSuffix(history[..at], last, last);
    }
    assert SeenAfter(last, snapshot) == Max(last, at);
    LiveTail(history, from, m, Max(last, at), live);
    SnapshotThenTail(history, last, at, m);
    CutConcat(snapshot, tail);
  }

  lemma SnapshotThenTail(history: seq<ServiceEvent>, last: nat, at: nat, m: nat)
    requires at <= |history| && m <= |history|
    ensures
      var upTo := Max(at, m);
      history[Min(last, upTo)..upTo] == history[..at][Min(last, at)..] + history[Min(Max(last, at), m)..m]
  {
    assert history[..at][Min(last, at)..] == history[Min(last, at)..at];
    if last < at < m {
      assert history[last..m] == history[last..at] + history[at..m];
    }
  }

  /**
    In every run, whatever the receiver hears and loses, a client receives strictly increasing
    ids above its resume point, and nothing after a terminal event.
  */
  lemma EveryStreamClimbs(actions: seq<Action>, live: seq<Live>)
    requires Run(IDLE, actions).client.Streaming?
    ensures
      var client := Run(IDLE, actions).client;
      var sent := Delivered(client.last, client.snapshot, live);
      Climbs(client.last, sent) && TerminalOnlyLast(sent)
  {
    RunKeepsHubInv(actions);
    var h := Run(IDLE, actions);
    AfterIsSuffix(h.history[..h.client.at], h.client.last);
    StreamClimbs(h.client.last, h.client.snapshot, live);
  }

  lemma RunTwice(h: Hub, actions: seq<Action>, a: Action, b: Action)
    ensures Run(h, actions + [a, b]) == Next(Next(Run(h, actions), a), b)
  {
    assert (actions + [a, b])[..|actions| + 1] == actions + [a];
    assert (actions + [a])[..|actions|] == actions;
  }
}
