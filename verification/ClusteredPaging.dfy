/**
  Result pages on a node that does not own the query. The status, the record that names the
  result and the object itself are read by three separate calls, and the query may finish in
  between; the page is cut by the row count of the status that was read first.
*/
module ClusteredPaging {
  import opened Basics
  import opened Outcomes
  import opened Batches
  import CS = ClusterStore
  import opened Queries
  import opened ClusterProtocol
  import opened Paging
  import opened ResultReaders

  datatype RowPage = RowPage(rows: seq<Row>, totalRows: nat, nextOffset: Option<nat>)

  /** The page of a result of `total` rows that starts at `offset`. */
  function PageOf(all: seq<Row>, total: nat, offset: nat, limit: nat): RowPage {
    var start := Min(offset, total);
    var end := Min(SatAdd(start, Max(limit, 1)), total);
    RowPage(Clip(all, start, end), total, if end < total then Some(end) else None)
  }

  /** It is the page the owner itself would serve: as many rows as asked for, at least one, as far as there are any. */
  lemma PageOfIsThePage(all: seq<Row>, offset: nat, limit: nat)
    requires |all| <= USIZE_MAX
    ensures
      var page := PageOf(all, |all|, offset, limit);
      var start := Min(offset, |all|);
      var length := Min(Max(limit, 1), |all| - start);
      && page.rows == all[start..start + length] && page.totalRows == |all|
      && page.nextOffset == if start + length < |all| then Some(start + length) else None
  {
  }

  /** The status comes from the store as it was in `first`, the record from `second`, the object from `third`. */
  function RemotePage(c: Context, first: System, second: System, third: System, offset: nat, limit: nat): Result<RowPage, string> {
    match CS.GetResource(first.store, "query", c.queryId, c.principal)
    case Err(_) => Err("query_not_found")
    case Ok(None) => Err("query_not_found")
    case Ok(Some(record)) =>
      var read := RemoteRead(c, second, third);
      if read.Err? then Err(read.error)
      else Ok(PageOf(Rows(read.value), record.payload.status.rows, offset, limit))
  }

  // ---- no status ever counts rows that are not there ----

  /** The row count the publisher is about to publish, if it holds one. */
  function Pending(p: Publisher): nat {
    match p
    case Fetching(_, payload, _) => payload.status.rows
    case Writing(_, record, _, _) => record.payload.status.rows
    case Reading(status, _) => status.rows
    case Uploading(status, _, _) => status.rows
    case _ => 0
  }

  function HeldRows(r: Recovery): nat {
    if r.Claims? || r.Writes? then r.read.payload.status.rows else 0
  }

  /** Every published, pending or recovery-held row count is at most `n`. */
  ghost predicate RowsWithin(c: Context, s: System, n: nat) {
    && (Published(c, s) ==> Current(c, s).payload.status.rows <= n)
    && Pending(s.publisher) <= n
    && (forall id :: id in s.recoveries ==> HeldRows(s.recoveries[id]) <= n)
  }

  /** After a look at the local record the publisher holds its row count. */
  lemma PollCounts(c: Context, s: System, chance: Chance)
    requires s.publisher.Polling?
    ensures var p := PublisherStep(c, s, chance).publisher; Pending(p) == 0 || Pending(p) == |Rows(s.batches)|
  {
  }

  /** Claiming, renewing and releasing hold no count. */
  lemma LeaseStepCountsNothing(c: Context, s: System, chance: Chance)
    requires s.publisher.Claiming? || s.publisher.Renewing? || s.publisher.Releasing? || s.publisher.Stopped?
    ensures Pending(PublisherStep(c, s, chance).publisher) == 0
  {
  }

  /** Between the look and the write it keeps its count or drops it. */
  lemma ReadAndUploadKeepCount(c: Context, s: System, chance: Chance)
    requires s.publisher.Reading? || s.publisher.Uploading?
    ensures Pending(PublisherStep(c, s, chance).publisher) == Pending(s.publisher)
  {
  }

  lemma WriteKeepsCount(c: Context, s: System, chance: Chance)
    requires s.publisher.Fetching? || s.publisher.Writing?
    ensures var p := PublisherStep(c, s, chance).publisher; Pending(p) == 0 || Pending(p) == Pending(s.publisher)
  {
  }

  lemma PublisherCounts(c: Context, s: System, chance: Chance)
    ensures
      var p := PublisherStep(c, s, chance).publisher;
      Pending(p) == 0 || Pending(p) == Pending(s.publisher) || Pending(p) == |Rows(s.batches)|
  {
    if s.publisher.Polling? {
      PollCounts(c, s, chance);
    } else if s.publisher.Reading? || s.publisher.Uploading? {
      ReadAndUploadKeepCount(c, s, chance);
    } else if s.publisher.Fetching? || s.publisher.Writing? {
      WriteKeepsCount(c, s, chance);
    } else {
      LeaseStepCountsNothing(c, s, chance);
    }
  }

  /** It publishes the count it holds, or none. */
  lemma PublisherPublishes(c: Context, s: System, chance: Chance)
    ensures
      var t := PublisherStep(c, s, chance);
      Published(c, t) ==>
        || Current(c, t).payload.status.rows == Pending(s.publisher)
        || (Published(c, s) && Current(c, t) == Current(c, s))
  {
    if s.publisher.Claiming? || s.publisher.Renewing? || s.publisher.Releasing? {
      PublisherLeaseShape(c, s, chance);
    }
  }

  lemma PublisherKeepsRows(c: Context, s: System, chance: Chance, n: nat)
    requires RowsWithin(c, s, n) && |Rows(s.batches)| <= n
    ensures RowsWithin(c, PublisherStep(c, s, chance), n)
  {
    PublisherTouches(c, s, chance);
    PublisherPublishes(c, s, chance);
    PublisherCounts(c, s, chance);
  }

  lemma RecoveryKeepsRows(c: Context, s: System, id: nat, pause: nat, n: nat)
    requires RowsWithin(c, s, n) && id in s.recoveries
    ensures RowsWithin(c, RecoveryStep(c, s, id, pause), n)
  {
    assert HeldRows(s.recoveries[id]) <= n;
  }

  lemma RecoverKeepsRows(c: Context, s: System, id: nat, node: string, n: nat)
    requires RowsWithin(c, s, n)
    ensures RowsWithin(c, s.(recoveries := s.recoveries[id := RecoveryStart(c, s, node)]), n)
  {
  }

  lemma NextKeepsRows(c: Context, s: System, a: Action, n: nat)
    requires RowsWithin(c, s, n) && |Rows(s.batches)| <= n
    ensures RowsWithin(c, Next(c, s, a), n)
  {
    match a
    case Publish(chance) => PublisherKeepsRows(c, s, chance, n);
    case Recover(id, node) => RecoverKeepsRows(c, s, id, node, n);
    case Continue(id, pause) => if id in s.recoveries { RecoveryKeepsRows(c, s, id, pause, n); }
    case _ =>
  }

  lemma BatchesGrow(c: Context, s: System, a: Action)
    ensures s.batches <= Next(c, s, a).batches
  {
    match a
    case Publish(chance) => PublisherTouches(c, s, chance);
    case Continue(id, pause) => if id in s.recoveries { RecoveryShape(c, s, id, pause); }
    case _ =>
  }

  /** In every reachable state no status counts more rows than have been retained, and what was retained stays. */
  lemma {:induction false} RunKeepsRows(c: Context, s: System, actions: seq<Action>)
    requires RowsWithin(c, s, |Rows(s.batches)|)
    ensures var t := Run(c, s, actions); RowsWithin(c, t, |Rows(t.batches)|) && s.batches <= t.batches
  {
    if actions != [] {
      var front, a := actions[..|actions| - 1], actions[|actions| - 1];
      RunKeepsRows(c, s, front);
      var t := Run(c, s, front);
      BatchesGrow(c, t, a);
      PrefixHasFewerRows(t.batches, Next(c, t, a).batches);
      NextKeepsRows(c, t, a, |Rows(t.batches)|);
    }
  }

  lemma PrefixHasFewerRows(a: seq<Batch>, b: seq<Batch>)
    requires a <= b
    ensures |Rows(a)| <= |Rows(b)|
  {
    assert b == a + b[|a|..];
    RowsConcat(a, b[|a|..]);
  }

  // ---- what a page cut by too small a count loses ----

  /** The page covers the whole of the owner's page although it was cut at `r` rows. */
  predicate Reaches(r: nat, total: nat, offset: nat, limit: nat) {
    r == total || offset >= total || SatAdd(offset, Max(limit, 1)) <= r
  }

  lemma ShortPage(all: seq<Row>, r: nat, offset: nat, limit: nat)
    requires r <= |all| <= USIZE_MAX
    ensures PageOf(all, r, offset, limit).rows <= PageOf(all, |all|, offset, limit).rows
    ensures PageOf(all, r, offset, limit).rows == PageOf(all, |all|, offset, limit).rows <==> Reaches(r, |all|, offset, limit)
  {
    var step := SatAdd(offset, Max(limit, 1));
    if offset < r {
      assert all[offset..Min(step, |all|)][..Min(step, r) - offset] == all[offset..Min(step, r)];
    }
  }

  /** The read behind a page gives the owner's rows, and the count that cuts it is no larger than their number. */
  lemma CountIsNoLarger(c: Context, start: System, before: seq<Action>, between: seq<Action>, after: seq<Action>)
    requires Init(c, start)
    requires
      var second := Run(c, Run(c, start, before), between);
      RemoteRead(c, second, Run(c, second, after)).Ok?
    ensures
      var first := Run(c, start, before);
      var second := Run(c, first, between);
      var third := Run(c, second, after);
      && RemoteRead(c, second, third) == Ok(third.batches)
      && (Published(c, first) ==> Current(c, first).payload.status.rows <= |Rows(third.batches)|)
      && (Advertises(c, first) ==> Current(c, first).payload.status.rows == |Rows(third.batches)|)
  {
    var first := Run(c, start, before);
    var second := Run(c, first, between);
    var third := Run(c, second, after);
    RunKeepsRows(c, start, before);
    RunKeepsRows(c, first, between);
    RunKeepsRows(c, second, after);
    PrefixHasFewerRows(first.batches, third.batches);
    InitInv(c, start);
    ReachableInv(c, start, before);
    ReachableInv(c, first, between);
    ObjectStays(c, second, after);
    if Advertises(c, first) {
      ObjectStays(c, first, between);
    }
  }

  /**
    Over every run, a page served remotely is a prefix of the owner's page, and the same rows if and
    only if the row count in the status that was read first is the final one, or the page ends
    within that count, or it starts past the end. That count is final whenever that status already
    named the result.
  */
  lemma RemotePageIsExact(c: Context, start: System, before: seq<Action>, between: seq<Action>, after: seq<Action>, offset: nat, limit: nat)
    requires Init(c, start)
    requires
      var first := Run(c, start, before);
      var second := Run(c, first, between);
      var third := Run(c, second, after);
      RemotePage(c, first, second, third, offset, limit).Ok? && |Rows(third.batches)| <= USIZE_MAX
    ensures
      var first := Run(c, start, before);
      var second := Run(c, first, between);
      var third := Run(c, second, after);
      var all := Rows(third.batches);
      var page := RemotePage(c, first, second, third, offset, limit).value;
      && Published(c, first) && page.totalRows == Current(c, first).payload.status.rows <= |all|
      && page.rows <= PageOf(all, |all|, offset, limit).rows
      && (page.rows == PageOf(all, |all|, offset, limit).rows <==> Reaches(page.totalRows, |all|, offset, limit))
      && (Advertises(c, first) ==> page == PageOf(all, |all|, offset, limit))
  {
    CountIsNoLarger(c, start, before, between, after);
    var first := Run(c, start, before);
    var second := Run(c, first, between);
    PageFollows(c, first, second, Run(c, second, after), offset, limit);
  }

  lemma PageFollows(c: Context, first: System, second: System, third: System, offset: nat, limit: nat)
    requires RemotePage(c, first, second, third, offset, limit).Ok? && RemoteRead(c, second, third) == Ok(third.batches)
    requires Published(c, first) ==> Current(c, first).payload.status.rows <= |Rows(third.batches)| <= USIZE_MAX
    ensures
      var all := Rows(third.batches);
      var page := RemotePage(c, first, second, third, offset, limit).value;
      && Published(c, first) && page == PageOf(all, Current(c, first).payload.status.rows, offset, limit)
      && page.rows <= PageOf(all, |all|, offset, limit).rows
      && (page.rows == PageOf(all, |all|, offset, limit).rows <==> Reaches(page.totalRows, |all|, offset, limit))
  {
    ShortPage(Rows(third.batches), Current(c, first).payload.status.rows, offset, limit);
  }

  // A run in which the status is read too early: the query has produced nothing yet.
  const ROW := Batch(0, ["r"], 1)
  const STATUS := QueryStatus(Completed, 1, None)
  const COMPLETED := SharedQuery(STATUS, Some("k"), 1, 1)
  const EARLY := Scene(0, FIRST, LEASE_A, Polling(LEASE_A), map[])
  const LATE := Ready(Releasing(LEASE_A)).(
                  store := EARLY.store.(resources := map[("query", "q") := Stored(2, COMPLETED, SHARED_QUERY_TTL)]),
                  objects := map["k" := IpcFile([ROW])],
                  final := Some(Stored(2, COMPLETED, SHARED_QUERY_TTL)))

  function Ready(publisher: Publisher): System {
    EARLY.(publisher := publisher, local := Some((Completed, None)), batches := [ROW], done := true)
  }

  lemma OneRow()
    ensures Rows([ROW]) == ["r"]
  {
    assert [ROW] == [] + [ROW];
    RowsAppend([], ROW);
  }

  lemma EarlyIsReachable()
    ensures Run(Q, OPENING, [GO, GO, GO]) == EARLY
  {
    var s1 := Next(Q, OPENING, GO);
    assert s1.publisher == Fetching(First, SUBMITTED, LEASE_A);
    var s2 := Next(Q, s1, GO);
    assert s2.publisher == Writing(First, Stored(0, SUBMITTED, SHARED_QUERY_TTL), 0, LEASE_A);
    assert Next(Q, s2, GO) == EARLY;
    assert [GO, GO, GO] == [] + [GO] + [GO] + [GO];
    RunOnce(Q, OPENING, [], GO);
    RunOnce(Q, OPENING, [] + [GO], GO);
    RunOnce(Q, OPENING, [] + [GO] + [GO], GO);
  }

  lemma LateSteps()
    ensures
      var t4 := Next(Q, Next(Q, Next(Q, Next(Q, EARLY, Produce(ROW)), Finish(Completed, None)), GO), GO);
      Next(Q, Next(Q, Next(Q, t4, GO), GO), GO) == LATE
  {
    OneRow();
    var t2 := Next(Q, Next(Q, EARLY, Produce(ROW)), Finish(Completed, None));
    assert [] + [ROW] == [ROW];
    assert t2 == Ready(Polling(LEASE_A));
    assert Next(Q, t2, GO) == Ready(Reading(STATUS, LEASE_A));
    var t4 := Next(Q, Next(Q, t2, GO), GO);
    assert t4 == Ready(Uploading(STATUS, IpcFile([ROW]), LEASE_A));
    var t5 := Next(Q, t4, GO);
    assert t5.publisher == Fetching(Final, COMPLETED, LEASE_A);
    var t6 := Next(Q, t5, GO);
    assert t6.publisher == Writing(Final, Stored(0, COMPLETED, SHARED_QUERY_TTL), 1, LEASE_A);
  }

  lemma LateIsReachable() returns (after: seq<Action>)
    ensures Run(Q, EARLY, after) == LATE
  {
    LateSteps();
    after := [];
    RunOnce(Q, EARLY, after, Produce(ROW));
    after := after + [Produce(ROW)];
    RunOnce(Q, EARLY, after, Finish(Completed, None));
    after := after + [Finish(Completed, None)];
    RunOnce(Q, EARLY, after, GO);
    after := after + [GO];
    RunOnce(Q, EARLY, after, GO);
    after := after + [GO];
    RunOnce(Q, EARLY, after, GO);
    after := after + [GO];
    RunOnce(Q, EARLY, after, GO);
    after := after + [GO];
    RunOnce(Q, EARLY, after, GO);
    after := after + [GO];
  }

  /** So the page can be wrong: a status read too early yields an empty last page of a one-row result. */
  lemma EarlyStatusLosesRows() returns (before: seq<Action>, after: seq<Action>)
    ensures Init(Q, OPENING)
    ensures
      var first := Run(Q, OPENING, before);
      var second := Run(Q, first, after);
      RemotePage(Q, first, second, second, 0, 10) == Ok(RowPage([], 0, None)) && Rows(second.batches) == ["r"]
  {
    EarlyIsReachable();
    before := [GO, GO, GO];
    after := LateIsReachable();
    OneRow();
    assert Window([ROW], 0, None) == [ROW];
  }
}
