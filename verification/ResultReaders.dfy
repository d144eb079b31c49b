/** Reading a retained result batch by batch, whole or one partition at a time. */
module ResultReaders {
  import opened Basics
  import opened Outcomes
  import opened Batches

  /** The part of `source` a reader delivers: skip some batches, then at most `remaining`. */
  function Window(source: seq<Batch>, skip: nat, remaining: Option<nat>): seq<Batch> {
    var rest := if skip <= |source| then source[skip..] else [];
    if remaining.None? then rest else rest[..Min(remaining.value, |rest|)]
  }

  class ResultBatchReader {
    /** What the underlying iterator has not produced yet. */
    var source: seq<Batch>
    var skip: nat
    var remaining: Option<nat>

    ghost function Ahead(): seq<Batch>
      reads this
    {
      Window(source, skip, remaining)
    }

    constructor (source: seq<Batch>, skip: nat, remaining: Option<nat>)
      ensures Ahead() == Window(source, skip, remaining)
    {
      this.source, this.skip, this.remaining := source, skip, remaining;
    }

    /** Deliver the next batch of the window, or `None` when the window is exhausted. */
    method NextBatch() returns (batch: Option<Batch>)
      modifies this
      ensures batch.None? <==> old(Ahead()) == []
      ensures batch.None? ==> Ahead() == []
      ensures batch.Some? ==> old(Ahead()) == [batch.value] + Ahead()
      ensures |Ahead()| <= old(|Ahead()|)
    {
      while skip > 0
        invariant Ahead() == old(Ahead()) && remaining == old(remaining)
        decreases skip
      {
        if source == [] {
          return None;
        }
        source := source[1..];
        skip := skip - 1;
      }
      if remaining == Some(0) || source == [] {
        return None;
      }
      batch := Some(source[0]);
      source := source[1..];
      if remaining.Some? {
        remaining := Some(remaining.value - 1);
      }
    }

    /** Call `NextBatch` until it answers `None`. */
    method Drain() returns (batches: seq<Batch>)
      modifies this
      ensures batches == old(Ahead()) && Ahead() == []
    {
      batches := [];
      var next := NextBatch();
      while next.Some?
        invariant next.Some? ==> old(Ahead()) == batches + [next.value] + Ahead()
        invariant next.None? ==> old(Ahead()) == batches && Ahead() == []
        decreases next.Some?, |Ahead()|
      {
        batches := batches + [next.value];
        next := NextBatch();
      }
    }
  }

  // ---- partitions ----

  /** First batch of partition `p` out of `count`; the product saturates. */
  function Start(batches: nat, p: nat, count: nat): nat
    requires count > 0
  {
    SatMul(batches, p) / count
  }

  /** Adding `b` to a dividend moves the quotient by `b / d` or one more. */
  lemma QuotientStep(x: nat, b: nat, d: nat)
    requires d > 0
    ensures x / d + b / d <= (x + b) / d <= x / d + b / d + 1
  {
    DivMod(x, d);
    DivMod(b, d);
    QuotientOfSum(x / d, x % d, b / d, b % d, d);
  }

  lemma QuotientOfSum(q: nat, r: nat, q': nat, r': nat, d: nat)
    requires r < d && r' < d
    ensures q + q' <= (q * d + r + (q' * d + r')) / d <= q + q' + 1
  {
    assert (q + q') * d == q * d + q' * d;
    QuotientOf(q + q', r + r', d);
  }

  lemma QuotientOf(q: nat, r: nat, d: nat)
    requires d > 0 && r < 2 * d
    ensures (q * d + r) / d == if r < d then q else q + 1
  {
    var e := if r < d then q else q + 1;
    var rest := if r < d then r else r - d;
    assert q * d + r == e * d + rest by {
      assert (q + 1) * d == q * d + d;
    }
    DivideExactly(e, rest, d);
  }

  lemma DivideExactly(e: nat, rest: nat, d: nat)
    requires rest < d
    ensures (e * d + rest) / d == e
  {
    var y := e * d + rest;
    var k := y / d - e;
    assert k * d == rest - y % d by {
      assert y == (y / d) * d + y % d;
      assert (y / d - e) * d == (y / d) * d - e * d;
    }
  }

  lemma QuotientBelow(x: nat, a: nat, d: nat)
    requires d > 0 && x < a * d
    ensures x / d < a
  {
    assert (a - 1) * d + (d - 1) == a * d - 1;
    DivideExactly(a - 1, d - 1, d);
    QuotientMonotone(x, a * d - 1, d);
  }

  lemma QuotientMonotone(x: nat, y: nat, d: nat)
    requires d > 0 && x <= y
    ensures x / d <= y / d
  {
    QuotientStep(x, y - x, d);
  }

  /** Even where the product saturates, a partition never ends before it starts. */
  lemma PartitionNeverUnderflows(batches: nat, p: nat, count: nat)
    requires p < count
    ensures Start(batches, p, count) <= Start(batches, p + 1, count)
  {
    assert batches * (p + 1) == batches * p + batches;
    QuotientMonotone(SatMul(batches, p), SatMul(batches, p + 1), count);
  }

  /** Without overflow the sizes are the floor or the ceiling of batches / count: they differ by at most one. */
  lemma PartitionsAreBalanced(batches: nat, p: nat, count: nat)
    requires p < count && batches * count <= USIZE_MAX
    ensures batches / count <= Start(batches, p + 1, count) - Start(batches, p, count) <= batches / count + 1
  {
    assert batches * (p + 1) == batches * p + batches;
    assert batches * (p + 1) <= batches * count;
    QuotientStep(batches * p, batches, count);
  }

  /** With the advertised count, at most one endpoint per batch, no endpoint is empty unless the result is. */
  lemma AdvertisedPartitionIsNotEmpty(batches: nat, requested: nat, p: nat)
    requires p < Min(requested, Max(batches, 1)) && batches > 0 && batches * requested <= USIZE_MAX
    ensures var count := Min(requested, Max(batches, 1));
      Start(batches, p, count) < Start(batches, p + 1, count)
  {
    var count := Min(requested, Max(batches, 1));
    assert batches * count <= batches * requested;
    PartitionsAreBalanced(batches, p, count);
    QuotientMonotone(count, batches, count);
    DivideExactly(1, 0, count);
  }

  /** The window of partition `p`, as the partition reader is set up. */
  function Partition(source: seq<Batch>, p: nat, count: nat): seq<Batch>
    requires p < count
  {
    PartitionNeverUnderflows(|source|, p, count);
    var start := Start(|source|, p, count);
    Window(source, start, Some(Start(|source|, p + 1, count) - start))
  }

  /** The first `n` partitions, drained one after the other. */
  function Drained(source: seq<Batch>, n: nat, count: nat): seq<Batch>
    requires n <= count
  {
    if n == 0 then [] else Drained(source, n - 1, count) + Partition(source, n - 1, count)
  }

  lemma {:induction false} DrainedPrefix(source: seq<Batch>, n: nat, count: nat)
    requires n <= count && count > 0
    ensures Start(|source|, n, count) <= |source|
    ensures Drained(source, n, count) == source[..Start(|source|, n, count)]
  {
    StartWithin(|source|, n, count);
    if n > 0 {
      DrainedPrefix(source, n - 1, count);
      PartitionNeverUnderflows(|source|, n - 1, count);
      PartitionIsSlice(source, Start(|source|, n - 1, count), Start(|source|, n, count));
    } else {
      DivideExactly(0, 0, count);
    }
  }

  lemma PartitionIsSlice(source: seq<Batch>, start: nat, end: nat)
    requires start <= end <= |source|
    ensures source[..start] + Window(source, start, Some(end - start)) == source[..end]
  {
    assert source[start..][..end - start] == source[start..end];
  }

  lemma StartWithin(batches: nat, n: nat, count: nat)
    requires n <= count && count > 0
    ensures Start(batches, n, count) <= batches
  {
    assert batches * n <= batches * count;
    QuotientMonotone(SatMul(batches, n), batches * count, count);
    DivideExactly(batches, 0, count);
  }

  /**
    Draining every partition in order yields the whole result exactly when the
    number of batches times the number of partitions does not overflow.
  */
  lemma PartitionsTile(source: seq<Batch>, count: nat)
    requires count > 0
    ensures Drained(source, count, count) == source <==> |source| * count <= USIZE_MAX
  {
    DrainedPrefix(source, count, count);
    if |source| * count <= USIZE_MAX {
      DivideExactly(|source|, 0, count);
    } else {
      QuotientBelow(USIZE_MAX, |source|, count);
    }
  }

  /** Partition `p` of `count` of a retained result, drained by its own reader. */
  method ReadPartition(source: seq<Batch>, p: nat, count: nat) returns (r: Result<seq<Batch>, string>)
    ensures r.Err? <==> count == 0 || p >= count
    ensures r.Ok? ==> r.value == Partition(source, p, count)
  {
    if count == 0 || p >= count {
      return Err("invalid_result_partition");
    }
    PartitionNeverUnderflows(|source|, p, count);
    var start := SatMul(|source|, p) / count;
    var end := SatMul(|source|, p + 1) / count;
    var reader := new ResultBatchReader(source, start, Some(end - start));
    var batches := reader.Drain();
    return Ok(batches);
  }
}
