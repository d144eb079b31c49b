/** Cutting row pages out of a retained result, from memory or from the spill file. */
module Paging {
  import opened Basics
  import opened Outcomes
  import opened Batches
  import opened PageTokens

  function Slice(batch: Batch, offset: nat, length: nat): Batch
    requires offset + length <= |batch.rows|
  {
    batch.(rows := batch.rows[offset..offset + length])
  }

  /** The rows numbered `start` up to `end`, as far as they exist. */
  function Clip<T>(rows: seq<T>, start: nat, end: nat): seq<T> {
    var high := Min(end, |rows|);
    if start < high then rows[start..high] else []
  }

  /** What one batch, whose first row has number `cursor`, contributes to a page. */
  function Overlap(batch: Batch, cursor: nat, start: nat, end: nat): seq<Batch> {
    var low, high := Max(start, cursor), Min(end, cursor + |batch.rows|);
    if low < high then [Slice(batch, low - cursor, high - low)] else []
  }

  function Less(a: nat, b: nat): nat {
    if a < b then 0 else a - b
  }

  lemma ClipConcat<T>(a: seq<T>, b: seq<T>, start: nat, end: nat)
    ensures Clip(a + b, start, end) == Clip(a, start, end) + Clip(b, Less(start, |a|), Less(end, |a|))
  {
    if start >= Min(end, |a + b|) || Min(end, |a + b|) <= |a| {
      assert Clip(b, Less(start, |a|), Less(end, |a|)) == [];
    } else if start >= |a| {
      var high := Min(end, |a + b|);
      assert Clip(a, start, end) == [];
      assert (a + b)[start..high] == b[start - |a|..high - |a|];
    } else {
      assert (a + b)[start..Min(end, |a + b|)] == a[start..] + b[..Min(end, |a + b|) - |a|];
    }
  }

  lemma OverlapRows(batch: Batch, cursor: nat, start: nat, end: nat)
    ensures Rows(Overlap(batch, cursor, start, end)) == Clip(batch.rows, Less(start, cursor), Less(end, cursor))
  {
    var overlap := Overlap(batch, cursor, start, end);
    if overlap != [] {
      RowsOfOne(overlap[0]);
    }
  }

  lemma RowsOfOne(batch: Batch)
    ensures Rows([batch]) == batch.rows
  {
    assert [batch] == [] + [batch];
    RowsAppend([], batch);
  }

  /** One step of the page loop. */
  lemma PageStep(batches: seq<Batch>, i: nat, output: seq<Batch>, start: nat, end: nat)
    requires i < |batches| && Rows(output) == Clip(Rows(batches[..i]), start, end)
    ensures
      var more := Overlap(batches[i], |Rows(batches[..i])|, start, end);
      Rows(output + more) == Clip(Rows(batches[..i + 1]), start, end)
    ensures |Rows(batches[..i + 1])| == |Rows(batches[..i])| + |batches[i].rows|
  {
    assert batches[..i + 1] == batches[..i] + [batches[i]];
    RowsAppend(batches[..i], batches[i]);
    ClipConcat(Rows(batches[..i]), batches[i].rows, start, end);
    OverlapRows(batches[i], |Rows(batches[..i])|, start, end);
    RowsConcat(output, Overlap(batches[i], |Rows(batches[..i])|, start, end));
  }

  /** Rows past the end of the page do not matter. */
  lemma PageComplete(batches: seq<Batch>, i: nat, start: nat, end: nat)
    requires i <= |batches| && (i == |batches| || |Rows(batches[..i])| >= end)
    ensures Clip(Rows(batches), start, end) == Clip(Rows(batches[..i]), start, end)
  {
    RowsConcat(batches[..i], batches[i..]);
    assert batches == batches[..i] + batches[i..];
  }

  method SliceBatches(batches: seq<Batch>, start: nat, end: nat) returns (output: seq<Batch>)
    ensures Rows(output) == Clip(Rows(batches), start, end)
    ensures forall b :: b in output ==> b.rows != []
  {
    var cursor := 0;
    output := [];
    for i := 0 to |batches|
      invariant cursor == |Rows(batches[..i])|
      invariant Rows(output) == Clip(Rows(batches[..i]), start, end)
      invariant forall b :: b in output ==> b.rows != []
    {
      PageStep(batches, i, output, start, end);
      output := output + Overlap(batches[i], cursor, start, end);
      cursor := cursor + |batches[i].rows|;
      if cursor >= end {
        PageComplete(batches, i + 1, start, end);
        return;
      }
    }
    PageComplete(batches, |batches|, start, end);
  }

  datatype ResultSource = MemorySource(batches: seq<Batch>) | SpillSource(file: seq<Batch>)

  function Held(source: ResultSource): seq<Batch> {
    if source.MemorySource? then source.batches else source.file
  }

  /** The spill path walks the file in the same way, so both paths give the same rows. */
  method LoadPage(source: ResultSource, start: nat, end: nat) returns (output: seq<Batch>)
    ensures Rows(output) == Clip(Rows(Held(source)), start, end)
  {
    match source {
      case MemorySource(batches) =>
        output := SliceBatches(batches, start, end);
      case SpillSource(file) =>
        var cursor, reader := 0, file;
        output := [];
        while reader != []
          invariant |reader| <= |file| && reader == file[|file| - |reader|..]
          invariant cursor == |Rows(file[..|file| - |reader|])|
          invariant Rows(output) == Clip(Rows(file[..|file| - |reader|]), start, end)
          decreases |reader|
        {
          ghost var i := |file| - |reader|;
          var batch := reader[0];
          reader := reader[1..];
          PageStep(file, i, output, start, end);
          output := output + Overlap(batch, cursor, start, end);
          cursor := cursor + |batch.rows|;
          if cursor >= end {
            PageComplete(file, i + 1, start, end);
            return;
          }
        }
        PageComplete(file, |file|, start, end);
    }
  }

  datatype Page = Page(batches: seq<Batch>, totalRows: nat, nextOffset: Option<nat>)

  /** One page: as many rows as asked for, at least one, as far as there are any, and the next offset exactly when rows remain. */
  method ResultPage(source: ResultSource, rows: nat, offset: nat, limit: nat) returns (page: Page)
    requires rows == |Rows(Held(source))| <= USIZE_MAX
    ensures page.totalRows == rows
    ensures
      var start := Min(offset, rows);
      var end := if page.nextOffset.Some? then page.nextOffset.value else rows;
      && start <= end <= rows && Rows(page.batches) == Rows(Held(source))[start..end]
      && end - start == Min(Max(limit, 1), rows - start)
      && (page.nextOffset.Some? ==> start < end < rows)
  {
    var start := Min(offset, rows);
    var end := Min(SatAdd(start, Max(limit, 1)), rows);
    var batches := LoadPage(source, start, end);
    page := Page(batches, rows, if end < rows then Some(end) else None);
  }

  /**
    A client follows the page tokens from the start, choosing any limit for every
    request; it ends, having received every row once and in order.
  */
  method FollowPages(source: ResultSource, secret: nat, maxPageRows: nat) returns (received: seq<Row>)
    requires |Rows(Held(source))| <= U64_MAX && secret <= U64_MAX && maxPageRows >= 1
    ensures received == Rows(Held(source))
  {
    var rows := CountRows(Held(source));
    received := [];
    var token: Option<Base64> := None;
    var more := true;
    ghost var at: nat := 0;
    while more
      invariant at <= rows == |Rows(Held(source))| && (at < rows || at == 0 || !more)
      invariant received == Rows(Held(source))[..at]
      invariant more ==> token == if at == 0 then None else Some(EncodePageToken(at, secret))
      invariant !more ==> at == rows
      decreases more, rows - at
    {
      var offset := 0;
      if token.Some? {
        PageTokenRoundTrip(at, secret, secret);
        var decoded := DecodePageToken(token.value, secret);
        offset := decoded.value;
      }
      var asked: nat := *;
      var limit := Min(Max(asked, 1), maxPageRows);
      var page := ResultPage(source, rows, offset, limit);
      received := received + Rows(page.batches);
      if page.nextOffset.Some? {
        token := Some(EncodePageToken(page.nextOffset.value, secret));
        at := page.nextOffset.value;
      } else {
        more := false;
        at := rows;
      }
    }
  }

  method CountRows(batches: seq<Batch>) returns (rows: nat)
    ensures rows == |Rows(batches)|
  {
    rows := 0;
    for i := 0 to |batches|
      invariant rows == |Rows(batches[..i])|
    {
      assert batches[..i + 1] == batches[..i] + [batches[i]];
      RowsAppend(batches[..i], batches[i]);
      rows := rows + |batches[i].rows|;
    }
    assert batches[..|batches|] == batches;
  }
}
