/** Record batches as the gateway sees them: a schema, rows and a memory size. */
module Batches {

  type Row = string

  datatype Batch = Batch(schema: nat, rows: seq<Row>, bytes: nat)

  /** The largest `usize` of a 64-bit target. */
  const USIZE_MAX: nat := 0xFFFF_FFFF_FFFF_FFFF

  function SatAdd(a: nat, b: nat): nat {
    if a + b <= USIZE_MAX then a + b else USIZE_MAX
  }

  function SatMul(a: nat, b: nat): nat {
    if a * b <= USIZE_MAX then a * b else USIZE_MAX
  }

  /** The rows of a batch list, in order. */
  function Rows(batches: seq<Batch>): seq<Row> {
    if batches == [] then [] else Rows(batches[..|batches| - 1]) + batches[|batches| - 1].rows
  }

  function Bytes(batches: seq<Batch>): nat {
    if batches == [] then 0 else Bytes(batches[..|batches| - 1]) + batches[|batches| - 1].bytes
  }

  lemma RowsAppend(batches: seq<Batch>, batch: Batch)
    ensures Rows(batches + [batch]) == Rows(batches) + batch.rows
    ensures Bytes(batches + [batch]) == Bytes(batches) + batch.bytes
  {
    assert (batches + [batch])[..|batches|] == batches;
  }

  lemma {:induction false} RowsConcat(a: seq<Batch>, b: seq<Batch>)
    ensures Rows(a + b) == Rows(a) + Rows(b)
  {
    if b == [] {
      assert a + b == a;
    } else {
      var n := |b| - 1;
      calc {
        Rows(a + b);
        { assert (a + b)[..|a + b| - 1] == a + b[..n]; }
        Rows(a + b[..n]) + b[n].rows;
        { RowsConcat(a, b[..n]); }
        Rows(a) + Rows(b[..n]) + b[n].rows;
        { assert Rows(b) == Rows(b[..n]) + b[n].rows; }
        Rows(a) + Rows(b);
      }
    }
  }
}
