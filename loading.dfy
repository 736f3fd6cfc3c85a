/**
 * The loader: the reshaped rows are appended to the warehouse table in
 * slices of at most 10000 rows, delimited by the boundary list
 * range(0, len, 10000) + [len].
 */
module Loading {
  import opened Slicing

  const ChunkSize: nat := 10000

  /** `[x for x in range(0, m, chunk_size)] + [m]`: from 0 to m. */
  function Boundaries(m: nat): (b: seq<nat>)
    ensures |b| > 0 && b[0] == 0 && b[|b| - 1] == m
  {
    Range(0, m, ChunkSize) + [m]
  }

  /**
   * The boundaries start at 0 and end at m; there are ceil(m / 10000) + 1 of
   * them, boundary k is k * 10000 and the next one is 10000 further on or m,
   * whichever comes first, so consecutive boundaries delimit non-empty
   * slices of at most 10000 rows. For m == 0 the list is [0] and no slice is
   * written.
   */
  lemma BoundariesShape(m: nat)
    ensures |Boundaries(m)| == CeilDiv(m, ChunkSize) + 1
    ensures Boundaries(m)[0] == 0 && Boundaries(m)[|Boundaries(m)| - 1] == m
    ensures forall k :: 0 <= k < |Boundaries(m)| - 1 ==>
              && Boundaries(m)[k] == k * ChunkSize
              && Boundaries(m)[k + 1] == Min(k * ChunkSize + ChunkSize, m)
              && Boundaries(m)[k] < Boundaries(m)[k + 1] <= Boundaries(m)[k] + ChunkSize
  {
    var r := Range(0, m, ChunkSize);
    var b := Boundaries(m);
    RangeShape(0, m, ChunkSize);
    if m == 0 {
      assert CeilDiv(0, ChunkSize) == 0;
    }
    forall k | 0 <= k < |b| - 1
      ensures b[k] == k * ChunkSize
      ensures b[k + 1] == Min(k * ChunkSize + ChunkSize, m)
    {
      assert b[k] == r[k];
      if k + 1 < |r| {
        assert b[k + 1] == r[k + 1];
      }
    }
  }

  /** Consecutive boundaries delimit exactly the chunks of the rows. */
  lemma SliceBetween<T>(rows: seq<T>, k: nat)
    requires k < |Boundaries(|rows|)| - 1
    ensures Slice(rows, Boundaries(|rows|)[k], Boundaries(|rows|)[k + 1]) == Chunked(rows, ChunkSize)[k]
  {
    BoundariesShape(|rows|);
    ChunkedShape(rows, ChunkSize);
  }

  /**
   * The load loop: `update_df[chunks[i]:chunks[i + 1]].to_sql(...,
   * if_exists='append')` for each pair of consecutive boundaries. The
   * writes are the ceil(len / 10000) consecutive chunks of the rows, each
   * non-empty and at most 10000 rows long, and the table ends up holding
   * its old rows followed by all the new ones, in order.
   */
  method Load<T>(table: seq<T>, rows: seq<T>) returns (loaded: seq<T>, writes: seq<seq<T>>)
    ensures writes == Chunked(rows, ChunkSize)
    ensures |writes| == CeilDiv(|rows|, ChunkSize)
    ensures forall k :: 0 <= k < |writes| ==> 0 < |writes[k]| <= ChunkSize
    ensures Flatten(writes) == rows
    ensures loaded == table + rows
  {
    var chunks := Boundaries(|rows|);
    ghost var parts := Chunked(rows, ChunkSize);
    loaded := table;
    writes := [];
    var i := 0;
    assert table + [] == table;
    while i < |chunks| - 1
      invariant 0 <= i <= |chunks| - 1 == |parts|
      invariant writes == parts[..i]
      invariant loaded == table + Flatten(writes)
    {
      var part := Slice(rows, chunks[i], chunks[i + 1]);
      SliceBetween(rows, i);
      FlattenAppend(writes, part);
      assert parts[..i + 1] == parts[..i] + [part];
      writes := writes + [part];
      loaded := loaded + part;
      i := i + 1;
    }
    assert writes == parts;
    ChunkedShape(rows, ChunkSize);
  }
}
