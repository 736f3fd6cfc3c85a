/**
 * Python's range(start, stop, step), its clamped slice xs[lo:hi], and the
 * fixed-size chunking the script uses twice: for batch requests of 100 IDs
 * and for load chunks of 10000 rows.
 */
module Slicing {

  function Min(a: int, b: int): int { if a <= b then a else b }

  /** ceil(n / d) */
  function CeilDiv(n: nat, d: nat): nat
    requires d > 0
  {
    (n + d - 1) / d
  }

  /** Concatenation of a sequence of sequences, in order. */
  function Flatten<T>(ss: seq<seq<T>>): seq<T>
  {
    if ss == [] then [] else ss[0] + Flatten(ss[1..])
  }

  lemma {:induction false} FlattenAppend<T>(ss: seq<seq<T>>, s: seq<T>)
    ensures Flatten(ss + [s]) == Flatten(ss) + s
  {
    if ss == [] {
      assert [s][1..] == [];
    } else {
      assert (ss + [s])[1..] == ss[1..] + [s];
      FlattenAppend(ss[1..], s);
    }
  }

  /** Python's xs[lo:hi] for non-negative bounds: both ends are clamped to len(xs). */
  function Slice<T>(xs: seq<T>, lo: nat, hi: nat): (r: seq<T>)
    ensures |r| == if lo < hi && lo < |xs| then Min(hi, |xs|) - lo else 0
    ensures forall i :: 0 <= i < |r| ==> r[i] == xs[lo + i]
  {
    if lo < hi && lo < |xs| then xs[lo..Min(hi, |xs|)] else []
  }

  /** Python's list(range(start, stop, step)) for a positive step. */
  function Range(start: nat, stop: nat, step: nat): seq<nat>
    requires step > 0
    decreases stop - start
  {
    if start < stop then [start] + Range(start + step, stop, step) else []
  }

  lemma {:induction false} MulAtLeast(a: int, d: int)
    requires a >= 1 && d > 0
    ensures a * d >= d
  {
    if a > 1 {
      MulAtLeast(a - 1, d);
      assert a * d == (a - 1) * d + d;
    }
  }

  lemma DivUnique(x: int, d: int, q: int)
    requires d > 0 && q * d <= x < q * d + d
    ensures x / d == q
  {
    var q', r := x / d, x % d;
    assert x == q' * d + r && 0 <= r < d;
    if q' > q {
      MulAtLeast(q' - q, d);
    } else if q' < q {
      MulAtLeast(q - q', d);
    }
  }

  /** ceil(n / d) is the q with (q - 1) * d < n <= q * d. */
  lemma CeilDivBounds(n: nat, d: nat, q: nat)
    requires d > 0 && (q - 1) * d < n <= q * d
    ensures CeilDiv(n, d) == q
  {
    assert (q - 1) * d == q * d - d;
    DivUnique(n + d - 1, d, q);
  }

  /**
   * range(start, stop, step) holds start, start + step, ... below stop and
   * nothing else: ceil((stop - start) / step) elements, the first one that
   * would follow reaching stop.
   */
  lemma {:induction false} RangeShape(start: nat, stop: nat, step: nat)
    requires step > 0
    ensures |Range(start, stop, step)| == if start < stop then CeilDiv(stop - start, step) else 0
    ensures start < stop ==> start + |Range(start, stop, step)| * step >= stop
    ensures forall k :: 0 <= k < |Range(start, stop, step)| ==>
              Range(start, stop, step)[k] == start + k * step < stop
    decreases stop - start
  {
    var r := Range(start, stop, step);
    if start < stop {
      var rest := Range(start + step, stop, step);
      RangeShape(start + step, stop, step);
      assert r == [start] + rest;
      var n := |r|;
      assert n * step == |rest| * step + step;
      assert (n - 1) * step == |rest| * step;
      if start + step < stop {
        assert (|rest| - 1) * step < stop - start - step;
        assert (n - 1) * step < stop - start;
      } else {
        assert rest == [];
      }
      CeilDivBounds(stop - start, step, n);
      forall k | 0 <= k < n
        ensures r[k] == start + k * step < stop
      {
        if k > 0 {
          assert r[k] == rest[k - 1];
          assert (k - 1) * step + step == k * step;
        }
      }
    }
  }

  /**
   * [xs[i:i + size] for i in range(0, len(xs), size)]: consecutive slices of
   * at most size elements, none at all for an empty list.
   */
  function Chunked<T>(xs: seq<T>, size: nat): (r: seq<seq<T>>)
    requires size > 0
    ensures |r| == 0 <==> |xs| == 0
  {
    var starts := Range(0, |xs|, size);
    seq(|starts|, k requires 0 <= k < |starts| => Slice(xs, starts[k], starts[k] + size))
  }

  lemma {:induction false} ChunkedPrefix<T>(xs: seq<T>, size: nat, j: nat)
    requires size > 0
    requires j <= |Chunked(xs, size)|
    ensures Flatten(Chunked(xs, size)[..j]) == xs[..Min(j * size, |xs|)]
  {
    var c := Chunked(xs, size);
    if j == 0 {
      assert c[..0] == [];
    } else {
      var lo := (j - 1) * size;
      ChunkedPrefix(xs, size, j - 1);
      ChunkAt(xs, size, j - 1);
      MulStep(j, size);
      var hi := Min(lo + size, |xs|);
      assert c[..j] == c[..j - 1] + [c[j - 1]];
      FlattenAppend(c[..j - 1], c[j - 1]);
      assert xs[..lo] + xs[lo..hi] == xs[..hi];
    }
  }

  lemma MulStep(j: nat, size: nat)
    requires j > 0
    ensures j * size == (j - 1) * size + size
  {
  }

  lemma ChunkAt<T>(xs: seq<T>, size: nat, k: nat)
    requires size > 0
    requires k < |Chunked(xs, size)|
    ensures k * size < |xs| && Chunked(xs, size)[k] == xs[k * size..Min(k * size + size, |xs|)]
    ensures 0 < |Chunked(xs, size)[k]| <= size
  {
    var starts := Range(0, |xs|, size);
    RangeShape(0, |xs|, size);
    var lo := starts[k];
    assert lo == k * size < |xs|;
    assert Chunked(xs, size)[k] == Slice(xs, lo, lo + size);
  }

  /**
   * The chunks are ceil(len / size) non-empty slices of at most size
   * elements, chunk k starting at k * size, and together they give back xs.
   */
  lemma ChunkedShape<T>(xs: seq<T>, size: nat)
    requires size > 0
    ensures |Chunked(xs, size)| == CeilDiv(|xs|, size)
    ensures forall k :: 0 <= k < |Chunked(xs, size)| ==>
              k * size < |xs| &&
              Chunked(xs, size)[k] == xs[k * size..Min(k * size + size, |xs|)] &&
              0 < |Chunked(xs, size)[k]| <= size
    ensures Flatten(Chunked(xs, size)) == xs
  {
    var c := Chunked(xs, size);
    RangeShape(0, |xs|, size);
    if |xs| == 0 {
      assert CeilDiv(0, size) == 0;
    }
    forall k | 0 <= k < |c|
      ensures k * size < |xs| && c[k] == xs[k * size..Min(k * size + size, |xs|)] && 0 < |c[k]| <= size
    {
      ChunkAt(xs, size, k);
    }
    ChunkedPrefix(xs, size, |c|);
    assert c[..|c|] == c;
    if |c| > 0 {
      assert 0 + |c| * size >= |xs|;
    }
  }
}
