/**
 * Index arithmetic shared by the chunked (SIMD) multiply kernels.
 *
 * A kernel of lane width `lanes` splits a length `n` into `chunks` full
 * vector groups followed by `tail` single elements. This module states the
 * split, proves that every vector load/store stays inside `0..n`, and proves
 * that the sequence of output offsets the two loops store to, in program
 * order, is exactly `0, 1, ..., n-1`: each once, none skipped, none past `n`.
 */
module Chunking {

  /** Lane widths of the three vector kernels (f32 elements per register). */
  const SseLanes: nat := 4
  const Avx2Lanes: nat := 8
  const NeonLanes: nat := 4

  /** The chunk/tail decomposition of a length. */
  datatype Split = Split(chunks: nat, tail: nat)
  {
    /** First index handled by the scalar tail loop. */
    function Base(lanes: nat): nat {
      chunks * lanes
    }
  }

  /** `chunks = n / lanes` and `tail = n % lanes`; stated by what they mean. */
  function ChunkSplit(n: nat, lanes: nat): (s: Split)
    requires lanes > 0
    ensures s.chunks * lanes + s.tail == n
    ensures s.tail < lanes
  {
    Split(n / lanes, n % lanes)
  }

  /** The decomposition is the only one with a tail shorter than a lane group. */
  lemma SplitUnique(n: nat, lanes: nat, c: nat, t: nat)
    requires lanes > 0
    requires c * lanes + t == n
    requires t < lanes
    ensures ChunkSplit(n, lanes) == Split(c, t)
  {
    var s := ChunkSplit(n, lanes);
    if s.chunks < c {
      assert (s.chunks + 1) * lanes == s.chunks * lanes + lanes;
      MulMonotone(s.chunks + 1, c, lanes);
      assert false;
    } else if c < s.chunks {
      assert (c + 1) * lanes == c * lanes + lanes;
      MulMonotone(c + 1, s.chunks, lanes);
      assert false;
    }
  }

  lemma MulMonotone(x: nat, y: nat, m: nat)
    requires x <= y
    ensures x * m <= y * m
  {
  }

  /** Every chunk iteration k < chunks loads and stores `lanes` elements at
      `k * lanes`, and those all lie inside the buffers of length n. */
  lemma ChunkInBounds(n: nat, lanes: nat, k: nat)
    requires lanes > 0
    requires k < ChunkSplit(n, lanes).chunks
    ensures k * lanes + lanes <= ChunkSplit(n, lanes).Base(lanes)
    ensures ChunkSplit(n, lanes).Base(lanes) <= n
  {
    var s := ChunkSplit(n, lanes);
    MulMonotone(k + 1, s.chunks, lanes);
    assert (k + 1) * lanes == k * lanes + lanes;
  }

  /** The indices `lo, lo + 1, ..., lo + len - 1`. */
  function Span(lo: nat, len: nat): (s: seq<nat>)
    ensures |s| == len
  {
    seq(len, j requires 0 <= j < len => lo + j)
  }

  /** Output indices stored by the first k iterations of the chunk loop,
      one unaligned `lanes`-wide store per iteration, in order. */
  function ChunkStores(k: nat, lanes: nat): seq<nat>
  {
    if k == 0 then [] else ChunkStores(k - 1, lanes) + Span((k - 1) * lanes, lanes)
  }

  /** Output indices stored by the first i iterations of the tail loop. */
  function TailStores(base: nat, i: nat): seq<nat>
  {
    if i == 0 then [] else TailStores(base, i - 1) + [base + i - 1]
  }

  /** Every output index a kernel of width `lanes` stores to, in program order. */
  function StoreTrace(n: nat, lanes: nat): seq<nat>
    requires lanes > 0
  {
    var s := ChunkSplit(n, lanes);
    ChunkStores(s.chunks, lanes) + TailStores(s.Base(lanes), s.tail)
  }

  lemma {:induction false} ChunkStoresSpan(k: nat, lanes: nat)
    ensures ChunkStores(k, lanes) == Span(0, k * lanes)
  {
    if k > 0 {
      ChunkStoresSpan(k - 1, lanes);
      assert k * lanes == (k - 1) * lanes + lanes;
      var left := Span(0, (k - 1) * lanes);
      var right := Span((k - 1) * lanes, lanes);
      assert left + right == Span(0, k * lanes);
    }
  }

  lemma {:induction false} TailStoresSpan(base: nat, i: nat)
    ensures TailStores(base, i) == Span(base, i)
  {
    if i > 0 {
      TailStoresSpan(base, i - 1);
      assert Span(base, i - 1) + [base + i - 1] == Span(base, i);
    }
  }

  /** The chunk loop followed by the tail loop stores to 0, 1, ..., n-1 in order. */
  lemma StoreTraceExact(n: nat, lanes: nat)
    requires lanes > 0
    ensures StoreTrace(n, lanes) == Span(0, n)
  {
    var s := ChunkSplit(n, lanes);
    ChunkStoresSpan(s.chunks, lanes);
    TailStoresSpan(s.Base(lanes), s.tail);
    assert Span(0, s.Base(lanes)) + Span(s.Base(lanes), s.tail) == Span(0, n);
  }

  /** No store goes past n, every index below n is stored, and none twice. */
  lemma StoresExactlyOnce(n: nat, lanes: nat)
    requires lanes > 0
    ensures |StoreTrace(n, lanes)| == n
    ensures forall p :: 0 <= p < |StoreTrace(n, lanes)| ==> StoreTrace(n, lanes)[p] < n
    ensures forall i :: 0 <= i < n ==> i in StoreTrace(n, lanes)
    ensures forall p, q :: 0 <= p < q < |StoreTrace(n, lanes)| ==> StoreTrace(n, lanes)[p] != StoreTrace(n, lanes)[q]
  {
    StoreTraceExact(n, lanes);
    var t := StoreTrace(n, lanes);
    forall i | 0 <= i < n
      ensures i in t
    {
      assert t[i] == i;
    }
  }
}
