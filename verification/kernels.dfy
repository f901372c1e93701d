/**
 * The element-wise multiply kernels of the benchmark utilities.
 *
 * Elements are of an abstract type `F` standing for `f32`; the hardware
 * multiply is the parameter `mul`, used both for a scalar `a[i] * b[i]` and
 * for each lane of a vector multiply instruction (which performs the same
 * operation per lane). `zero` is the value the output buffer is filled with
 * before the kernels write it.
 *
 * Input slices are sequences, so no kernel can modify them; each kernel
 * builds a fresh output and returns it as a sequence.
 */
module Kernels {
  import opened Chunking

  /** What a kernel call produces: its output vector, or the panic of
      `assert_eq!(a.len(), b.len())` carrying the two lengths. */
  datatype Outcome<F> = Output(values: seq<F>) | AssertionFailed(left: nat, right: nat)

  /** The reference meaning of every kernel: element i is `a[i] * b[i]`.
      One vector multiply instruction is this function on `lanes`-long operands. */
  function Product<F>(mul: (F, F) -> F, a: seq<F>, b: seq<F>): (r: seq<F>)
    requires |a| == |b|
    ensures |r| == |a|
    ensures forall i :: 0 <= i < |r| ==> r[i] == mul(a[i], b[i])
  {
    seq(|a|, i requires 0 <= i < |a| => mul(a[i], b[i]))
  }

  /** An unaligned vector load of `lanes` elements starting at `idx`. */
  function LoadU<F>(s: seq<F>, idx: nat, lanes: nat): (v: seq<F>)
    requires idx + lanes <= |s|
    ensures |v| == lanes
    ensures forall j :: 0 <= j < lanes ==> v[j] == s[idx + j]
  {
    s[idx..idx + lanes]
  }

  /** A store of `v` into `out` at `idx`: an unaligned vector store when `v`
      has `lanes` elements, a scalar element write when it has one. The ghost
      `log` of written indices is extended with exactly the indices touched. */
  method StoreU<F>(out: array<F>, idx: nat, v: seq<F>, ghost log: seq<nat>)
    returns (ghost log': seq<nat>)
    requires idx + |v| <= out.Length
    modifies out
    ensures forall j :: 0 <= j < |v| ==> out[idx + j] == v[j]
    ensures forall i :: 0 <= i < out.Length && !(idx <= i < idx + |v|) ==> out[i] == old(out[i])
    ensures log' == log + Span(idx, |v|)
  {
    forall j | 0 <= j < |v| {
      out[idx + j] := v[j];
    }
    log' := log + Span(idx, |v|);
  }

  /** `scalar_mul`: check the lengths, then push `a[i] * b[i]` for each i. */
  method ScalarMul<F>(mul: (F, F) -> F, a: seq<F>, b: seq<F>) returns (r: Outcome<F>)
    ensures |a| != |b| ==> r == AssertionFailed(|a|, |b|)
    ensures |a| == |b| ==> r == Output(Product(mul, a, b))
    ensures |a| == 0 && |b| == 0 ==> r == Output([])
  {
    if |a| != |b| {
      return AssertionFailed(|a|, |b|);
    }
    var out: seq<F> := [];
    for i := 0 to |a|
      invariant |out| == i
      invariant forall j :: 0 <= j < i ==> out[j] == mul(a[j], b[j])
    {
      out := out + [mul(a[i], b[i])];
    }
    return Output(out);
  }

  /**
   * The algorithm shared by `sse_mul`, `avx2_mul` and `neon_mul`, for lane
   * width `lanes`: zero-fill the output, run `n / lanes` vector iterations
   * (load, lane-wise multiply, store at `k * lanes`), then multiply the
   * `n % lanes` leftover elements one at a time from `base = chunks * lanes`.
   * Every write to the output goes through `StoreU`, so the ghost `stores`
   * lists, in order, every output index written.
   */
  method ChunkedMul<F>(mul: (F, F) -> F, zero: F, lanes: nat, a: seq<F>, b: seq<F>)
    returns (r: Outcome<F>, ghost stores: seq<nat>)
    requires lanes > 0
    ensures |a| != |b| ==> r == AssertionFailed(|a|, |b|) && stores == []
    ensures |a| == |b| ==> r == Output(Product(mul, a, b))
    ensures |a| == 0 && |b| == 0 ==> r == Output([])
    ensures r.Output? ==> stores == StoreTrace(|a|, lanes)
  {
    if |a| != |b| {
      return AssertionFailed(|a|, |b|), [];
    }
    var n := |a|;
    var out := new F[n](_ => zero);
    var split := ChunkSplit(n, lanes);
    var chunks, tail := split.chunks, split.tail;
    stores := [];

    var k := 0;
    var done := 0;
    while k < chunks
      invariant 0 <= k <= chunks
      invariant done == k * lanes && done <= n
      invariant forall i :: 0 <= i < done ==> out[i] == mul(a[i], b[i])
      invariant forall i :: done <= i < n ==> out[i] == zero
      invariant stores == ChunkStores(k, lanes)
    {
      var idx := k * lanes;
      ChunkInBounds(n, lanes, k);
      var va := LoadU(a, idx, lanes);
      var vb := LoadU(b, idx, lanes);
      var vc := Product(mul, va, vb);
      stores := StoreU(out, idx, vc, stores);
      forall i | idx <= i < idx + lanes
        ensures out[i] == mul(a[i], b[i])
      {
        assert out[idx + (i - idx)] == vc[i - idx];
      }
      assert (k + 1) * lanes == idx + lanes;
      k := k + 1;
      done := idx + lanes;
    }

    var base := chunks * lanes;
    assert base == done;
    for i := 0 to tail
      invariant forall j :: 0 <= j < base + i ==> out[j] == mul(a[j], b[j])
      invariant forall j :: base + i <= j < n ==> out[j] == zero
      invariant stores == ChunkStores(chunks, lanes) + TailStores(base, i)
    {
      var v := [mul(a[base + i], b[base + i])];
      stores := StoreU(out, base + i, v, stores);
      assert out[base + i] == v[0];
      assert Span(base + i, 1) == [base + i];
    }
    r := Output(out[..]);
  }

  /** `sse_mul`: the chunked kernel with 128-bit registers of four f32 lanes. */
  method SseMul<F>(mul: (F, F) -> F, zero: F, a: seq<F>, b: seq<F>)
    returns (r: Outcome<F>, ghost stores: seq<nat>)
    ensures |a| != |b| ==> r == AssertionFailed(|a|, |b|) && stores == []
    ensures |a| == |b| ==> r == Output(Product(mul, a, b))
    ensures r.Output? ==> stores == StoreTrace(|a|, SseLanes)
  {
    r, stores := ChunkedMul(mul, zero, SseLanes, a, b);
  }

  /** `avx2_mul`: the chunked kernel with 256-bit registers of eight f32 lanes. */
  method Avx2Mul<F>(mul: (F, F) -> F, zero: F, a: seq<F>, b: seq<F>)
    returns (r: Outcome<F>, ghost stores: seq<nat>)
    ensures |a| != |b| ==> r == AssertionFailed(|a|, |b|) && stores == []
    ensures |a| == |b| ==> r == Output(Product(mul, a, b))
    ensures r.Output? ==> stores == StoreTrace(|a|, Avx2Lanes)
  {
    r, stores := ChunkedMul(mul, zero, Avx2Lanes, a, b);
  }

  /** `neon_mul`: the chunked kernel with 128-bit NEON registers of four f32 lanes. */
  method NeonMul<F>(mul: (F, F) -> F, zero: F, a: seq<F>, b: seq<F>)
    returns (r: Outcome<F>, ghost stores: seq<nat>)
    ensures |a| != |b| ==> r == AssertionFailed(|a|, |b|) && stores == []
    ensures |a| == |b| ==> r == Output(Product(mul, a, b))
    ensures r.Output? ==> stores == StoreTrace(|a|, NeonLanes)
  {
    r, stores := ChunkedMul(mul, zero, NeonLanes, a, b);
  }

  /** `gen_input`, reduced to its shape: two vectors of the requested length
      whose element i is given by the per-index formulas `fa` and `fb`. */
  function GenInput<F>(len: nat, fa: nat -> F, fb: nat -> F): (r: (seq<F>, seq<F>))
    ensures |r.0| == len && |r.1| == len
    ensures forall i :: 0 <= i < len ==> r.0[i] == fa(i) && r.1[i] == fb(i)
  {
    (seq(len, i requires 0 <= i => fa(i)), seq(len, i requires 0 <= i => fb(i)))
  }
}
