# Element-wise multiply kernels: a Dafny model

This project models the kernel family in `benches/util.rs` of the quantx-ml
benchmarks. The family has one scalar reference kernel and three SIMD kernels,
all computing the element-wise product of two equal-length `f32` vectors:

- `scalar_mul` checks that the lengths are equal and pushes `a[i] * b[i]` for every index.
- `sse_mul` (4 lanes), `avx2_mul` (8 lanes) and `neon_mul` (4 lanes) share one algorithm. Each checks the lengths and zero-fills an output of length `n`. It splits `n` into `chunks = n / L` full vector groups and `tail = n % L` leftovers. It runs one unaligned load/multiply/store per group at offset `k * L`. Then it multiplies the leftovers one at a time from `base = chunks * L`.

Two modules:

- `Chunking` (`chunking.dfy`) covers the index arithmetic. It states the chunk/tail split and proves that every vector access stays inside the buffers. It also defines `StoreTrace`, the sequence of output offsets that the vector loop followed by the tail loop stores to. It proves that this sequence is exactly `0, 1, ..., n-1` in order: each offset once, none skipped, none past `n`.
- `Kernels` (`kernels.dfy`) holds the kernels themselves. `ChunkedMul` is the shared algorithm for any lane width `L > 0`, written with an output array and loop invariants. Every write it makes to the output goes through one store step, `StoreU`. That step writes the values and appends the offsets it touched to a ghost log of stores. `ChunkedMul` proves that this log equals `StoreTrace(n, L)`. `SseMul`, `Avx2Mul` and `NeonMul` instantiate it at `L = 4, 8, 4`. `ScalarMul` is the oracle. Every kernel is proved to return exactly `Product(mul, a, b)`, the sequence whose element `i` is `mul(a[i], b[i])`. So each SIMD kernel returns what `scalar_mul` returns, for every length, including lengths not divisible by `L` and the empty input.

Elements are an abstract type `F` that stands for `f32`. The multiply is a parameter `mul: (F, F) -> F`. It is used both for a scalar `*` and for each lane of a vector multiply instruction, because the vector instructions perform the same per-lane operation. One vector instruction is modelled as `Product` applied to two `L`-element loads (`LoadU`), then an `L`-wide simultaneous store (`StoreU`). The zero used to fill the output is a parameter `zero: F`. Input slices are Dafny sequences, so the kernels cannot modify them.

The `assert_eq!(a.len(), b.len())` at the top of each kernel is modelled as an outcome rather than a precondition. On unequal lengths every kernel returns `AssertionFailed(left, right)`, never a truncated or padded output. On equal lengths it returns `Output(values)`.

## Model

| member | source | states |
|---|---|---|
| Kernels.ScalarMul | benches/util.rs:1-8 | Unequal lengths give the assertion failure with both lengths. Equal lengths give an output of length n whose element i is `a[i] * b[i]`. Empty inputs give an empty output. |
| Kernels.ChunkedMul | benches/util.rs:18-40 | For any lane width, the chunk loop plus the tail loop returns exactly the element-wise product, which is what the scalar kernel returns. Unequal lengths give the assertion failure, and nothing is logged as stored. The ghost log built by its `StoreU` calls equals `StoreTrace` of the chunk/tail split. |
| Kernels.SseMul | benches/util.rs:18-40 | The 4-lane SSE kernel equals the scalar kernel on every pair of inputs. Its store log follows the 4-lane split, and it is empty on the assertion failure. |
| Kernels.Avx2Mul | benches/util.rs:44-66 | The 8-lane AVX2 kernel equals the scalar kernel on every pair of inputs. Its store log follows the 8-lane split, and it is empty on the assertion failure. |
| Kernels.NeonMul | benches/util.rs:70-93 | The 4-lane NEON kernel equals the scalar kernel on every pair of inputs. Its store log follows the 4-lane split, and it is empty on the assertion failure. |
| Kernels.Product | benches/util.rs:32 | The reference definition that every kernel contract is stated against: element i is `mul(a[i], b[i])`. It also models one lane-wise vector multiply (`_mm_mul_ps` here; `_mm256_mul_ps` at line 58 and `vmulq_f32` at line 84). This is a definition, not a proved property. |
| Kernels.StoreU | benches/util.rs:33 | An unaligned vector store (`_mm_storeu_ps` here; also lines 59 and 85), or the scalar write of the tail loop (line 37) when given one element. It may only be issued when `idx + len` fits in the output. It writes lane j to `idx + j`, leaves every other element unchanged, and logs exactly the offsets `idx .. idx + len`. |
| Kernels.LoadU | benches/util.rs:30-31 | An unaligned vector load may only be issued when `idx + L` is within the slice. Lane j of the loaded vector is element `idx + j`. |
| Kernels.GenInput | benches/util.rs:10-13 | Both generated vectors have the requested length, so they always pass the kernels' length assertion. Element i comes from the per-index formula. |
| Chunking.ChunkSplit | benches/util.rs:25-26 | `chunks * L + tail == n` and `tail < L`. So the tail loop, starting at `base = chunks * L`, ends exactly at n and handles fewer than L elements. |
| Chunking.SplitUnique | benches/util.rs:25-26 | Any `(c, t)` with `c * L + t == n` and `t < L` is the split, so `chunks` and `tail` are determined by the length alone. |
| Chunking.ChunkInBounds | benches/util.rs:28-34 | For every iteration `k < chunks`, the vector access at `idx = k * L` ends at or before `base = chunks * L`, which is at most n. |
| Chunking.ChunkStoresSpan | benches/util.rs:28-34 | The store offsets of the first k vector iterations are exactly `0 .. k * L`, in order. |
| Chunking.TailStoresSpan | benches/util.rs:36-38 | The store offsets of the first i tail iterations are exactly `base .. base + i`, in order. |
| Chunking.StoreTraceExact | benches/util.rs:25-38 | The store offsets of the chunk loop followed by the tail loop are `0, 1, ..., n-1`, in that order. |
| Chunking.StoresExactlyOnce | benches/util.rs:23-38 | In the store offsets of the two loops, no offset is at or past n, every index below n appears, and none appears twice. |

## Left out

- IEEE-754 single-precision arithmetic. This includes rounding and the claim that a SIMD lane multiply is bit-identical to the scalar `*`. Both are modelled by the same abstract `mul`, so that identity is an assumption of the model, not a result.
- The concrete values of `gen_input` (`8.1239412 + i * 0.001` and `9.0003 + i * 0.002` in `f32`). They are floating-point formulas. `GenInput` takes them as per-index functions and states only the shape of its result.
- The intrinsics (`_mm_loadu_ps`, `_mm256_mul_ps`, `vst1q_f32`, …) and the raw-pointer arithmetic. They are foreign calls. They appear only as `LoadU`, a lane-wise `Product` and `StoreU`, an `L`-wide simultaneous array store at `idx .. idx + L`.
- Target selection: `#[cfg(target_arch)]`, `#[target_feature(enable = "avx2")]` and the runtime `is_x86_feature_detected!` check in `benches/math_ops.rs`. These are build and hardware-capability plumbing, and no kernel result depends on them.
- `benches/math_ops.rs`, the criterion benchmark driver and the polars baselines. They orchestrate timing over external libraries.
- `examples/test.rs`. It only sets up logging.
- Kernels.ChunkedMul: the ghost store log records the writes made through `StoreU`, and `ChunkedMul` makes all its output writes that way. Dafny does not forbid a direct array write outside `StoreU`, though. So "each index written exactly once" rests on that structure of the body, which the verifier does not check. The verified part is that the `StoreU` writes cover `0 .. n` once each and produce the scalar result.
- `usize` overflow. None can occur: every index computed is at most n, which is a slice length. `ChunkSplit` and `ChunkInBounds` bound them.
- `Vec::with_capacity` in `scalar_mul`. It is an allocation hint with no effect on the result.
- Determinism (two calls on the same inputs give the same output). Every kernel's result is fixed by its inputs through its contract, so this needs no separate statement.
