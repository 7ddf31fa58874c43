# simd-test-rs, modelled in Dafny

simd-test-rs is a set of benchmark kernels written in Rust with
`std::simd`. This project models four groups of them and proves what each
one computes. Floating point is modelled by exact `real` arithmetic and
machine integers by `int`.

- **All-pairs Lennard-Jones** (`lennard_jones.rs` on an array of points,
  `lennard_jones_t.rs` on three coordinate slices).
  - Every kernel visits a set of index pairs `(j, i)`, `j < i`. `Pairs`
    names the sets that occur:
    - `AllPairs`: every pair;
    - `SameSide(b)`: both particles on the same side of `b`;
    - `EarlierBlocks(N)`: `j` lies in a block of `N` before the block of `i`.
  - `Energy(ps, …)` is the energy over a pair set and `Grad(ps, …)` the
    gradient over it.
  - Each kernel is a method proved to return `4 e_b · Energy` and to write
    `Grad` for the set it visits.
  - It is proved that every gradient sums to zero on every axis, whatever
    the pair set.
  - It is proved which kernels visit every pair, and which visit fewer (see
    "## Findings").
- **Integer linear algebra** (`linalg/matrix.rs`, `linalg/vector.rs`).
  - A row-major `Matrix` class with add-assign and three products, each
    proved to write the product.
  - The chunked dot product is proved equal to the naive one on vectors of
    one length. On unequal lengths its exact result is stated: the common
    whole chunks plus the two remainders paired with each other, which start
    at different offsets.
  - The periodic fill of `rand_vec`.
- **Collatz-style stepping** (`colatz.rs`).
  - The in-place step, the running elementwise maximum and the count.
  - The chunked driver is proved to agree with the plain one on slices of
    one length.
- **Byte transposes** (`transpose_u8/*`).
  - The naive transpose, and the four interleaves as byte permutations of
    two 64-byte vectors.
  - Both butterfly transposes (64×8 and 64×16) are proved to write exactly
    the naive transpose.

The shared pieces:
- `arith.dfy`: `Mul`, the row-major index `Flat` and the end of the last
  whole chunk, `ChunkEnd(n, N) = N·⌊n/N⌋`.
- `simd.dfy`: the few `std::simd` operations used, on values: lane
  transmutes, `interleave` and `simd_swizzle!`.

An `assert_eq!` that fails is modelled as the result `ok == false`, and the
state is left as it is when the panic happens.

## Model

| member | source | states |
|---|---|---|
| Arith.FlatInjective | src/linalg/matrix.rs:58-66 | distinct `(i, j)` inside a row of width `w` give distinct indices `i·w + j` |
| Arith.FlatInRange | src/linalg/matrix.rs:58-66 | `i < h`, `j < w` give an index below `w·h` |
| Arith.ChunkEnd | src/lennard_jones_t.rs:276-278 | the whole `N`-chunks of `n` elements end at `b = N·⌊n/N⌋`, with `b ≤ n < b + N` |
| Colatz.StepExact | src/colatz.rs:9 | the halving in the step is exact, so truncating division does not matter: `2·Step(x)` is `x` or `3x + 1`; positive stays positive |
| Colatz.TruncDiv | src/colatz.rs:9 | Rust's `/` rounds toward zero: for either sign of the divisor, what is left over has the sign of the dividend and is smaller than the divisor in magnitude |
| Colatz.TruncRem | src/colatz.rs:9 | Rust's `%`: `a == (a / b)·b + a % b`, the remainder has the sign of `a` and is below `\|b\|`, and it is 0 exactly when `b` divides `a`, so the parity test is exact |
| Colatz.DoColatz | src/colatz.rs:7-11 | every entry of the slice is replaced by its step; nothing outside the slice changes |
| Colatz.UpdateMax | src/colatz.rs:13-17 | `maxs[k] = max(is[k], maxs[k])` for `k` below the shorter length; the other entries are unchanged |
| Colatz.AmtDone | src/colatz.rs:19-21 | the count is at most the length; it equals the length iff every entry is ≤ 4, and it is 0 iff none is |
| Colatz.MaxNNext | src/colatz.rs:23-28 | one more round takes the maximum with the new value, so no running maximum ever decreases |
| Colatz.MaxNIsMax | src/colatz.rs:23-28 | after `n` rounds the running maximum is at least the start maximum and every value reached, and it is one of them |
| Colatz.DoNColatz | src/colatz.rs:23-28 | after `n` rounds each entry is its `n`-th step and each `maxs[k]` is the running maximum over those rounds (`n = 0` changes nothing) |
| Colatz.Rounds | src/colatz.rs:24-27 | `n` rounds of step and update on two sub-slices; everything outside them is unchanged |
| Colatz.DoColatzConst | src/colatz.rs:30-34 | like `DoColatz` on one chunk |
| Colatz.UpdateMaxConst | src/colatz.rs:36-40 | like `UpdateMax` on one chunk of each slice |
| Colatz.ChunkRounds | src/colatz.rs:49-52 | `n` rounds on one pair of 1024-chunks; everything else is unchanged |
| Colatz.AllChunkRounds | src/colatz.rs:48-53 | `n` rounds on each of the first `chunks` chunk pairs; the rest is unchanged |
| Colatz.DoNColatzChunked | src/colatz.rs:42-62 | the chunked driver's exact effect on slices of any lengths; with equal lengths it equals `do_n_colatz` |
| Colatz.Round | src/colatz.rs:24-27 | one more round extends both the steps and the running maxima |
| LinalgMatrix.Matrix.Zeros | src/linalg/matrix.rs:48-52 | `w·h` zeros with the given `w` and `h` |
| LinalgMatrix.Matrix.Set | src/linalg/matrix.rs:63-67 | writing entry `(i, j)` replaces `data[i·w + j]` and nothing else |
| LinalgMatrix.EntriesDetermine | src/linalg/matrix.rs:55-61 | two data of one shape that agree at every `(i, j)` are equal, so row-major indexing reaches every entry |
| LinalgMatrix.Matrix.AddAssignNaive | src/linalg/matrix.rs:70-76 | `ok` iff the shapes match; then every entry gains the entry of `rhs` at the same index (the zip stops at the shorter data); otherwise nothing changes |
| LinalgMatrix.Matrix.AddAssign | src/linalg/matrix.rs:79-83 | `+=` has the effect of `add_assign_naive` |
| LinalgMatrix.Matrix.MulNaive | src/linalg/matrix.rs:86-98 | `ok` iff `w == rhs.h`, `h == dest.h` and `dest.w == rhs.w`; then dest holds the product; otherwise it is untouched; dest keeps its shape |
| LinalgMatrix.Matrix.MulTNaive | src/linalg/matrix.rs:136-148 | `ok` iff `w == rhs.w`, `h == dest.h` and `dest.w == rhs.h`; then dest holds `Σ_k a[i,k]·rhs[j,k]`, which is also the plain product with the transpose of `rhs` |
| LinalgMatrix.Matrix.MulSimd | src/linalg/matrix.rs:100-134 | the dimension check of `mul_naive`; dest is zeroed and then panics at `chunks_exact(0)` when `w` or `rhs.w` is 0; otherwise dest holds the same product as `mul_naive` |
| LinalgMatrix.NaiveLoops | src/linalg/matrix.rs:91-97 | the `i, j, k` loops on zeroed data give the product (plain or transposed) |
| LinalgMatrix.SimdLoops | src/linalg/matrix.rs:112-133 | the row and `k` loops of `mul_simd` on zeroed data give the plain product |
| LinalgMatrix.SimdRowTerm | src/linalg/matrix.rs:116-132 | one `ax, b_row` step adds term `k` to every entry of row `i`: the chunks, then the tail |
| LinalgMatrix.SimdChunks | src/linalg/matrix.rs:120-127 | the chunk loop adds term `k` to entries `0 .. N·chunks` of row `i` |
| LinalgMatrix.ProductUnique | src/linalg/matrix.rs:86-148 | two data that both hold the product are equal, so the three products agree wherever their checks agree |
| LinalgMatrix.TransposedIsPlain | src/linalg/matrix.rs:136-148 | the terms of `mul_t_naive` are those of `mul_naive` against the transpose of `rhs` |
| LinalgMatrix.TransposeAt | src/linalg/matrix.rs:144 | entry `(k, j)` of the transpose is entry `(j, k)` of the matrix |
| LinalgMatrix.NaiveStep | src/linalg/matrix.rs:94 | `dest[(i, j)] += self[(i, k)] · rhs[…]` adds exactly term `k` of entry `(i, j)` |
| LinalgMatrix.NaiveDone | src/linalg/matrix.rs:91-97 | the loop state after the last row is the product |
| LinalgMatrix.SimdStep | src/linalg/matrix.rs:124-130 | `cs += axs·bs` on `len` lanes adds term `k` to those entries of row `i` |
| LinalgMatrix.SimdDone | src/linalg/matrix.rs:112-133 | the loop state after the last row is the plain product |
| LinalgVector.DotTruncates | src/linalg/vector.rs:5-7 | `dot_naive` sees only the first `min(\|v\|, \|w\|)` entries of each side |
| LinalgVector.DotSymmetric | src/linalg/vector.rs:5-7 | the dot product is symmetric |
| LinalgVector.DotSplit | src/linalg/vector.rs:5-7 | the dot product of two concatenations with equal first parts is the sum of the parts' dot products |
| LinalgVector.DotChunked | src/linalg/vector.rs:9-23 | the lane sums over the common whole chunks plus the dot product of the two remainders; with equal lengths it equals `dot_naive` |
| LinalgVector.ChunkLoop | src/linalg/vector.rs:15-19 | after `c` chunks, lane `t` of `acc` is `Σ_{q<c} v[qN+t]·w[qN+t]` |
| LinalgVector.AddChunk | src/linalg/vector.rs:16-18 | lane `t` gains `v[b+t]·w[b+t]` |
| LinalgVector.LanesSum | src/linalg/vector.rs:21 | the lanes after `c` chunks sum to the dot product of the first `c·N` entries |
| LinalgVector.ToConstSlice | src/linalg/vector.rs:25-27 | the view is the first chunk: followed by the rest of `v` it gives `v` back; a buffer of exactly `N` entries, as `rand_vec` passes at line 38, is viewed whole |
| LinalgVector.RandVecFill | src/linalg/vector.rs:35-50 | the fill has length `n` and `v[k] = randbuf[k mod N]` |
| SimdU8.FlattenLanes | src/transpose_u8/interleave_u8.rs:10-17 | a transmute to wide lanes followed by the one back gives the vector back |
| SimdU8.AsU32x16 | src/transpose_u8/interleave_u8.rs:10-11 | the transmute to `Simd<u32, 16>`: 16 lanes of 4 consecutive bytes |
| SimdU8.AsU64x8 | src/transpose_u8/interleave_u8.rs:22-23 | the transmute to `Simd<u64, 8>`: 8 lanes of 8 consecutive bytes |
| SimdU8.AlternateIsWeave | src/transpose_u8/interleave_u8.rs:13 | `interleave` takes the lanes alternately, which is a weave of blocks of one |
| SimdU8.WeavePermutes | src/transpose_u8/interleave_u8.rs:9-110 | a weave returns the elements of its two inputs, each once |
| SimdU8.WeaveAt | src/transpose_u8/interleave_u8.rs:9-110 | block `m` of `a` goes to block `2m` of the weave, and block `m` of `b` to block `2m + 1` |
| SimdU8.FlattenWeave | src/transpose_u8/interleave_u8.rs:10-17 | weaving `k` lanes of `w` bytes is weaving `k·w` bytes |
| InterleaveU8.Int4Interleaves | src/transpose_u8/interleave_u8.rs:9-18 | `int4` returns the 4-byte blocks of the lower halves alternately, then those of the upper halves |
| InterleaveU8.Int8Interleaves | src/transpose_u8/interleave_u8.rs:21-30 | the same with 8-byte blocks |
| InterleaveU8.Int16Swizzles | src/transpose_u8/interleave_u8.rs:37-65 | the swizzle lists of `int16` weave 2-lane blocks of lanes `0..4` and `4..8` |
| InterleaveU8.Int16Interleaves | src/transpose_u8/interleave_u8.rs:33-70 | `int16` returns `a[0..16] b[0..16] a[16..32] b[16..32]` and the same pattern on bytes `32..64` |
| InterleaveU8.Int32Swizzles | src/transpose_u8/interleave_u8.rs:77-105 | the swizzle lists of `int32` weave one 4-lane block of lanes `0..4` and of lanes `4..8` |
| InterleaveU8.Int32Interleaves | src/transpose_u8/interleave_u8.rs:73-110 | `int32` returns `a[0..32] b[0..32]` and `a[32..64] b[32..64]` |
| InterleaveU8.Permutes | src/transpose_u8/interleave_u8.rs:9-110 | each `intK` returns a permutation of its 128 input bytes: none lost, none duplicated |
| InterleaveU8.InterleavesAt | src/transpose_u8/interleave_u8.rs:9-110 | where a K-byte interleave puts every byte of its inputs |
| Butterfly.Stage | src/transpose_u8/transpose_64x16_u8.rs:20-46 | a butterfly pass keeps the number of vectors |
| Butterfly.StagePair | src/transpose_u8/transpose_64x16_u8.rs:26-32 | vectors `j` and `j + d` of block `i` become the two results of the step on them |
| Butterfly.StepsAreButterflies | src/transpose_u8/interleave_u8.rs:9-110 | `int4` … `int32` are the K-byte interleaves for K = 4, 8, 16, 32 |
| Butterfly.ButterflyAt | src/transpose_u8/transpose_64x16_u8.rs:20-46 | where one pass puts every byte of a block of vectors |
| Butterfly.PassBlock | src/transpose_u8/transpose_64x16_u8.rs:35-40 | the inner loop applies the step in place to pairs `(r, r + d)` of one block and leaves every other vector alone |
| NaiveTranspose.Transposed | src/transpose_u8/naive.rs:5-9 | the transpose of a grid has the swapped shape and `t[j][i] = a[i][j]` |
| NaiveTranspose.TransposedTwice | src/transpose_u8/naive.rs:5-9 | transposing twice gives the grid back |
| NaiveTranspose.Trans | src/transpose_u8/naive.rs:1-10 | after `trans`, `b[j][i] = a[i][j]` for every entry, whatever `b` held; `a` is a value and cannot change |
| Transpose64x8.RowsAt | src/transpose_u8/transpose_64x8_u8.rs:6 | after the reinterpretation, vector `r` holds input rows `8r .. 8r+7` |
| Transpose64x8.GatherAt | src/transpose_u8/transpose_64x8_u8.rs:19-27 | the swizzle list sends byte `8q + s` to position `8s + q` |
| Transpose64x8.ShuffledAt | src/transpose_u8/transpose_64x8_u8.rs:6-28 | after the swizzle, vector `r` holds byte `s` of its rows in block `s` |
| Transpose64x8.OrderBits | src/transpose_u8/transpose_64x8_u8.rs:40-42 | the output order `[0,4,2,6,1,5,3,7]` is the 3-bit bit reversal |
| Transpose64x8.Pass1 | src/transpose_u8/transpose_64x8_u8.rs:20-24 | the first loop applies the step to the pairs `(2i, 2i+1)` in place |
| Transpose64x8.Pass2 | src/transpose_u8/transpose_64x8_u8.rs:26-32 | the second loop applies the step to the pairs `(4i+j, 4i+j+2)` in place |
| Transpose64x8.Pass3 | src/transpose_u8/transpose_64x8_u8.rs:34-38 | the third loop applies the step to the pairs `(i, i+4)` in place |
| Transpose64x8.PassesMove | src/transpose_u8/transpose_64x8_u8.rs:20-38 | the three passes transpose the 8×8 grid of 8-byte blocks, with the vector index bit-reversed |
| Transpose64x8.PassedTranspose | src/transpose_u8/transpose_64x8_u8.rs:5-38 | with `int8`, `int16` and `int32`, vector `Order[t]` after the passes holds byte `t` of every input row |
| Transpose64x8.WriteOut | src/transpose_u8/transpose_64x8_u8.rs:40-42 | row `t` of `b` is vector `Order[t]`; every byte of `b` is written |
| Transpose64x8.TransposeIsTransposed | src/transpose_u8/transpose_64x8_u8.rs:5-43 | the fast transpose equals the naive `trans::<8, 64>` |
| Transpose64x8.Trans | src/transpose_u8/transpose_64x8_u8.rs:5-43 | after `trans`, `b[j][i] = a[i][j]` for `i < 64`, `j < 8`: exactly the naive transpose |
| Transpose64x16.RowsAt | src/transpose_u8/transpose_64x16_u8.rs:6 | after the reinterpretation, vector `r` holds input rows `4r .. 4r+3` |
| Transpose64x16.GatherAt | src/transpose_u8/transpose_64x16_u8.rs:19-27 | the swizzle list sends byte `16q + s` to position `4s + q` |
| Transpose64x16.ShuffledAt | src/transpose_u8/transpose_64x16_u8.rs:6-28 | after the swizzle, vector `r` holds byte `s` of its 4 rows in block `s` |
| Transpose64x16.OrderBits | src/transpose_u8/transpose_64x16_u8.rs:48-53 | the output order `[0,8,4,12,…,7,15]` is the 4-bit bit reversal |
| Transpose64x16.Pass1 | src/transpose_u8/transpose_64x16_u8.rs:20-24 | the first loop applies the step to the pairs `(2i, 2i+1)` in place |
| Transpose64x16.Pass2 | src/transpose_u8/transpose_64x16_u8.rs:26-32 | the second loop applies the step to the pairs `(4i+j, 4i+j+2)` in place |
| Transpose64x16.Pass3 | src/transpose_u8/transpose_64x16_u8.rs:34-40 | the third loop applies the step to the pairs `(8i+j, 8i+j+4)` in place |
| Transpose64x16.Pass4 | src/transpose_u8/transpose_64x16_u8.rs:42-46 | the fourth loop applies the step to the pairs `(i, i+8)` in place |
| Transpose64x16.PassesMove | src/transpose_u8/transpose_64x16_u8.rs:20-46 | the four passes transpose the 16×16 grid of 4-byte blocks, with the vector index bit-reversed |
| Transpose64x16.PassedTranspose | src/transpose_u8/transpose_64x16_u8.rs:5-46 | with `int4` … `int32`, vector `Order[t]` after the passes holds byte `t` of every input row |
| Transpose64x16.WriteOut | src/transpose_u8/transpose_64x16_u8.rs:48-53 | row `t` of `b` is vector `Order[t]`; every byte of `b` is written |
| Transpose64x16.TransposeIsTransposed | src/transpose_u8/transpose_64x16_u8.rs:5-54 | the fast transpose equals the naive `trans::<16, 64>` |
| Transpose64x16.Trans | src/transpose_u8/transpose_64x16_u8.rs:5-54 | after `trans`, `b[j][i] = a[i][j]` for `i < 64`, `j < 16`: exactly the naive transpose |
| LennardJonesSpec.Dist2Symmetric | src/lennard_jones.rs:46 | the squared distance does not depend on the order of the two particles |
| LennardJonesSpec.EnergyNext | src/lennard_jones.rs:44-53 | the energy is accumulated row by row, over the partners of each row in the set |
| LennardJonesSpec.SameSideMisses | src/lennard_jones_t.rs:126-157 | the energy of every pair is that of `SameSide(b)` plus the pairs that straddle `b` |
| LennardJonesSpec.SameSideExact | src/lennard_jones_t.rs:126-157 | with the cut at 0 (`n < N`) or at the end (`n mod N = 0`), `SameSide` is every pair |
| LennardJonesSpec.SameSideMissesLine3 | src/lennard_jones_t.rs:126-157 | on three particles in a line with the cut at 2, `SameSide(2)` is off from every pair by `63/4096` |
| LennardJonesSpec.EnergyFew | src/lennard_jones.rs:31-56 | with at most one particle the energy is 0 |
| LennardJonesSpec.EarlierBlocksOne | src/lennard_jones.rs:219-263 | blocks of one particle visit every pair |
| LennardJonesSpec.Hi | src/lennard_jones.rs:219 | each row's partners lie below the row |
| LennardJonesGrad.PartnerAntisymmetric | src/lennard_jones.rs:183-187 | the two particles of a visited pair get opposite gradients |
| LennardJonesGrad.ColSumOpposite | src/lennard_jones.rs:183-187 | what the first `n` particles get from `m` is what `m` gets from them, negated |
| LennardJonesGrad.TotalZero | src/lennard_jones.rs:177-189 | among the first `n` particles the gradients cancel |
| LennardJonesGrad.GradSumsToZero | src/lennard_jones_t.rs:282-353 | values equal to the gradient over any pair set sum to zero |
| LennardJonesGrad.GradEarlierBlocksOne | src/lennard_jones.rs:219-263 | with `N = 1` the blocked gradient is the gradient over every pair |
| LennardJonesGrad.GradSameSideExact | src/lennard_jones_t.rs:282-353 | with the cut at 0 or at the end, the `SameSide` gradient is that over every pair |
| LennardJonesGrad.GradSameSideParts | src/lennard_jones_t.rs:282-353 | under `SameSide(b)` a particle's partners are the particles on its side of `b` |
| LennardJonesGrad.ProgressDone | src/lennard_jones.rs:177-189 | after the last row every particle holds its gradient |
| LennardJonesGrad.PairStep | src/lennard_jones.rs:183-187 | `g[i] -= gq`, `g[j] += gq` adds the pair to both sides |
| LennardJonesGrad.BlockStep | src/lennard_jones.rs:235-239 | adding one chunk's lanes adds the chunk's side of its pairs with `i` |
| LennardJonesGrad.OwnStep | src/lennard_jones.rs:248-252 | adding the lane sums to `g[i]` adds row `i`'s side of its pairs |
| LennardJonesGrad.LaneGrads | src/lennard_jones.rs:241-245 | lanes that lost the partner side gained, in all, row `i`'s side |
| LennardJonesGrad.EarlierBlocksMissesPair | src/lennard_jones.rs:254-262 | two particles one apart in one block of two get no gradient from `EarlierBlocks(2)`, against `-24` over every pair |
| LennardJonesAos.LatticePush | src/lennard_jones.rs:19-23 | pushing the next lattice point keeps every position so far in place |
| LennardJonesAos.SetupCubicLattice | src/lennard_jones.rs:10-29 | `n³` points; the one at `(i·n + j)·n + k` is `[i·r, j·r, k·r]` |
| LennardJonesAos.LatticePlane | src/lennard_jones.rs:17-25 | the `n²` points of plane `i`, in order |
| LennardJonesAos.LatticeLine | src/lennard_jones.rs:18-24 | the `n` points of line `(i, j)`, in order |
| LennardJonesAos.Naive | src/lennard_jones.rs:31-56 | `4 e_b` times the energy of every pair `j < i` |
| LennardJonesAos.NaiveSum | src/lennard_jones.rs:43-53 | the double loop sums the energy of every pair |
| LennardJonesAos.NaiveRow | src/lennard_jones.rs:45-52 | the inner loop adds row `i` over all `j < i` |
| LennardJonesAos.AddPairs | src/lennard_jones.rs:74-92 | the lane loop over a chunk or the remainder: lane `t` gains the pair `(base + t, i)`, and the lane sum gains the row over that range |
| LennardJonesAos.LaneSums | src/lennard_jones.rs:75-81 | lanes that each gained one pair gained the row over that range in all |
| LennardJonesAos.BlockedRow | src/lennard_jones.rs:72-92 | the whole chunks and the remainder of `r[0..i]` add row `i` over every `j < i`, each once |
| LennardJonesAos.BlockedSum | src/lennard_jones.rs:70-95 | the lane sums total the energy of every pair |
| LennardJonesAos.Blocked | src/lennard_jones.rs:58-96 | `lennard_jones::<N>` equals `lennard_jones_naive` for every length and every `N ≥ 1` |
| LennardJonesAos.ZeroFill | src/lennard_jones.rs:173-175 | every coordinate of `g` becomes 0 |
| LennardJonesAos.ApplyPair | src/lennard_jones.rs:179-187 | particles `i` and `j` each gain their side of the pair; nothing else changes |
| LennardJonesAos.PFScaled | src/lennard_jones.rs:182-184 | `(rj - ri)·s`, with the scale computed once, is the side of `j` and minus the side of `i` |
| LennardJonesAos.GradNaiveRow | src/lennard_jones.rs:178-188 | row `i` completes the gradients over the pairs with `i` |
| LennardJonesAos.GradNaive | src/lennard_jones.rs:157-190 | `ok` iff the lengths agree, else `g` is untouched; then `g` is the gradient over every pair whatever it held, and it sums to zero on every axis |
| LennardJonesAos.GradZero | src/lennard_jones.rs:177-189 | a `g` that holds the gradient over any pair set sums to zero on every axis |
| LennardJonesAos.GradBlocked | src/lennard_jones.rs:192-264 | `ok` iff the lengths agree; then `g` is the gradient over `EarlierBlocks(N)` (the remainder partners are skipped), and it sums to zero on every axis |
| LennardJonesAos.GradBlockedRow | src/lennard_jones.rs:219-252 | row `i` completes the gradients over its pairs with the whole chunks of `r[0..i]` |
| LennardJonesAos.GradChunks | src/lennard_jones.rs:223-246 | the chunk loop adds each chunk's side of its pairs to `g` and row `i`'s side to the lanes of `bufs2` |
| LennardJonesAos.GradLanes | src/lennard_jones.rs:224-245 | one chunk: the chunk's side to `g`, row `i`'s side to the lane sums |
| LennardJonesAos.ChunkIntoG | src/lennard_jones.rs:235-239 | `g[base + t] += bufs[t]` carries the gradient progress of row `i` from `base` to `base + len`: the chunk's side of its pairs with `i` is added |
| LennardJonesAos.ChunkIntoLanes | src/lennard_jones.rs:241-245 | `bufs2[t] -= bufs[t]` extends, on every axis, the lane sums from row `i`'s side over the partners below `base` to those below `base + len` |
| LennardJonesAos.FillBufs | src/lennard_jones.rs:224-233 | lane `t` of `bufs` holds the side of `base + t` of its pair with `i` |
| LennardJonesAos.AddBufs | src/lennard_jones.rs:235-239 | `g[base + t] += bufs[t]` on the chunk; the rest of `g` is unchanged |
| LennardJonesAos.SubBufs | src/lennard_jones.rs:241-245 | `bufs2[t] -= bufs[t]` |
| LennardJonesAos.AddLanes | src/lennard_jones.rs:248-252 | `g[i]` gains every lane of `bufs2`; nothing else changes |
| LennardJonesAos.NewLanes | src/lennard_jones.rs:221 | `N` zero lanes |
| LennardJonesAos.GradBlockedFull | src/lennard_jones.rs:254-262 | with the remainder done like a chunk, `g` is the gradient over every pair |
| LennardJonesAos.GradBlockedFullRow | src/lennard_jones.rs:219-262 | row `i` with the remainder included completes the gradients over every pair with `i` |
| LennardJonesSoa.Zip3 | src/lennard_jones_t.rs:78 | the zipped slices are as long as the shortest one and hold the particles in order |
| LennardJonesSoa.SetupCubicLattice | src/lennard_jones_t.rs:11-27 | three slices of `n³` coordinates; index `(i·n + j)·n + k` holds `i·r`, `j·r` and `k·r` |
| LennardJonesSoa.LatticePlane3 | src/lennard_jones_t.rs:17-23 | the `n²` particles of plane `i`, in order on all three slices |
| LennardJonesSoa.LatticeLine3 | src/lennard_jones_t.rs:18-22 | the `n` particles of line `(i, j)`, in order on all three slices |
| LennardJonesSoa.Rest | src/lennard_jones_t.rs:71-93 | `lennard_jones_rest` sums every pair `j < i` of the zipped slices (0 for one particle or none) |
| LennardJonesSoa.RestRow | src/lennard_jones_t.rs:79-90 | the inner loop adds row `i` over its partners |
| LennardJonesSoa.Chunk | src/lennard_jones_t.rs:29-69 | `lennard_jones_chunk` on one chunk counts every pair in it once, as `lennard_jones_rest` does: `take(i)` keeps the lanes `l < i` |
| LennardJonesSoa.RowAsSum | src/lennard_jones_t.rs:66 | the first `i` lanes of the vector sum to row `i` |
| LennardJonesSoa.LennardJones | src/lennard_jones_t.rs:95-158 | `ok` iff the three lengths agree (`assert_eq!`); then `4 e_b` times the energy over `SameSide(N·⌊n/N⌋)` |
| LennardJonesSoa.LennardJonesSum | src/lennard_jones_t.rs:118-155 | the three parts together are the energy over `SameSide(b)` |
| LennardJonesSoa.EarlierLanes | src/lennard_jones_t.rs:125-147 | the first loop's lanes sum to the energy over `EarlierBlocks(N)` below `b` |
| LennardJonesSoa.EarlierChunk | src/lennard_jones_t.rs:127-146 | chunk `c` adds its pairs with every particle before it |
| LennardJonesSoa.EarlierStep | src/lennard_jones_t.rs:131-145 | partner `j` adds its pairs with the chunk's lanes |
| LennardJonesSoa.OwnChunks | src/lennard_jones_t.rs:151-153 | the chunk kernels add the pairs inside the whole chunks |
| LennardJonesSoa.ChunkAt | src/lennard_jones_t.rs:151-153 | `lennard_jones_chunk` on the particles `o .. o + m` returns the energy of every pair inside that window |
| LennardJonesSoa.RestAt | src/lennard_jones_t.rs:155 | the rest kernel adds the pairs inside the remainder |
| LennardJonesSoa.OwnRows | src/lennard_jones_t.rs:126-153 | the pairs below `N·(c+1)` that are not in `EarlierBlocks(N)` are those below `N·c` that are not in it, plus the pairs inside chunk `c` |
| LennardJonesSoa.SameSideRows | src/lennard_jones_t.rs:149-155 | `SameSide(b)` is every pair below `b` plus the pairs inside `b .. n` |
| LennardJonesSoa.LennardJonesFull | src/lennard_jones_t.rs:95-158 | the corrected kernel: with the straddling pairs added, `4 e_b` times the energy of every pair |
| LennardJonesSoa.MixedRows | src/lennard_jones_t.rs:126-157 | the remainder's rows against the partners before `b` add exactly the straddling pairs |
| LennardJonesSoaGrad.PairSides | src/lennard_jones_t.rs:206-218 | `gs·d` is the earlier particle's side of the pair and `-gs·d` the later one's |
| LennardJonesSoaGrad.RestStart | src/lennard_jones_t.rs:189-192 | nothing is done before the first row of `lennard_jones_grad_rest` |
| LennardJonesSoaGrad.RestPair | src/lennard_jones_t.rs:216-218 | `gx[j] += gxs` adds the partner's side of the pair |
| LennardJonesSoaGrad.RestRowEnd | src/lennard_jones_t.rs:221-223 | `gx[i] += gxi` closes row `i`, adding its start value a second time |
| LennardJonesSoaGrad.RestFinish | src/lennard_jones_t.rs:189-224 | after the last row every particle of the window holds twice its start value plus its gradient inside the window |
| LennardJonesSoaGrad.AxisPair | src/lennard_jones_t.rs:208-218 | one axis of the inner step: the partner gains `gs·d` and the accumulator loses it |
| LennardJonesSoaGrad.RestStep | src/lennard_jones_t.rs:195-218 | one pair: its energy is added, and both sides of the pair on every axis |
| LennardJonesSoaGrad.GradRestRow | src/lennard_jones_t.rs:189-224 | row `i`: the energy of its pairs inside the window, and its gradients |
| LennardJonesSoaGrad.AxisClose | src/lennard_jones_t.rs:221-223 | `g[o + i] += gi` on one axis |
| LennardJonesSoaGrad.GradRest | src/lennard_jones_t.rs:174-226 | returns the energy inside the window; every window particle holds twice its start value plus its gradient inside the window; the rest of `g` is unchanged |
| LennardJonesSoaGrad.BeforeStart | src/lennard_jones_t.rs:269-271 | the zero-filled gradients are the state before the first chunk |
| LennardJonesSoaGrad.MidStart | src/lennard_jones_t.rs:283-300 | after the rest kernel on the zeroed chunk, its accumulators hold the chunk's own pairs |
| LennardJonesSoaGrad.MidStep | src/lennard_jones_t.rs:322-332 | partner `j` gains the reduced sum over the lanes, and each lane loses its term |
| LennardJonesSoaGrad.MidClose | src/lennard_jones_t.rs:335-337 | writing the accumulators back completes every particle below the chunk's end |
| LennardJonesSoaGrad.GradFinish | src/lennard_jones_t.rs:342-351 | after the last chunk and the rest kernel on the remainder, every axis is the gradient over `SameSide(b)` |
| LennardJonesSoaGrad.AxisLanes | src/lennard_jones_t.rs:322-332 | one axis of partner `j` against the chunk's lanes |
| LennardJonesSoaGrad.GradStep | src/lennard_jones_t.rs:305-332 | partner `j`: the energy lanes gain its pairs with the chunk, and the gradients on every axis |
| LennardJonesSoaGrad.AxisStore | src/lennard_jones_t.rs:335-337 | the lanes written back over the chunk on one axis |
| LennardJonesSoaGrad.GradLanes | src/lennard_jones_t.rs:302-333 | the partner loop: every particle before the chunk against its lanes |
| LennardJonesSoaGrad.ChunkOpen | src/lennard_jones_t.rs:283-300 | the rest kernel on the chunk and the lanes loaded into the accumulators |
| LennardJonesSoaGrad.ChunkClose | src/lennard_jones_t.rs:335-337 | the three write-backs complete every particle below the chunk's end |
| LennardJonesSoaGrad.GradChunk | src/lennard_jones_t.rs:283-337 | chunk `c`: its own pairs to the energy, its pairs with earlier particles to the lanes, and every gradient below its end |
| LennardJonesSoaGrad.ChunkStep | src/lennard_jones_t.rs:282-338 | one turn of the chunk loop keeps the loop invariant `ChunksDone` |
| LennardJonesSoaGrad.ChunkLoop | src/lennard_jones_t.rs:282-338 | the chunk loop on zeroed gradients reaches `ChunksDone` after the last chunk |
| LennardJonesSoaGrad.GradChunks | src/lennard_jones_t.rs:280-340 | the chunk loop plus the reduced lanes: the energy of every pair below `b`, and their gradients |
| LennardJonesSoaGrad.Clear | src/lennard_jones_t.rs:269-271 | `fill(0)`: every entry becomes 0 |
| LennardJonesSoaGrad.GradTail | src/lennard_jones_t.rs:342-351 | the rest kernel on the remainder completes the energy and the gradients over `SameSide(b)` |
| LennardJonesSoaGrad.GradientSum | src/lennard_jones_t.rs:269-351 | the unscaled energy, and the gradients over `SameSide(b)` whatever the arrays held |
| LennardJonesSoaGrad.LennardJonesGradient | src/lennard_jones_t.rs:228-354 | `ok` iff six lengths agree, else nothing changes; then `4 e_b` times the energy over `SameSide(b)` (what `lennard_jones` returns), the gradients over the same pairs, and each axis sums to zero |
| LennardJonesSoaGrad.SameSideMissesGradLine3 | src/lennard_jones_t.rs:342-351 | on three particles in a line with two lanes, the remainder particle gets no gradient, against `-12195/512` over every pair |
| LennardJonesSoaGrad.MixPair | src/lennard_jones_t.rs:206-218 | one straddling pair adds both of its sides |
| LennardJonesSoaGrad.MixDone | src/lennard_jones_t.rs:282-353 | the `SameSide(b)` gradient plus every straddling pair is the gradient over every pair |
| LennardJonesSoaGrad.MixedGrad | src/lennard_jones_t.rs:282-353 | the remainder's rows against the partners before `b`: the missing energy and the missing gradients |
| LennardJonesSoaGrad.GradientFullSum | src/lennard_jones_t.rs:269-351 | the corrected kernel before scaling: the energy and the gradients over every pair |
| LennardJonesSoaGrad.LennardJonesGradientFull | src/lennard_jones_t.rs:228-354 | the corrected kernel: `4 e_b` times the energy of every pair, the gradients over every pair, each axis summing to zero |

## Left out

- `lennard_jones_par` and `lennard_jones_grad_par`: these exist for concurrency, with rayon, thread-local buffers and channels.
- Floating point is modelled by exact `real`. Not modelled:
  - rounding, and `reduce_sum`'s reassociation;
  - `powf` and `powi`: `s2 = 2^(-1/3)·r_eq²` is the parameter `s2`;
  - the infinities and NaNs of coincident particles: every kernel requires `Separated`, meaning no two particles share a position.
- The lane count `N` of every blocked kernel is a parameter, not a const generic. `lennard_jones_t.rs` and `mul_simd` bound `N` by `SupportedLaneCount`, so there `N = 0` does not compile. The kernels below have no such bound: with `N = 0` they compile, and `as_chunks::<0>` panics at run time. Their `requires` exclude that panic path.
- LennardJonesAos.Blocked: requires `lanes > 0`. With `N = 0`, `lennard_jones::<0>` returns 0 on an empty `r` and panics at `as_chunks` (src/lennard_jones.rs:72) otherwise; the model does not cover this.
- LennardJonesAos.GradBlocked: requires `lanes > 0`. With `N = 0`, `lennard_jones_grad::<0>` panics at `as_chunks` (src/lennard_jones.rs:219) once the lengths agree and `r` is non-empty; the model does not cover this. The same holds for the corrected LennardJonesAos.GradBlockedFull.
- LinalgVector.DotChunked: requires `n > 0`. `dot_chunked::<0>` panics at `as_chunks::<0>` (src/linalg/vector.rs:10-11); the model does not cover this.
- LinalgVector.RandVecFill: requires a non-empty buffer. `rand_vec::<0>` collects an empty buffer and cannot take its first chunk (src/linalg/vector.rs:38-40); the model does not cover this.
- `get_const_slice`, `get_const_slice_mut`, `as_chunks_unchecked` and `transmute` become index arithmetic on whole arrays, with a window `o .. o + m`.
- `transmute` between lane widths keeps every lane as its bytes, so no byte order is modelled. Every transmute here is undone by the opposite one.
- The random buffers of `rand_vec` and `Matrix::new_rand`: only the deterministic fill is modelled, with the buffer as a parameter (`RandVecFill`).
- `src/matrix.rs` is dead code and is not part of this model. `src/main.rs` is a benchmark driver that parses arguments and times the kernels. `src/linalg/primtrait.rs` is a trait alias.
- The `Debug` formatter of `Matrix`: it is formatting I/O.
- `Matrix::Index` (`Get`) has no contract of its own: it is the read `data[i·w + j]` that every other contract uses.
- LinalgMatrix.Matrix.Set: like `Get`, it requires `i·w + j < |data|`. The out-of-bounds panic of `Index` and `IndexMut` (src/linalg/matrix.rs:58-66) is excluded by these requires, not modelled.
- Machine-integer overflow (`3x + 1` on `i64`, integer `PrimNum` products): integers are unbounded `int`.
- Colatz.AmtDone: states the bounds of the count and both ends, that is, all entries are ≤ 4 or none are. The count in between is given only by its definition.
- LennardJonesSoaGrad.GradRest: `lennard_jones_grad_rest` adds a non-zero start value of `g[i]` twice, which the model keeps. The kernel calls it only on zeroed entries, so its results are not affected.
- The blocked kernels are split into one method per loop and per loop body. The loops themselves are kept as written.

## Findings

| source | as written | input that shows it | evidently intended | confidence | as-written member | corrected member |
|---|---|---|---|---|---|---|
| src/lennard_jones.rs:254-262 | the remainder partners of `r[0..i]` are skipped (the loop is commented out), so `lennard_jones_grad::<N>` is the gradient over `EarlierBlocks(N)` only | `N = 2`, particles `[0,0,0]` and `[1,0,0]`, `s2 = e_b = 1`: particle 1 gets 0 on axis 0 instead of `-24` | the gradient over every pair, as `lennard_jones_grad_naive` computes and as `lennard_jones::<N>` sums the energy | not executed | LennardJonesAos.GradBlocked, LennardJonesGrad.EarlierBlocksMissesPair | LennardJonesAos.GradBlockedFull |
| src/lennard_jones_t.rs:126-157 | the pairs with one particle in a whole chunk and the other in the remainder are never counted: the energy is over `SameSide(N·⌊n/N⌋)` | `N = 2`, particles `[0,0,0]`, `[1,0,0]`, `[2,0,0]`, `s2 = 1`: the sum is off by `63/4096` | the energy of every pair | not executed | LennardJonesSoa.LennardJones, LennardJonesSpec.SameSideMissesLine3 | LennardJonesSoa.LennardJonesFull |
| src/lennard_jones_t.rs:282-353 | the same pairs are missing from the gradient | the same three particles with `e_b = 1`: particle 2 gets 0 on axis 0 instead of `-12195/512` | the gradient over every pair | not executed | LennardJonesSoaGrad.LennardJonesGradient, LennardJonesSoaGrad.SameSideMissesGradLine3 | LennardJonesSoaGrad.LennardJonesGradientFull |
