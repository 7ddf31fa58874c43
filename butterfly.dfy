/**
 * The butterfly passes of the byte transposes.  A pass with distance `d`
 * cuts the vectors into blocks of `2 * d` and, inside each block, replaces
 * vector `j` and vector `j + d` (for every `j < d`) by the two results of a
 * step `f` applied to them.
 */
module Butterfly {
  import opened Arith
  import opened SimdU8
  import opened InterleaveU8

  /** One block of `2 * d` vectors after the pass. */
  function Block(u: seq<Vec64>, d: nat, f: (Vec64, Vec64) -> (Vec64, Vec64)): (w: seq<Vec64>)
    requires |u| == 2 * d
    ensures |w| == 2 * d
  {
    seq(2 * d, r requires 0 <= r < 2 * d => if r < d then f(u[r], u[r + d]).0 else f(u[r - d], u[r]).1)
  }

  /** The whole pass, block by block (a tail shorter than a block is left alone). */
  function Stage(v: seq<Vec64>, d: nat, f: (Vec64, Vec64) -> (Vec64, Vec64)): (w: seq<Vec64>)
    requires d > 0
    ensures |w| == |v|
    decreases |v|
  {
    if |v| < 2 * d then v else Block(v[..2 * d], d, f) + Stage(v[2 * d..], d, f)
  }

  /** Vector `j` of block `i` and its partner `j + d` after the pass. */
  lemma {:induction false} StagePair(v: seq<Vec64>, d: nat, f: (Vec64, Vec64) -> (Vec64, Vec64), i: nat, j: nat)
    requires j < d && Mul(2 * d, i) + 2 * d <= |v|
    ensures Stage(v, d, f)[Mul(2 * d, i) + j] == f(v[Mul(2 * d, i) + j], v[Mul(2 * d, i) + j + d]).0
    ensures Stage(v, d, f)[Mul(2 * d, i) + j + d] == f(v[Mul(2 * d, i) + j], v[Mul(2 * d, i) + j + d]).1
    decreases i
  {
    var rest := Stage(v[2 * d..], d, f);
    assert Stage(v, d, f) == Block(v[..2 * d], d, f) + rest;
    if i > 0 {
      assert Mul(2 * d, i) == Mul(2 * d, i - 1) + 2 * d;
      StagePair(v[2 * d..], d, f, i - 1, j);
    }
  }

  /** The step `f` is the K-byte butterfly on every pair of vectors. */
  ghost predicate IsButterfly(k: nat, f: (Vec64, Vec64) -> (Vec64, Vec64))
    requires k > 0
  {
    forall x: Vec64, y: Vec64 {:trigger Interleaves(k, x, y, f(x, y))} :: Interleaves(k, x, y, f(x, y))
  }

  /** The four steps of `interleave_u8` are the butterflies of their widths. */
  lemma {:induction false} StepsAreButterflies()
    ensures IsButterfly(4, Int4) && IsButterfly(8, Int8) && IsButterfly(16, Int16) && IsButterfly(32, Int32)
  {
    forall x: Vec64, y: Vec64
      ensures Interleaves(4, x, y, Int4(x, y)) && Interleaves(8, x, y, Int8(x, y))
      ensures Interleaves(16, x, y, Int16(x, y)) && Interleaves(32, x, y, Int32(x, y))
    {
      Int4Interleaves(x, y);
      Int8Interleaves(x, y);
      Int16Interleaves(x, y);
      Int32Interleaves(x, y);
    }
  }

  /** Where a step that is a K-byte butterfly puts the bytes of `x` and `y`. */
  lemma {:induction false} StepAt(k: nat, f: (Vec64, Vec64) -> (Vec64, Vec64), x: Vec64, y: Vec64, m: nat, o: nat)
    requires k > 0 && IsButterfly(k, f)
    requires o < k && Mul(k, m) + k <= 32
    ensures f(x, y).0[2 * Mul(k, m) + o] == x[Mul(k, m) + o]
    ensures f(x, y).0[2 * Mul(k, m) + k + o] == y[Mul(k, m) + o]
    ensures f(x, y).1[2 * Mul(k, m) + o] == x[32 + Mul(k, m) + o]
    ensures f(x, y).1[2 * Mul(k, m) + k + o] == y[32 + Mul(k, m) + o]
  {
    assert Interleaves(k, x, y, f(x, y));
    InterleavesAt(k, x, y, f(x, y), m, o);
  }

  /**
   * Where a pass of K-byte butterflies with distance `d` puts each byte.
   * With `p` vector `j` of block `i` and `q` byte block `m`: byte block `m`
   * of the lower half of `p` and of `p + d` become byte blocks `2 * m` and
   * `2 * m + 1` of `p`, and the same blocks of their upper halves those of
   * `p + d`.
   */
  lemma {:induction false} ButterflyAt(v: seq<Vec64>, d: nat, k: nat, f: (Vec64, Vec64) -> (Vec64, Vec64),
                    i: nat, j: nat, m: nat, o: nat)
    requires k > 0 && IsButterfly(k, f)
    requires j < d && o < k && Mul(k, m) + k <= 32
    requires Mul(2 * d, i) + 2 * d <= |v|
    ensures Stage(v, d, f)[Mul(2 * d, i) + j][2 * Mul(k, m) + o] == v[Mul(2 * d, i) + j][Mul(k, m) + o]
    ensures Stage(v, d, f)[Mul(2 * d, i) + j][2 * Mul(k, m) + k + o] == v[Mul(2 * d, i) + j + d][Mul(k, m) + o]
    ensures Stage(v, d, f)[Mul(2 * d, i) + j + d][2 * Mul(k, m) + o] == v[Mul(2 * d, i) + j][32 + Mul(k, m) + o]
    ensures Stage(v, d, f)[Mul(2 * d, i) + j + d][2 * Mul(k, m) + k + o] == v[Mul(2 * d, i) + j + d][32 + Mul(k, m) + o]
  {
    var base := Mul(2 * d, i) + j;
    StagePair(v, d, f, i, j);
    StepAt(k, f, v[base], v[base + d], m, o);
  }

  /**
   * The inner loop of a pass, in place: `f` on vectors `(r, r + d)` for every
   * `r` in `base .. base + d`; every other vector is left as it was.
   */
  method PassBlock(v: array<Vec64>, f: (Vec64, Vec64) -> (Vec64, Vec64), d: nat, base: nat)
    requires base + 2 * d <= v.Length
    modifies v
    ensures forall r {:trigger v[r]} :: base <= r < base + d ==> v[r] == f(old(v[r]), old(v[r + d])).0
    ensures forall r {:trigger v[r]} :: base + d <= r < base + 2 * d ==> v[r] == f(old(v[r - d]), old(v[r])).1
    ensures forall r :: 0 <= r < v.Length && !(base <= r < base + 2 * d) ==> v[r] == old(v[r])
  {
    ghost var u := v[..];
    for j := 0 to d
      invariant forall r {:trigger v[r]} :: base <= r < base + j ==> v[r] == f(u[r], u[r + d]).0
      invariant forall r {:trigger v[r]} :: base + d <= r < base + d + j ==> v[r] == f(u[r - d], u[r]).1
      invariant forall r :: 0 <= r < v.Length && !(base <= r < base + j || base + d <= r < base + d + j) ==> v[r] == u[r]
    {
      var (a1, a2) := f(v[base + j], v[base + j + d]);
      v[base + j], v[base + j + d] := a1, a2;
    }
  }
}
