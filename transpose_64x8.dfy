/**
 * `transpose_64x8_u8::trans`: 64 rows of 8 bytes to 8 rows of 64 bytes with
 * SIMD.  The input is reread as 8 vectors of 64 bytes, each vector is
 * shuffled so that byte `q` of its 8 rows comes first, three passes of
 * butterflies (8-, 16- and 32-byte blocks) move every byte to its row, and
 * the vectors are written out in bit-reversed order.
 */
module Transpose64x8 {
  import opened Arith
  import opened SimdU8
  import opened InterleaveU8
  import opened Butterfly
  import opened NaiveTranspose

  /** The shuffle applied to every vector: byte `o` of each of its 8 rows in turn. */
  const Gather: seq<nat> :=
    [0, 8, 16, 24, 32, 40, 48, 56] +
    [1, 9, 17, 25, 33, 41, 49, 57] +
    [2, 10, 18, 26, 34, 42, 50, 58] +
    [3, 11, 19, 27, 35, 43, 51, 59] +
    [4, 12, 20, 28, 36, 44, 52, 60] +
    [5, 13, 21, 29, 37, 45, 53, 61] +
    [6, 14, 22, 30, 38, 46, 54, 62] +
    [7, 15, 23, 31, 39, 47, 55, 63]

  /** Row `s` of the shuffle list: byte `s` of each of the 8 rows. */
  function GatherRow(s: nat): (g: seq<nat>)
    ensures |g| == 8 && forall q :: 0 <= q < 8 ==> g[q] == 8 * q + s
  {
    seq(8, q requires 0 <= q < 8 => 8 * q + s)
  }

  lemma {:induction false} GatherRows()
    ensures Gather == GatherRows8()
  {
    assert GatherRow(0) == [0, 8, 16, 24, 32, 40, 48, 56];
    assert GatherRow(1) == [1, 9, 17, 25, 33, 41, 49, 57];
    assert GatherRow(2) == [2, 10, 18, 26, 34, 42, 50, 58];
    assert GatherRow(3) == [3, 11, 19, 27, 35, 43, 51, 59];
    assert GatherRow(4) == [4, 12, 20, 28, 36, 44, 52, 60];
    assert GatherRow(5) == [5, 13, 21, 29, 37, 45, 53, 61];
    assert GatherRow(6) == [6, 14, 22, 30, 38, 46, 54, 62];
    assert GatherRow(7) == [7, 15, 23, 31, 39, 47, 55, 63];
  }

  /** The eight rows one after another. */
  function GatherRows8(): (g: seq<nat>)
    ensures |g| == 64
  {
    GatherRow(0) + GatherRow(1) + GatherRow(2) + GatherRow(3)
    + GatherRow(4) + GatherRow(5) + GatherRow(6) + GatherRow(7)
  }

  lemma {:induction false} GatherRowsAt(s: nat, q: nat)
    requires s < 8 && q < 8
    ensures GatherRows8()[8 * s + q] == 8 * q + s
  {
    var g := GatherRows8();
    if s < 4 {
      assert g[8 * s + q] == (GatherRow(0) + GatherRow(1) + GatherRow(2) + GatherRow(3))[8 * s + q];
    } else {
      assert g[8 * s + q] == (GatherRow(4) + GatherRow(5) + GatherRow(6) + GatherRow(7))[8 * s + q - 32];
    }
  }

  lemma {:induction false} GatherAt(s: nat, q: nat)
    requires s < 8 && q < 8
    ensures Gather[8 * s + q] == 8 * q + s
  {
    GatherRows();
    GatherRowsAt(s, q);
  }

  /** Every entry of the shuffle list names one of the 64 bytes. */
  lemma {:induction false} GatherInRange()
    ensures |Gather| == 64 && forall p :: 0 <= p < |Gather| ==> Gather[p] < 64
  {
    GatherRows();
    forall p | 0 <= p < 64
      ensures Gather[p] < 64
    {
      GatherAt(p / 8, p % 8);
    }
  }

  /** The order in which the vectors are written out: bit-reversed indices. */
  const Order: seq<nat> := [0, 4, 2, 6, 1, 5, 3, 7]

  /** `Order` reverses the three bits of a vector index. */
  lemma {:induction false} OrderBits(t0: nat, t1: nat, t2: nat)
    requires t0 < 2 && t1 < 2 && t2 < 2
    ensures Order[4 * t2 + 2 * t1 + t0] == 4 * t0 + 2 * t1 + t2
  {
    if t2 == 0 {
      if t1 == 0 { if t0 == 0 { assert Order[0] == 0; } else { assert Order[1] == 4; } }
      else { if t0 == 0 { assert Order[2] == 2; } else { assert Order[3] == 6; } }
    } else {
      if t1 == 0 { if t0 == 0 { assert Order[4] == 1; } else { assert Order[5] == 5; } }
      else { if t0 == 0 { assert Order[6] == 3; } else { assert Order[7] == 7; } }
    }
  }

  /** The three bits of an index below 8. */
  lemma {:induction false} Bits(t: nat) returns (t2: nat, t1: nat, t0: nat)
    requires t < 8
    ensures t2 < 2 && t1 < 2 && t0 < 2 && t == 4 * t2 + 2 * t1 + t0
  {
    var r := t;
    if r >= 4 { t2 := 1; r := r - 4; } else { t2 := 0; }
    if r >= 2 { t1 := 1; r := r - 2; } else { t1 := 0; }
    t0 := r;
  }

  /**
   * The `transmute` of `&[[u8; 8]; 64]` into `&[[u8; 64]; 8]`: the same 512
   * bytes, read as 8 rows of 64.
   */
  function Rows(a: seq<seq<Byte>>): (rows: seq<Vec64>)
    requires IsGrid(a, 64, 8)
    ensures |rows| == 8
  {
    GridUniform(a, 64, 8);
    FlattenLength(a, 8);
    MulIsTimes(8, 64);
    MulIsTimes(64, 8);
    LanesLength(Flatten(a), 64, 8);
    Lanes(Flatten(a), 64)
  }

  /** Row `r` of the reread input holds input rows `8 * r .. 8 * r + 7`. */
  lemma {:induction false} RowsAt(a: seq<seq<Byte>>, r: nat, q: nat, s: nat)
    requires IsGrid(a, 64, 8) && r < 8 && q < 8 && s < 8
    ensures Rows(a)[r][8 * q + s] == a[8 * r + q][s]
  {
    GridUniform(a, 64, 8);
    FlattenLength(a, 8);
    MulIsTimes(8, 64);
    MulIsTimes(64, 8);
    MulIsTimes(64, r);
    MulIsTimes(8, 8 * r + q);
    LanesAt(Flatten(a), 64, 8, r, 8 * q + s);
    FlattenAt(a, 8, 8 * r + q, s);
  }

  /** The vectors after the shuffle. */
  function Shuffled(a: seq<seq<Byte>>): (v: seq<Vec64>)
    requires IsGrid(a, 64, 8)
    ensures |v| == 8
  {
    GatherInRange();
    seq(8, r requires 0 <= r < 8 => Swizzle1(Rows(a)[r], Gather))
  }

  /** After the shuffle, vector `r` holds byte `s` of its 8 rows in block `s`. */
  lemma {:induction false} ShuffledAt(a: seq<seq<Byte>>, r: nat, s: nat, q: nat)
    requires IsGrid(a, 64, 8) && r < 8 && s < 8 && q < 8
    ensures Shuffled(a)[r][8 * s + q] == a[8 * r + q][s]
  {
    GatherAt(s, q);
    RowsAt(a, r, q, s);
  }

  /** The 8-byte pass over vector pairs `(2i, 2i + 1)`. */
  lemma {:induction false} Pass1At(v: seq<Vec64>, f: (Vec64, Vec64) -> (Vec64, Vec64), i: nat, s: nat, m: nat, h: nat, o: nat)
    requires IsButterfly(8, f) && |v| == 8
    requires i < 4 && m < 4 && s < 2 && h < 2 && o < 8
    ensures Stage(v, 1, f)[2 * i + s][16 * m + 8 * h + o] == v[2 * i + h][32 * s + 8 * m + o]
  {
    MulIsTimes(2, i);
    MulIsTimes(8, m);
    ButterflyAt(v, 1, 8, f, i, 0, m, o);
    var base, q := Mul(2, i) + 0, 2 * Mul(8, m) + o;
    assert 2 * i + s == base + s && 16 * m + 8 * h + o == q + 8 * h;
    assert 2 * i + h == base + h && 32 * s + 8 * m + o == 32 * s + Mul(8, m) + o;
    if s == 0 {
      if h == 0 { assert 2 * i + s == base && 16 * m + 8 * h + o == q; }
      else { assert 2 * i + s == base && 16 * m + 8 * h + o == q + 8; }
    } else {
      if h == 0 { assert 2 * i + s == base + 1 && 16 * m + 8 * h + o == q; }
      else { assert 2 * i + s == base + 1 && 16 * m + 8 * h + o == q + 8; }
    }
  }

  /** The 16-byte pass over vector pairs `(4i + j, 4i + j + 2)`. */
  lemma {:induction false} Pass2At(v: seq<Vec64>, f: (Vec64, Vec64) -> (Vec64, Vec64), i: nat, j: nat, s: nat, m: nat, h: nat, o: nat)
    requires IsButterfly(16, f) && |v| == 8
    requires i < 2 && j < 2 && m < 2 && s < 2 && h < 2 && o < 16
    ensures Stage(v, 2, f)[4 * i + j + 2 * s][32 * m + 16 * h + o] == v[4 * i + j + 2 * h][32 * s + 16 * m + o]
  {
    MulIsTimes(4, i);
    MulIsTimes(16, m);
    ButterflyAt(v, 2, 16, f, i, j, m, o);
    var base, q := Mul(4, i) + j, 2 * Mul(16, m) + o;
    assert 4 * i + j + 2 * s == base + 2 * s && 32 * m + 16 * h + o == q + 16 * h;
    assert 4 * i + j + 2 * h == base + 2 * h && 32 * s + 16 * m + o == 32 * s + Mul(16, m) + o;
    if s == 0 {
      if h == 0 { assert 4 * i + j + 2 * s == base && 32 * m + 16 * h + o == q; }
      else { assert 4 * i + j + 2 * s == base && 32 * m + 16 * h + o == q + 16; }
    } else {
      if h == 0 { assert 4 * i + j + 2 * s == base + 2 && 32 * m + 16 * h + o == q; }
      else { assert 4 * i + j + 2 * s == base + 2 && 32 * m + 16 * h + o == q + 16; }
    }
  }

  /** The 32-byte pass over vector pairs `(j, j + 4)`. */
  lemma {:induction false} Pass4At(v: seq<Vec64>, f: (Vec64, Vec64) -> (Vec64, Vec64), j: nat, s: nat, h: nat, o: nat)
    requires IsButterfly(32, f) && |v| == 8
    requires j < 4 && s < 2 && h < 2 && o < 32
    ensures Stage(v, 4, f)[j + 4 * s][32 * h + o] == v[j + 4 * h][32 * s + o]
  {
    MulIsTimes(8, 0);
    MulIsTimes(32, 0);
    ButterflyAt(v, 4, 32, f, 0, j, 0, o);
    var base, q := Mul(8, 0) + j, 2 * Mul(32, 0) + o;
    assert j + 4 * s == base + 4 * s && 32 * h + o == q + 32 * h;
    assert j + 4 * h == base + 4 * h && 32 * s + o == 32 * s + Mul(32, 0) + o;
    if s == 0 {
      if h == 0 { assert j + 4 * s == base && 32 * h + o == q; }
      else { assert j + 4 * s == base && 32 * h + o == q + 32; }
    } else {
      if h == 0 { assert j + 4 * s == base + 4 && 32 * h + o == q; }
      else { assert j + 4 * s == base + 4 && 32 * h + o == q + 32; }
    }
  }

  /** The three passes of `trans`, with steps `f1`, `f2` and `f3`. */
  function Passes(v: seq<Vec64>, f1: (Vec64, Vec64) -> (Vec64, Vec64), f2: (Vec64, Vec64) -> (Vec64, Vec64),
                  f3: (Vec64, Vec64) -> (Vec64, Vec64)): (w: seq<Vec64>)
    ensures |w| == |v|
  {
    Stage(Stage(Stage(v, 1, f1), 2, f2), 4, f3)
  }

  /** The last two passes, in the same digits as `PassesMove`. */
  lemma {:induction false} LastPassesMove(w1: seq<Vec64>, f2: (Vec64, Vec64) -> (Vec64, Vec64), f3: (Vec64, Vec64) -> (Vec64, Vec64),
                                          t0: nat, t1: nat, t2: nat, x0: nat, x1: nat, x2: nat, o: nat)
    requires IsButterfly(16, f2) && IsButterfly(32, f3) && |w1| == 8
    requires t0 < 2 && t1 < 2 && t2 < 2 && x0 < 2 && x1 < 2 && x2 < 2 && o < 8
    ensures Stage(Stage(w1, 2, f2), 4, f3)[4 * t0 + 2 * t1 + t2][32 * x2 + 16 * x1 + 8 * x0 + o]
         == w1[4 * x2 + 2 * x1 + t2][32 * t1 + 16 * t0 + 8 * x0 + o]
  {
    var w2 := Stage(w1, 2, f2);
    Pass4At(w2, f3, 2 * t1 + t2, t0, x2, 16 * x1 + 8 * x0 + o);
    assert Stage(w2, 4, f3)[4 * t0 + 2 * t1 + t2][32 * x2 + 16 * x1 + 8 * x0 + o]
        == w2[4 * x2 + 2 * t1 + t2][32 * t0 + 16 * x1 + 8 * x0 + o];
    Pass2At(w1, f2, x2, t2, t1, t0, x1, 8 * x0 + o);
  }

  /**
   * After the three passes, byte `o` of block `4 * x2 + 2 * x1 + x0` of vector
   * `4 * t0 + 2 * t1 + t2` is byte `o` of block `4 * t2 + 2 * t1 + t0` of vector
   * `4 * x2 + 2 * x1 + x0` before them: the passes transpose the 8 x 8 grid of
   * 8-byte blocks, with the vector index bit-reversed.
   */
  lemma {:induction false} PassesMove(v: seq<Vec64>, f1: (Vec64, Vec64) -> (Vec64, Vec64),
                                      f2: (Vec64, Vec64) -> (Vec64, Vec64), f3: (Vec64, Vec64) -> (Vec64, Vec64),
                                      t0: nat, t1: nat, t2: nat, x0: nat, x1: nat, x2: nat, o: nat)
    requires IsButterfly(8, f1) && IsButterfly(16, f2) && IsButterfly(32, f3) && |v| == 8
    requires t0 < 2 && t1 < 2 && t2 < 2 && x0 < 2 && x1 < 2 && x2 < 2 && o < 8
    ensures Passes(v, f1, f2, f3)[4 * t0 + 2 * t1 + t2][32 * x2 + 16 * x1 + 8 * x0 + o]
         == v[4 * x2 + 2 * x1 + x0][32 * t2 + 16 * t1 + 8 * t0 + o]
  {
    var w1 := Stage(v, 1, f1);
    assert Passes(v, f1, f2, f3) == Stage(Stage(w1, 2, f2), 4, f3);
    LastPassesMove(w1, f2, f3, t0, t1, t2, x0, x1, x2, o);
    Pass1At(v, f1, 2 * x2 + x1, t2, 2 * t1 + t0, x0, o);
    assert 4 * x2 + 2 * x1 + t2 == 2 * (2 * x2 + x1) + t2;
    assert 32 * t1 + 16 * t0 + 8 * x0 + o == 16 * (2 * t1 + t0) + 8 * x0 + o;
    assert 32 * t2 + 16 * t1 + 8 * t0 + o == 32 * t2 + 8 * (2 * t1 + t0) + o;
  }

  /** The vectors after the passes, in `Order`, are the 8 x 8 transpose of the 8-byte blocks. */
  lemma {:induction false} PassesOrder(v: seq<Vec64>, f1: (Vec64, Vec64) -> (Vec64, Vec64),
                                       f2: (Vec64, Vec64) -> (Vec64, Vec64), f3: (Vec64, Vec64) -> (Vec64, Vec64),
                                       t: nat, x: nat, o: nat)
    requires IsButterfly(8, f1) && IsButterfly(16, f2) && IsButterfly(32, f3) && |v| == 8
    requires t < 8 && x < 8 && o < 8
    ensures Order[t] < 8 && Passes(v, f1, f2, f3)[Order[t]][8 * x + o] == v[x][8 * t + o]
  {
    var t2, t1, t0 := Bits(t);
    var x2, x1, x0 := Bits(x);
    OrderBits(t0, t1, t2);
    PassesMove(v, f1, f2, f3, t0, t1, t2, x0, x1, x2, o);
  }

  /**
   * Every byte is in its place: row `t` of the result, vector `Order[t]`
   * after the passes, holds byte `t` of every input row.
   */
  lemma {:induction false} PassesTranspose(a: seq<seq<Byte>>, f1: (Vec64, Vec64) -> (Vec64, Vec64),
                                           f2: (Vec64, Vec64) -> (Vec64, Vec64), f3: (Vec64, Vec64) -> (Vec64, Vec64),
                                           t: nat, e: nat)
    requires IsButterfly(8, f1) && IsButterfly(16, f2) && IsButterfly(32, f3)
    requires IsGrid(a, 64, 8) && t < 8 && e < 64
    ensures Order[t] < 8 && Passes(Shuffled(a), f1, f2, f3)[Order[t]][e] == a[e][t]
  {
    var x, o := e / 8, e % 8;
    PassesOrder(Shuffled(a), f1, f2, f3, t, x, o);
    ShuffledAt(a, x, t, o);
  }

  /** What `trans` writes into `b`: the passed vectors in `Order`. */
  function Transpose(a: seq<seq<Byte>>): (b: seq<Vec64>)
    requires IsGrid(a, 64, 8)
    ensures |b| == 8
  {
    var w := Passes(Shuffled(a), Int8, Int16, Int32);
    seq(8, t requires 0 <= t < 8 => w[Order[t]])
  }

  /** With the steps of `interleave_u8`, vector `Order[t]` after the passes is byte `t` of every row. */
  lemma {:induction false} PassedTranspose(a: seq<seq<Byte>>)
    requires IsGrid(a, 64, 8)
    ensures forall t, e :: 0 <= t < 8 && 0 <= e < 64 ==>
      Order[t] < 8 && Passes(Shuffled(a), Int8, Int16, Int32)[Order[t]][e] == a[e][t]
  {
    StepsAreButterflies();
    forall t, e | 0 <= t < 8 && 0 <= e < 64
      ensures Order[t] < 8 && Passes(Shuffled(a), Int8, Int16, Int32)[Order[t]][e] == a[e][t]
    {
      PassesTranspose(a, Int8, Int16, Int32, t, e);
    }
  }

  /** `Transpose` is the transpose of the 64 x 8 grid. */
  lemma {:induction false} TransposeIsTransposed(a: seq<seq<Byte>>)
    requires IsGrid(a, 64, 8)
    ensures Transpose(a) == Transposed(a, 64, 8)
  {
    PassedTranspose(a);
    GridEqual(Transpose(a), Transposed(a, 64, 8), 8, 64);
  }

  /*
   * The three loops of `trans`.  Each takes the step it applies as `f`
   * (`trans` passes `int8`, `int16` and `int32`), which keeps the bodies of
   * the steps out of the loop proofs.
   */

  /** The first loop, in place: `f` on vectors `(2i, 2i + 1)`. */
  method Pass1(v: array<Vec64>, f: (Vec64, Vec64) -> (Vec64, Vec64))
    requires v.Length == 8
    modifies v
    ensures v[..] == Stage(old(v[..]), 1, f)
  {
    ghost var w0 := v[..];
    ghost var w1 := Stage(w0, 1, f);
    for i := 0 to 4
      invariant forall r :: 0 <= r < 8 ==> v[r] == if r < 2 * i then w1[r] else w0[r]
    {
      MulIsTimes(2, i);
      StagePair(w0, 1, f, i, 0);
      var (a1, a2) := f(v[2 * i], v[2 * i + 1]);
      v[2 * i], v[2 * i + 1] := a1, a2;
    }
  }

  /** The second loop, in place: `f` on vectors `(4i + j, 4i + j + 2)`, the loop over `j` in `PassBlock`. */
  method Pass2(v: array<Vec64>, f: (Vec64, Vec64) -> (Vec64, Vec64))
    requires v.Length == 8
    modifies v
    ensures v[..] == Stage(old(v[..]), 2, f)
  {
    ghost var w1 := v[..];
    ghost var w2 := Stage(w1, 2, f);
    for i := 0 to 2
      invariant forall r :: 0 <= r < 8 ==> v[r] == if r < 4 * i then w2[r] else w1[r]
    {
      MulIsTimes(4, i);
      forall r | 4 * i <= r < 4 * i + 2
        ensures w2[r] == f(w1[r], w1[r + 2]).0
      {
        StagePair(w1, 2, f, i, r - 4 * i);
      }
      forall r | 4 * i + 2 <= r < 4 * i + 4
        ensures w2[r] == f(w1[r - 2], w1[r]).1
      {
        StagePair(w1, 2, f, i, r - 4 * i - 2);
      }
      PassBlock(v, f, 2, 4 * i);
    }
  }

  /** The third loop, in place: `f` on vectors `(i, i + 4)`. */
  method Pass3(v: array<Vec64>, f: (Vec64, Vec64) -> (Vec64, Vec64))
    requires v.Length == 8
    modifies v
    ensures v[..] == Stage(old(v[..]), 4, f)
  {
    ghost var w2 := v[..];
    ghost var w3 := Stage(w2, 4, f);
    MulIsTimes(8, 0);
    for i := 0 to 4
      invariant forall r :: 0 <= r < 8 ==> v[r] == if r < i || 4 <= r < 4 + i then w3[r] else w2[r]
    {
      StagePair(w2, 4, f, 0, i);
      var (a1, a2) := f(v[i], v[i + 4]);
      v[i], v[i + 4] := a1, a2;
    }
  }

  /** The final `transmute`: vector `Order[t]` becomes row `t` of `b`. */
  method WriteOut(v: array<Vec64>, b: array2<Byte>)
    requires v.Length == 8 && b.Length0 == 8 && b.Length1 == 64
    modifies b
    ensures forall t, e :: 0 <= t < 8 && 0 <= e < 64 ==> b[t, e] == v[Order[t]][e]
  {
    forall t, e | 0 <= t < 8 && 0 <= e < 64 {
      b[t, e] := v[Order[t]][e];
    }
  }

  /**
   * `trans`: shuffle the reread input, run the three passes in place over
   * the 8 vectors, and write the vectors out in `Order`.
   */
  method Trans(a: seq<seq<Byte>>, b: array2<Byte>)
    requires IsGrid(a, 64, 8) && b.Length0 == 8 && b.Length1 == 64
    modifies b
    ensures forall t, e :: 0 <= t < 8 && 0 <= e < 64 ==> b[t, e] == a[e][t]
    ensures Contents(b) == Transposed(a, 64, 8)
  {
    var w0 := Shuffled(a);
    var v := new Vec64[8](r requires 0 <= r < 8 => w0[r]);
    assert v[..] == w0;
    Pass1(v, Int8);
    Pass2(v, Int16);
    Pass3(v, Int32);
    WriteOut(v, b);
    PassedTranspose(a);
    GridEqual(Contents(b), Transposed(a, 64, 8), 8, 64);
  }
}
