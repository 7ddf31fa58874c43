/**
 * `transpose_64x16_u8::trans`: 64 rows of 16 bytes to 16 rows of 64 bytes
 * with SIMD.  The input is reread as 16 vectors of 64 bytes, each vector is
 * shuffled so that byte `s` of its 4 rows comes first, four passes of
 * butterflies (4-, 8-, 16- and 32-byte blocks) move every byte to its row,
 * and the vectors are written out in bit-reversed order.
 */
module Transpose64x16 {
  import opened Arith
  import opened SimdU8
  import opened InterleaveU8
  import opened Butterfly
  import opened NaiveTranspose

  /** The shuffle applied to every vector: byte `s` of each of its 4 rows in turn. */
  const Gather: seq<nat> := Gather0 + Gather1 + Gather2 + Gather3

  const Gather0: seq<nat> :=
    [0, 16, 32, 48] +
    [1, 17, 33, 49] +
    [2, 18, 34, 50] +
    [3, 19, 35, 51]

  const Gather1: seq<nat> :=
    [4, 20, 36, 52] +
    [5, 21, 37, 53] +
    [6, 22, 38, 54] +
    [7, 23, 39, 55]

  const Gather2: seq<nat> :=
    [8, 24, 40, 56] +
    [9, 25, 41, 57] +
    [10, 26, 42, 58] +
    [11, 27, 43, 59]

  const Gather3: seq<nat> :=
    [12, 28, 44, 60] +
    [13, 29, 45, 61] +
    [14, 30, 46, 62] +
    [15, 31, 47, 63]

  /** Row `s` of the shuffle list: byte `s` of each of the 4 rows. */
  function GatherRow(s: nat): (g: seq<nat>)
    ensures |g| == 4 && forall q :: 0 <= q < 4 ==> g[q] == 16 * q + s
  {
    seq(4, q requires 0 <= q < 4 => 16 * q + s)
  }

  /** Rows `4 * k .. 4 * k + 3` of the shuffle list. */
  function GatherQuarter(k: nat): (g: seq<nat>)
    ensures |g| == 16
  {
    GatherRow(4 * k) + GatherRow(4 * k + 1) + GatherRow(4 * k + 2) + GatherRow(4 * k + 3)
  }

  lemma {:induction false} GatherRows()
    ensures Gather == GatherQuarter(0) + GatherQuarter(1) + GatherQuarter(2) + GatherQuarter(3)
  {
    assert Gather0 == GatherQuarter(0) by {
      assert GatherRow(0) == [0, 16, 32, 48];
      assert GatherRow(1) == [1, 17, 33, 49];
      assert GatherRow(2) == [2, 18, 34, 50];
      assert GatherRow(3) == [3, 19, 35, 51];
    }
    assert Gather1 == GatherQuarter(1) by {
      assert GatherRow(4) == [4, 20, 36, 52];
      assert GatherRow(5) == [5, 21, 37, 53];
      assert GatherRow(6) == [6, 22, 38, 54];
      assert GatherRow(7) == [7, 23, 39, 55];
    }
    assert Gather2 == GatherQuarter(2) by {
      assert GatherRow(8) == [8, 24, 40, 56];
      assert GatherRow(9) == [9, 25, 41, 57];
      assert GatherRow(10) == [10, 26, 42, 58];
      assert GatherRow(11) == [11, 27, 43, 59];
    }
    assert Gather3 == GatherQuarter(3) by {
      assert GatherRow(12) == [12, 28, 44, 60];
      assert GatherRow(13) == [13, 29, 45, 61];
      assert GatherRow(14) == [14, 30, 46, 62];
      assert GatherRow(15) == [15, 31, 47, 63];
    }
  }

  lemma {:induction false} GatherQuarterAt(k: nat, s: nat, q: nat)
    requires s < 4 && q < 4
    ensures GatherQuarter(k)[4 * s + q] == 16 * q + 4 * k + s
  {
    var g := GatherQuarter(k);
    if s < 2 {
      assert g[4 * s + q] == (GatherRow(4 * k) + GatherRow(4 * k + 1))[4 * s + q];
    } else {
      assert g[4 * s + q] == (GatherRow(4 * k + 2) + GatherRow(4 * k + 3))[4 * s + q - 8];
    }
  }

  lemma {:induction false} GatherAt(s: nat, q: nat)
    requires s < 16 && q < 4
    ensures Gather[4 * s + q] == 16 * q + s
  {
    GatherRows();
    var g0, g1, g2, g3 := GatherQuarter(0), GatherQuarter(1), GatherQuarter(2), GatherQuarter(3);
    if s < 4 {
      GatherQuarterAt(0, s, q);
      assert Gather[4 * s + q] == g0[4 * s + q];
    } else if s < 8 {
      GatherQuarterAt(1, s - 4, q);
      assert Gather[4 * s + q] == g1[4 * (s - 4) + q];
    } else if s < 12 {
      GatherQuarterAt(2, s - 8, q);
      assert Gather[4 * s + q] == g2[4 * (s - 8) + q];
    } else {
      GatherQuarterAt(3, s - 12, q);
      assert Gather[4 * s + q] == g3[4 * (s - 12) + q];
    }
  }

  /** Every entry of the shuffle list names one of the 64 bytes. */
  lemma {:induction false} GatherInRange()
    ensures |Gather| == 64 && forall p :: 0 <= p < |Gather| ==> Gather[p] < 64
  {
    GatherRows();
    forall p | 0 <= p < 64
      ensures Gather[p] < 64
    {
      GatherAt(p / 4, p % 4);
    }
  }

  /** The order in which the vectors are written out: bit-reversed indices. */
  const Order: seq<nat> := [0, 8, 4, 12, 2, 10, 6, 14, 1, 9, 5, 13, 3, 11, 7, 15]

  /** `Order` reverses the four bits of a vector index. */
  lemma {:induction false} OrderBits(t0: nat, t1: nat, t2: nat, t3: nat)
    requires t0 < 2 && t1 < 2 && t2 < 2 && t3 < 2
    ensures Order[8 * t3 + 4 * t2 + 2 * t1 + t0] == 8 * t0 + 4 * t1 + 2 * t2 + t3
  {
    if t3 == 0 {
      if t2 == 0 {
        if t1 == 0 {
          if t0 == 0 {
            assert Order[0] == 0;
          } else {
            assert Order[1] == 8;
          }
        } else {
          if t0 == 0 {
            assert Order[2] == 4;
          } else {
            assert Order[3] == 12;
          }
        }
      } else {
        if t1 == 0 {
          if t0 == 0 {
            assert Order[4] == 2;
          } else {
            assert Order[5] == 10;
          }
        } else {
          if t0 == 0 {
            assert Order[6] == 6;
          } else {
            assert Order[7] == 14;
          }
        }
      }
    } else {
      if t2 == 0 {
        if t1 == 0 {
          if t0 == 0 {
            assert Order[8] == 1;
          } else {
            assert Order[9] == 9;
          }
        } else {
          if t0 == 0 {
            assert Order[10] == 5;
          } else {
            assert Order[11] == 13;
          }
        }
      } else {
        if t1 == 0 {
          if t0 == 0 {
            assert Order[12] == 3;
          } else {
            assert Order[13] == 11;
          }
        } else {
          if t0 == 0 {
            assert Order[14] == 7;
          } else {
            assert Order[15] == 15;
          }
        }
      }
    }
  }

  /** The four bits of an index below 16. */
  lemma {:induction false} Bits(t: nat) returns (t3: nat, t2: nat, t1: nat, t0: nat)
    requires t < 16
    ensures t3 < 2 && t2 < 2 && t1 < 2 && t0 < 2 && t == 8 * t3 + 4 * t2 + 2 * t1 + t0
  {
    var r := t;
    if r >= 8 { t3 := 1; r := r - 8; } else { t3 := 0; }
    if r >= 4 { t2 := 1; r := r - 4; } else { t2 := 0; }
    if r >= 2 { t1 := 1; r := r - 2; } else { t1 := 0; }
    t0 := r;
  }

  /**
   * The `transmute` of `&[[u8; 16]; 64]` into `&[[u8; 64]; 16]`: the same
   * 1024 bytes, read as 16 rows of 64.
   */
  function Rows(a: seq<seq<Byte>>): (rows: seq<Vec64>)
    requires IsGrid(a, 64, 16)
    ensures |rows| == 16
  {
    GridUniform(a, 64, 16);
    FlattenLength(a, 16);
    MulIsTimes(16, 64);
    MulIsTimes(64, 16);
    LanesLength(Flatten(a), 64, 16);
    Lanes(Flatten(a), 64)
  }

  /** Row `r` of the reread input holds input rows `4 * r .. 4 * r + 3`. */
  lemma {:induction false} RowsAt(a: seq<seq<Byte>>, r: nat, q: nat, s: nat)
    requires IsGrid(a, 64, 16) && r < 16 && q < 4 && s < 16
    ensures Rows(a)[r][16 * q + s] == a[4 * r + q][s]
  {
    GridUniform(a, 64, 16);
    FlattenLength(a, 16);
    MulIsTimes(16, 64);
    MulIsTimes(64, 16);
    MulIsTimes(64, r);
    MulIsTimes(16, 4 * r + q);
    LanesAt(Flatten(a), 64, 16, r, 16 * q + s);
    FlattenAt(a, 16, 4 * r + q, s);
  }

  /** The vectors after the shuffle. */
  function Shuffled(a: seq<seq<Byte>>): (v: seq<Vec64>)
    requires IsGrid(a, 64, 16)
    ensures |v| == 16
  {
    GatherInRange();
    seq(16, r requires 0 <= r < 16 => Swizzle1(Rows(a)[r], Gather))
  }

  /** After the shuffle, vector `r` holds byte `s` of its 4 rows in block `s`. */
  lemma {:induction false} ShuffledAt(a: seq<seq<Byte>>, r: nat, s: nat, q: nat)
    requires IsGrid(a, 64, 16) && r < 16 && s < 16 && q < 4
    ensures Shuffled(a)[r][4 * s + q] == a[4 * r + q][s]
  {
    GatherAt(s, q);
    RowsAt(a, r, q, s);
  }

  /** The 4-byte pass over vector pairs `(2i, 2i + 1)`. */
  lemma {:induction false} Pass1At(v: seq<Vec64>, f: (Vec64, Vec64) -> (Vec64, Vec64), i: nat, s: nat, m: nat, h: nat, o: nat)
    requires IsButterfly(4, f) && |v| == 16
    requires i < 8 && m < 8 && s < 2 && h < 2 && o < 4
    ensures Stage(v, 1, f)[2 * i + s][8 * m + 4 * h + o] == v[2 * i + h][32 * s + 4 * m + o]
  {
    MulIsTimes(2, i);
    MulIsTimes(4, m);
    ButterflyAt(v, 1, 4, f, i, 0, m, o);
    var base, q := Mul(2, i) + 0, 2 * Mul(4, m) + o;
    assert 2 * i + s == base + s && 8 * m + 4 * h + o == q + 4 * h;
    assert 2 * i + h == base + h && 32 * s + 4 * m + o == 32 * s + Mul(4, m) + o;
    if s == 0 {
      if h == 0 { assert 2 * i + s == base && 8 * m + 4 * h + o == q; }
      else { assert 2 * i + s == base && 8 * m + 4 * h + o == q + 4; }
    } else {
      if h == 0 { assert 2 * i + s == base + 1 && 8 * m + 4 * h + o == q; }
      else { assert 2 * i + s == base + 1 && 8 * m + 4 * h + o == q + 4; }
    }
  }

  /** The 8-byte pass over vector pairs `(4i + j, 4i + j + 2)`. */
  lemma {:induction false} Pass2At(v: seq<Vec64>, f: (Vec64, Vec64) -> (Vec64, Vec64), i: nat, j: nat, s: nat, m: nat, h: nat, o: nat)
    requires IsButterfly(8, f) && |v| == 16
    requires i < 4 && j < 2 && m < 4 && s < 2 && h < 2 && o < 8
    ensures Stage(v, 2, f)[4 * i + j + 2 * s][16 * m + 8 * h + o] == v[4 * i + j + 2 * h][32 * s + 8 * m + o]
  {
    MulIsTimes(4, i);
    MulIsTimes(8, m);
    ButterflyAt(v, 2, 8, f, i, j, m, o);
    var base, q := Mul(4, i) + j, 2 * Mul(8, m) + o;
    assert 4 * i + j + 2 * s == base + 2 * s && 16 * m + 8 * h + o == q + 8 * h;
    assert 4 * i + j + 2 * h == base + 2 * h && 32 * s + 8 * m + o == 32 * s + Mul(8, m) + o;
    if s == 0 {
      if h == 0 { assert 4 * i + j + 2 * s == base && 16 * m + 8 * h + o == q; }
      else { assert 4 * i + j + 2 * s == base && 16 * m + 8 * h + o == q + 8; }
    } else {
      if h == 0 { assert 4 * i + j + 2 * s == base + 2 && 16 * m + 8 * h + o == q; }
      else { assert 4 * i + j + 2 * s == base + 2 && 16 * m + 8 * h + o == q + 8; }
    }
  }

  /** The 16-byte pass over vector pairs `(8i + j, 8i + j + 4)`. */
  lemma {:induction false} Pass4At(v: seq<Vec64>, f: (Vec64, Vec64) -> (Vec64, Vec64), i: nat, j: nat, s: nat, m: nat, h: nat, o: nat)
    requires IsButterfly(16, f) && |v| == 16
    requires i < 2 && j < 4 && m < 2 && s < 2 && h < 2 && o < 16
    ensures Stage(v, 4, f)[8 * i + j + 4 * s][32 * m + 16 * h + o] == v[8 * i + j + 4 * h][32 * s + 16 * m + o]
  {
    MulIsTimes(8, i);
    MulIsTimes(16, m);
    ButterflyAt(v, 4, 16, f, i, j, m, o);
    var base, q := Mul(8, i) + j, 2 * Mul(16, m) + o;
    assert 8 * i + j + 4 * s == base + 4 * s && 32 * m + 16 * h + o == q + 16 * h;
    assert 8 * i + j + 4 * h == base + 4 * h && 32 * s + 16 * m + o == 32 * s + Mul(16, m) + o;
    if s == 0 {
      if h == 0 { assert 8 * i + j + 4 * s == base && 32 * m + 16 * h + o == q; }
      else { assert 8 * i + j + 4 * s == base && 32 * m + 16 * h + o == q + 16; }
    } else {
      if h == 0 { assert 8 * i + j + 4 * s == base + 4 && 32 * m + 16 * h + o == q; }
      else { assert 8 * i + j + 4 * s == base + 4 && 32 * m + 16 * h + o == q + 16; }
    }
  }

  /** The 32-byte pass over vector pairs `(j, j + 8)`. */
  lemma {:induction false} Pass8At(v: seq<Vec64>, f: (Vec64, Vec64) -> (Vec64, Vec64), j: nat, s: nat, h: nat, o: nat)
    requires IsButterfly(32, f) && |v| == 16
    requires j < 8 && s < 2 && h < 2 && o < 32
    ensures Stage(v, 8, f)[j + 8 * s][32 * h + o] == v[j + 8 * h][32 * s + o]
  {
    MulIsTimes(16, 0);
    MulIsTimes(32, 0);
    ButterflyAt(v, 8, 32, f, 0, j, 0, o);
    var base, q := Mul(16, 0) + j, 2 * Mul(32, 0) + o;
    assert j + 8 * s == base + 8 * s && 32 * h + o == q + 32 * h;
    assert j + 8 * h == base + 8 * h && 32 * s + o == 32 * s + Mul(32, 0) + o;
    if s == 0 {
      if h == 0 { assert j + 8 * s == base && 32 * h + o == q; }
      else { assert j + 8 * s == base && 32 * h + o == q + 32; }
    } else {
      if h == 0 { assert j + 8 * s == base + 8 && 32 * h + o == q; }
      else { assert j + 8 * s == base + 8 && 32 * h + o == q + 32; }
    }
  }

  /** The four passes of `trans`, with steps `f1` .. `f4`. */
  function Passes(v: seq<Vec64>, f1: (Vec64, Vec64) -> (Vec64, Vec64), f2: (Vec64, Vec64) -> (Vec64, Vec64), f3: (Vec64, Vec64) -> (Vec64, Vec64), f4: (Vec64, Vec64) -> (Vec64, Vec64)): (w: seq<Vec64>)
    ensures |w| == |v|
  {
    Stage(Stage(Stage(Stage(v, 1, f1), 2, f2), 4, f3), 8, f4)
  }

  /** The last two passes, in the digits of `PassesMove`. */
  lemma {:induction false} LastPassesMove(w2: seq<Vec64>, f3: (Vec64, Vec64) -> (Vec64, Vec64), f4: (Vec64, Vec64) -> (Vec64, Vec64),
                                          p0: nat, p1: nat, p2: nat, p3: nat, e2: nat, e3: nat, e4: nat, e5: nat, o: nat)
    requires IsButterfly(16, f3) && IsButterfly(32, f4) && |w2| == 16
    requires p0 < 2 && p1 < 2 && p2 < 2 && p3 < 2 && e2 < 2 && e3 < 2 && e4 < 2 && e5 < 2 && o < 4
    ensures Stage(Stage(w2, 4, f3), 8, f4)[8 * p3 + 4 * p2 + 2 * p1 + p0][32 * e5 + 16 * e4 + 8 * e3 + 4 * e2 + o]
         == w2[8 * e5 + 4 * e4 + 2 * p1 + p0][32 * p2 + 16 * p3 + 8 * e3 + 4 * e2 + o]
  {
    var w3 := Stage(w2, 4, f3);
    Pass8At(w3, f4, 4 * p2 + 2 * p1 + p0, p3, e5, 16 * e4 + 8 * e3 + 4 * e2 + o);
    assert Stage(w3, 8, f4)[8 * p3 + 4 * p2 + 2 * p1 + p0][32 * e5 + 16 * e4 + 8 * e3 + 4 * e2 + o]
        == w3[8 * e5 + 4 * p2 + 2 * p1 + p0][32 * p3 + 16 * e4 + 8 * e3 + 4 * e2 + o];
    Pass4At(w2, f3, e5, 2 * p1 + p0, p2, p3, e4, 8 * e3 + 4 * e2 + o);
  }

  /** The first pass, in the digits of `PassesMove`. */
  lemma {:induction false} FirstPassMove(v: seq<Vec64>, f1: (Vec64, Vec64) -> (Vec64, Vec64),
                                         p0: nat, p1: nat, p2: nat, p3: nat, e2: nat, e3: nat, e4: nat, e5: nat, o: nat)
    requires IsButterfly(4, f1) && |v| == 16
    requires p0 < 2 && p1 < 2 && p2 < 2 && p3 < 2 && e2 < 2 && e3 < 2 && e4 < 2 && e5 < 2 && o < 4
    ensures Stage(v, 1, f1)[8 * e5 + 4 * e4 + 2 * e3 + p0][32 * p1 + 16 * p2 + 8 * p3 + 4 * e2 + o]
         == v[8 * e5 + 4 * e4 + 2 * e3 + e2][32 * p0 + 16 * p1 + 8 * p2 + 4 * p3 + o]
  {
    Pass1At(v, f1, 4 * e5 + 2 * e4 + e3, p0, 4 * p1 + 2 * p2 + p3, e2, o);
  }

  /** The first two passes, in the digits of `PassesMove`. */
  lemma {:induction false} FirstPassesMove(v: seq<Vec64>, f1: (Vec64, Vec64) -> (Vec64, Vec64), f2: (Vec64, Vec64) -> (Vec64, Vec64),
                                           p0: nat, p1: nat, p2: nat, p3: nat, e2: nat, e3: nat, e4: nat, e5: nat, o: nat)
    requires IsButterfly(4, f1) && IsButterfly(8, f2) && |v| == 16
    requires p0 < 2 && p1 < 2 && p2 < 2 && p3 < 2 && e2 < 2 && e3 < 2 && e4 < 2 && e5 < 2 && o < 4
    ensures Stage(Stage(v, 1, f1), 2, f2)[8 * e5 + 4 * e4 + 2 * p1 + p0][32 * p2 + 16 * p3 + 8 * e3 + 4 * e2 + o]
         == v[8 * e5 + 4 * e4 + 2 * e3 + e2][32 * p0 + 16 * p1 + 8 * p2 + 4 * p3 + o]
  {
    var w1 := Stage(v, 1, f1);
    Pass2At(w1, f2, 2 * e5 + e4, p0, p1, 2 * p2 + p3, e3, 4 * e2 + o);
    FirstPassMove(v, f1, p0, p1, p2, p3, e2, e3, e4, e5, o);
  }

  /**
   * After the four passes, byte `o` of block `8 * e5 + 4 * e4 + 2 * e3 + e2`
   * of vector `8 * p3 + 4 * p2 + 2 * p1 + p0` is byte `o` of block
   * `8 * p0 + 4 * p1 + 2 * p2 + p3` of vector `8 * e5 + 4 * e4 + 2 * e3 + e2`
   * before them: the passes transpose the 16 x 16 grid of 4-byte blocks,
   * with the vector index bit-reversed.
   */
  lemma {:induction false} PassesMove(v: seq<Vec64>, f1: (Vec64, Vec64) -> (Vec64, Vec64), f2: (Vec64, Vec64) -> (Vec64, Vec64), f3: (Vec64, Vec64) -> (Vec64, Vec64), f4: (Vec64, Vec64) -> (Vec64, Vec64),
                                      p0: nat, p1: nat, p2: nat, p3: nat, e2: nat, e3: nat, e4: nat, e5: nat, o: nat)
    requires IsButterfly(4, f1) && IsButterfly(8, f2) && IsButterfly(16, f3) && IsButterfly(32, f4) && |v| == 16
    requires p0 < 2 && p1 < 2 && p2 < 2 && p3 < 2 && e2 < 2 && e3 < 2 && e4 < 2 && e5 < 2 && o < 4
    ensures Passes(v, f1, f2, f3, f4)[8 * p3 + 4 * p2 + 2 * p1 + p0][32 * e5 + 16 * e4 + 8 * e3 + 4 * e2 + o]
         == v[8 * e5 + 4 * e4 + 2 * e3 + e2][32 * p0 + 16 * p1 + 8 * p2 + 4 * p3 + o]
  {
    var w2 := Stage(Stage(v, 1, f1), 2, f2);
    LastPassesMove(w2, f3, f4, p0, p1, p2, p3, e2, e3, e4, e5, o);
    FirstPassesMove(v, f1, f2, p0, p1, p2, p3, e2, e3, e4, e5, o);
  }

  /** The vectors after the passes, in `Order`, are the 16 x 16 transpose of the 4-byte blocks. */
  lemma {:induction false} PassesOrder(v: seq<Vec64>, f1: (Vec64, Vec64) -> (Vec64, Vec64), f2: (Vec64, Vec64) -> (Vec64, Vec64), f3: (Vec64, Vec64) -> (Vec64, Vec64), f4: (Vec64, Vec64) -> (Vec64, Vec64), t: nat, x: nat, o: nat)
    requires IsButterfly(4, f1) && IsButterfly(8, f2) && IsButterfly(16, f3) && IsButterfly(32, f4) && |v| == 16
    requires t < 16 && x < 16 && o < 4
    ensures Order[t] < 16 && Passes(v, f1, f2, f3, f4)[Order[t]][4 * x + o] == v[x][4 * t + o]
  {
    var t3, t2, t1, t0 := Bits(t);
    var x3, x2, x1, x0 := Bits(x);
    OrderBits(t0, t1, t2, t3);
    PassesMove(v, f1, f2, f3, f4, t3, t2, t1, t0, x0, x1, x2, x3, o);
  }

  /**
   * Every byte is in its place: row `t` of the result, vector `Order[t]`
   * after the passes, holds byte `t` of every input row.
   */
  lemma {:induction false} PassesTranspose(a: seq<seq<Byte>>, f1: (Vec64, Vec64) -> (Vec64, Vec64), f2: (Vec64, Vec64) -> (Vec64, Vec64), f3: (Vec64, Vec64) -> (Vec64, Vec64), f4: (Vec64, Vec64) -> (Vec64, Vec64), t: nat, e: nat)
    requires IsButterfly(4, f1) && IsButterfly(8, f2) && IsButterfly(16, f3) && IsButterfly(32, f4)
    requires IsGrid(a, 64, 16) && t < 16 && e < 64
    ensures Order[t] < 16 && Passes(Shuffled(a), f1, f2, f3, f4)[Order[t]][e] == a[e][t]
  {
    var x, o := e / 4, e % 4;
    PassesOrder(Shuffled(a), f1, f2, f3, f4, t, x, o);
    ShuffledAt(a, x, t, o);
  }

  /** What `trans` writes into `b`: the passed vectors in `Order`. */
  function Transpose(a: seq<seq<Byte>>): (b: seq<Vec64>)
    requires IsGrid(a, 64, 16)
    ensures |b| == 16
  {
    var w := Passes(Shuffled(a), Int4, Int8, Int16, Int32);
    seq(16, t requires 0 <= t < 16 => w[Order[t]])
  }

  /** With the steps of `interleave_u8`, vector `Order[t]` after the passes is byte `t` of every row. */
  lemma {:induction false} PassedTranspose(a: seq<seq<Byte>>)
    requires IsGrid(a, 64, 16)
    ensures forall t, e :: 0 <= t < 16 && 0 <= e < 64 ==>
      Order[t] < 16 && Passes(Shuffled(a), Int4, Int8, Int16, Int32)[Order[t]][e] == a[e][t]
  {
    StepsAreButterflies();
    forall t, e | 0 <= t < 16 && 0 <= e < 64
      ensures Order[t] < 16 && Passes(Shuffled(a), Int4, Int8, Int16, Int32)[Order[t]][e] == a[e][t]
    {
      PassesTranspose(a, Int4, Int8, Int16, Int32, t, e);
    }
  }

  /** `Transpose` is the transpose of the 64 x 16 grid. */
  lemma {:induction false} TransposeIsTransposed(a: seq<seq<Byte>>)
    requires IsGrid(a, 64, 16)
    ensures Transpose(a) == Transposed(a, 64, 16)
  {
    PassedTranspose(a);
    GridEqual(Transpose(a), Transposed(a, 64, 16), 16, 64);
  }

  /*
   * The four loops of `trans`.  Each takes the step it applies as `f`
   * (`trans` passes `int4`, `int8`, `int16` and `int32`), which keeps the
   * bodies of the steps out of the loop proofs.
   */

  /** The first loop, in place: `f` on vectors `(2i, 2i + 1)`. */
  method Pass1(v: array<Vec64>, f: (Vec64, Vec64) -> (Vec64, Vec64))
    requires v.Length == 16
    modifies v
    ensures v[..] == Stage(old(v[..]), 1, f)
  {
    ghost var w0 := v[..];
    ghost var w1 := Stage(w0, 1, f);
    for i := 0 to 8
      invariant forall r :: 0 <= r < 16 ==> v[r] == if r < 2 * i then w1[r] else w0[r]
    {
      MulIsTimes(2, i);
      StagePair(w0, 1, f, i, 0);
      var (a1, a2) := f(v[2 * i], v[2 * i + 1]);
      v[2 * i], v[2 * i + 1] := a1, a2;
    }
  }

  /** The second loop, in place: `f` on vectors `(4i + j, 4i + j + 2)`, the loop over `j` in `PassBlock`. */
  method Pass2(v: array<Vec64>, f: (Vec64, Vec64) -> (Vec64, Vec64))
    requires v.Length == 16
    modifies v
    ensures v[..] == Stage(old(v[..]), 2, f)
  {
    ghost var w1 := v[..];
    ghost var w2 := Stage(w1, 2, f);
    for i := 0 to 4
      invariant forall r :: 0 <= r < 16 ==> v[r] == if r < 4 * i then w2[r] else w1[r]
    {
      MulIsTimes(4, i);
      forall r | 4 * i <= r < 4 * i + 2
        ensures w2[r] == f(w1[r], w1[r + 2]).0
      {
        StagePair(w1, 2, f, i, r - 4 * i);
      }
      forall r | 4 * i + 2 <= r < 4 * i + 4
        ensures w2[r] == f(w1[r - 2], w1[r]).1
      {
        StagePair(w1, 2, f, i, r - 4 * i - 2);
      }
      PassBlock(v, f, 2, 4 * i);
    }
  }

  /** The third loop, in place: `f` on vectors `(8i + j, 8i + j + 4)`, the loop over `j` in `PassBlock`. */
  method Pass3(v: array<Vec64>, f: (Vec64, Vec64) -> (Vec64, Vec64))
    requires v.Length == 16
    modifies v
    ensures v[..] == Stage(old(v[..]), 4, f)
  {
    ghost var w2 := v[..];
    ghost var w3 := Stage(w2, 4, f);
    for i := 0 to 2
      invariant forall r :: 0 <= r < 16 ==> v[r] == if r < 8 * i then w3[r] else w2[r]
    {
      MulIsTimes(8, i);
      forall r | 8 * i <= r < 8 * i + 4
        ensures w3[r] == f(w2[r], w2[r + 4]).0
      {
        StagePair(w2, 4, f, i, r - 8 * i);
      }
      forall r | 8 * i + 4 <= r < 8 * i + 8
        ensures w3[r] == f(w2[r - 4], w2[r]).1
      {
        StagePair(w2, 4, f, i, r - 8 * i - 4);
      }
      PassBlock(v, f, 4, 8 * i);
    }
  }

  /** The fourth loop, in place: `f` on vectors `(i, i + 8)`. */
  method Pass4(v: array<Vec64>, f: (Vec64, Vec64) -> (Vec64, Vec64))
    requires v.Length == 16
    modifies v
    ensures v[..] == Stage(old(v[..]), 8, f)
  {
    ghost var w3 := v[..];
    ghost var w4 := Stage(w3, 8, f);
    MulIsTimes(16, 0);
    for i := 0 to 8
      invariant forall r :: 0 <= r < 16 ==> v[r] == if r < i || 8 <= r < 8 + i then w4[r] else w3[r]
    {
      StagePair(w3, 8, f, 0, i);
      var (a1, a2) := f(v[i], v[i + 8]);
      v[i], v[i + 8] := a1, a2;
    }
  }

  /** The final `transmute`: vector `Order[t]` becomes row `t` of `b`. */
  method WriteOut(v: array<Vec64>, b: array2<Byte>)
    requires v.Length == 16 && b.Length0 == 16 && b.Length1 == 64
    modifies b
    ensures forall t, e :: 0 <= t < 16 && 0 <= e < 64 ==> b[t, e] == v[Order[t]][e]
  {
    forall t, e | 0 <= t < 16 && 0 <= e < 64 {
      b[t, e] := v[Order[t]][e];
    }
  }

  /**
   * `trans`: shuffle the reread input, run the four passes in place over
   * the 16 vectors, and write the vectors out in `Order`.
   */
  method Trans(a: seq<seq<Byte>>, b: array2<Byte>)
    requires IsGrid(a, 64, 16) && b.Length0 == 16 && b.Length1 == 64
    modifies b
    ensures forall t, e :: 0 <= t < 16 && 0 <= e < 64 ==> b[t, e] == a[e][t]
    ensures Contents(b) == Transposed(a, 64, 16)
  {
    var w0 := Shuffled(a);
    var v := new Vec64[16](r requires 0 <= r < 16 => w0[r]);
    assert v[..] == w0;
    Pass1(v, Int4);
    Pass2(v, Int8);
    Pass3(v, Int16);
    Pass4(v, Int32);
    WriteOut(v, b);
    PassedTranspose(a);
    GridEqual(Contents(b), Transposed(a, 64, 16), 16, 64);
  }
}
