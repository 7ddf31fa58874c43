/**
 * `interleave_u8`: the four butterfly steps of the byte transposes.
 * `IntK(a, b)` cuts both vectors into blocks of K bytes and returns the
 * blocks of their lower halves alternately (`a`'s first block, `b`'s first
 * block, `a`'s second block, ...) and, as the second vector, the same for
 * their upper halves.  Int4 and Int8 do it with `Simd::interleave` on 4- and
 * 8-byte lanes, Int16 and Int32 with a two-input swizzle of 8-byte lanes.
 */
module InterleaveU8 {
  import opened Arith
  import opened SimdU8

  function Int4(a: Vec64, b: Vec64): (Vec64, Vec64)
  {
    var (a1, b1) := SimdInterleave(AsU32x16(a), AsU32x16(b));
    (FromLanes(a1, 4), FromLanes(b1, 4))
  }

  function Int8(a: Vec64, b: Vec64): (Vec64, Vec64)
  {
    var (a1, b1) := SimdInterleave(AsU64x8(a), AsU64x8(b));
    (FromLanes(a1, 8), FromLanes(b1, 8))
  }

  const Int16Low: seq<Which> :=
    [First(0), First(1), Second(0), Second(1), First(2), First(3), Second(2), Second(3)]
  const Int16High: seq<Which> :=
    [First(4), First(5), Second(4), Second(5), First(6), First(7), Second(6), Second(7)]

  function Int16(a: Vec64, b: Vec64): (Vec64, Vec64)
  {
    var a0, b0 := AsU64x8(a), AsU64x8(b);
    (FromLanes(Swizzle2(a0, b0, Int16Low), 8), FromLanes(Swizzle2(a0, b0, Int16High), 8))
  }

  const Int32Low: seq<Which> :=
    [First(0), First(1), First(2), First(3), Second(0), Second(1), Second(2), Second(3)]
  const Int32High: seq<Which> :=
    [First(4), First(5), First(6), First(7), Second(4), Second(5), Second(6), Second(7)]

  function Int32(a: Vec64, b: Vec64): (Vec64, Vec64)
  {
    var a0, b0 := AsU64x8(a), AsU64x8(b);
    (FromLanes(Swizzle2(a0, b0, Int32Low), 8), FromLanes(Swizzle2(a0, b0, Int32High), 8))
  }

  /**
   * `r` is the K-byte butterfly of `a` and `b`: its first vector weaves the
   * K-byte blocks of the lower halves, its second vector those of the upper
   * halves.
   */
  predicate Interleaves(k: nat, a: Vec64, b: Vec64, r: (Vec64, Vec64))
    requires k > 0
  {
    r.0 == Weave(k, a[..32], b[..32]) && r.1 == Weave(k, a[32..], b[32..])
  }

  lemma {:induction false} Int4Interleaves(a: Vec64, b: Vec64)
    ensures Interleaves(4, a, b, Int4(a, b))
  {
    var a0, b0 := AsU32x16(a), AsU32x16(b);
    AlternateIsWeave(a0[..8], b0[..8]);
    AlternateIsWeave(a0[8..], b0[8..]);
    MulIsTimes(4, 8);
    MulIsTimes(4, 1);
    HalvesWeave(a, b, 4, 8, 1);
  }

  lemma {:induction false} Int8Interleaves(a: Vec64, b: Vec64)
    ensures Interleaves(8, a, b, Int8(a, b))
  {
    var a0, b0 := AsU64x8(a), AsU64x8(b);
    AlternateIsWeave(a0[..4], b0[..4]);
    AlternateIsWeave(a0[4..], b0[4..]);
    MulIsTimes(8, 4);
    MulIsTimes(8, 1);
    HalvesWeave(a, b, 8, 4, 1);
  }

  /**
   * The swizzle lists of `int16`, `First(i), First(i+1), Second(i), Second(i+1),
   * First(i+2), ...`, weave 2-lane blocks of lanes `i .. i+4`.
   */
  lemma {:induction false} Int16Swizzles(a0: seq<seq<Byte>>, b0: seq<seq<Byte>>)
    requires |a0| == 8 && |b0| == 8
    ensures SwizzleIndices2(Int16Low, 8, 8) && SwizzleIndices2(Int16High, 8, 8)
    ensures Swizzle2(a0, b0, Int16Low) == Weave(2, a0[..4], b0[..4])
    ensures Swizzle2(a0, b0, Int16High) == Weave(2, a0[4..], b0[4..])
  {
    var x, y, u, v := a0[..4], b0[..4], a0[4..], b0[4..];
    assert Weave(2, x[2..], y[2..]) == x[2..] + y[2..];
    assert Weave(2, x, y) == x[..2] + y[..2] + (x[2..] + y[2..]);
    assert Weave(2, u[2..], v[2..]) == u[2..] + v[2..];
    assert Weave(2, u, v) == u[..2] + v[..2] + (u[2..] + v[2..]);
  }

  /**
   * The swizzle lists of `int32`, `First(i) .. First(i+3), Second(i) .. Second(i+3)`,
   * weave one 4-lane block of lanes `i .. i+4`.
   */
  lemma {:induction false} Int32Swizzles(a0: seq<seq<Byte>>, b0: seq<seq<Byte>>)
    requires |a0| == 8 && |b0| == 8
    ensures SwizzleIndices2(Int32Low, 8, 8) && SwizzleIndices2(Int32High, 8, 8)
    ensures Swizzle2(a0, b0, Int32Low) == Weave(4, a0[..4], b0[..4])
    ensures Swizzle2(a0, b0, Int32High) == Weave(4, a0[4..], b0[4..])
  {
  }

  /** `Int16` and `Int32` are lane swizzles followed by the transmute back. */
  lemma {:induction false} SwizzledUnfold(a: Vec64, b: Vec64)
    ensures SwizzleIndices2(Int16Low, 8, 8) && SwizzleIndices2(Int16High, 8, 8)
    ensures SwizzleIndices2(Int32Low, 8, 8) && SwizzleIndices2(Int32High, 8, 8)
    ensures Int16(a, b).0 == Flatten(Swizzle2(AsU64x8(a), AsU64x8(b), Int16Low))
    ensures Int16(a, b).1 == Flatten(Swizzle2(AsU64x8(a), AsU64x8(b), Int16High))
    ensures Int32(a, b).0 == Flatten(Swizzle2(AsU64x8(a), AsU64x8(b), Int32Low))
    ensures Int32(a, b).1 == Flatten(Swizzle2(AsU64x8(a), AsU64x8(b), Int32High))
  {
  }

  lemma {:induction false} Int16Interleaves(a: Vec64, b: Vec64)
    ensures Interleaves(16, a, b, Int16(a, b))
  {
    SwizzledUnfold(a, b);
    Int16Swizzles(AsU64x8(a), AsU64x8(b));
    MulIsTimes(8, 4);
    MulIsTimes(8, 2);
    HalvesWeave(a, b, 8, 4, 2);
  }

  lemma {:induction false} Int32Interleaves(a: Vec64, b: Vec64)
    ensures Interleaves(32, a, b, Int32(a, b))
  {
    SwizzledUnfold(a, b);
    Int32Swizzles(AsU64x8(a), AsU64x8(b));
    MulIsTimes(8, 4);
    HalvesWeave(a, b, 8, 4, 4);
  }

  /** Each `intK` returns a permutation of the 128 bytes it is given. */
  lemma {:induction false} Permutes(a: Vec64, b: Vec64)
    ensures multiset(Int4(a, b).0 + Int4(a, b).1) == multiset(a + b)
    ensures multiset(Int8(a, b).0 + Int8(a, b).1) == multiset(a + b)
    ensures multiset(Int16(a, b).0 + Int16(a, b).1) == multiset(a + b)
    ensures multiset(Int32(a, b).0 + Int32(a, b).1) == multiset(a + b)
  {
    Int4Interleaves(a, b);
    InterleavesPermutes(4, a, b, Int4(a, b));
    Int8Interleaves(a, b);
    InterleavesPermutes(8, a, b, Int8(a, b));
    Int16Interleaves(a, b);
    InterleavesPermutes(16, a, b, Int16(a, b));
    Int32Interleaves(a, b);
    InterleavesPermutes(32, a, b, Int32(a, b));
  }

  /** A K-byte butterfly of two vectors is a permutation of their bytes. */
  lemma {:induction false} InterleavesPermutes(k: nat, a: Vec64, b: Vec64, r: (Vec64, Vec64))
    requires k > 0 && Interleaves(k, a, b, r)
    ensures multiset(r.0 + r.1) == multiset(a + b)
  {
    WeavePermutes(k, a[..32], b[..32]);
    WeavePermutes(k, a[32..], b[32..]);
    assert a == a[..32] + a[32..] && b == b[..32] + b[32..];
  }

  /**
   * Where a K-byte butterfly puts each byte: block `m` of the lower (upper)
   * half of `a` goes to block `2m` of the first (second) result and the same
   * block of `b` to block `2m + 1`.
   */
  lemma {:induction false} InterleavesAt(k: nat, a: Vec64, b: Vec64, r: (Vec64, Vec64), m: nat, o: nat)
    requires k > 0 && Interleaves(k, a, b, r) && o < k && Mul(k, m) + k <= 32
    ensures r.0[2 * Mul(k, m) + o] == a[Mul(k, m) + o]
    ensures r.0[2 * Mul(k, m) + k + o] == b[Mul(k, m) + o]
    ensures r.1[2 * Mul(k, m) + o] == a[32 + Mul(k, m) + o]
    ensures r.1[2 * Mul(k, m) + k + o] == b[32 + Mul(k, m) + o]
  {
    WeaveAt(k, a[..32], b[..32], m, o);
    WeaveAt(k, a[32..], b[32..], m, o);
  }
}
