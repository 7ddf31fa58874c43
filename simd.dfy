/**
 * The few `std::simd` operations the byte transposes use, on values.
 * A `Simd<u8, 64>` is a sequence of 64 bytes; a `transmute` to
 * `Simd<u32, 16>` or `Simd<u64, 8>` groups those bytes into lanes of
 * 4 or 8 bytes.  A lane is kept as its bytes, so the byte order inside a
 * lane never matters: every transmute here is undone by the opposite one.
 */
module SimdU8 {
  import opened Arith

  type Byte = bv8

  /** A `Simd<u8, 64>`. */
  type Vec64 = v: seq<Byte> | |v| == 64 witness seq(64, _ => 0)

  /** Lane widths in bytes of the wide views used: `u32` (4) and `u64` (8). */
  predicate LaneBytes(w: nat) { w == 4 || w == 8 }

  /** Every lane of `ls` is `w` bytes wide. */
  predicate Uniform(ls: seq<seq<Byte>>, w: nat)
  {
    forall x :: x in ls ==> |x| == w
  }

  /**
   * A `transmute` to `w`-byte lanes: the first `w` bytes form lane 0, the next
   * `w` lane 1, and so on (a short tail, which the transmutes here never
   * have, is dropped).
   */
  function Lanes(v: seq<Byte>, w: nat): (ls: seq<seq<Byte>>)
    requires w > 0
    ensures Uniform(ls, w)
    decreases |v|
  {
    if |v| < w then [] else [v[..w]] + Lanes(v[w..], w)
  }

  lemma {:induction false} LanesLength(v: seq<Byte>, w: nat, n: nat)
    requires w > 0 && |v| == Mul(w, n)
    ensures |Lanes(v, w)| == n
  {
    if n > 0 {
      LanesLength(v[w..], w, n - 1);
    }
  }

  /** Cutting the vector at a lane boundary cuts its lanes there. */
  lemma {:induction false} LanesAppend(u: seq<Byte>, v: seq<Byte>, w: nat, n: nat)
    requires w > 0 && |u| == Mul(w, n)
    ensures Lanes(u + v, w) == Lanes(u, w) + Lanes(v, w)
  {
    if n > 0 {
      assert (u + v)[..w] == u[..w] && (u + v)[w..] == u[w..] + v;
      LanesAppend(u[w..], v, w, n - 1);
    } else {
      assert u + v == v;
    }
  }

  /** The bytes of all lanes, in lane order. */
  function Flatten(ls: seq<seq<Byte>>): (v: seq<Byte>)
  {
    if |ls| == 0 then [] else ls[0] + Flatten(ls[1..])
  }

  lemma {:induction false} FlattenLength(ls: seq<seq<Byte>>, w: nat)
    requires Uniform(ls, w)
    ensures |Flatten(ls)| == Mul(w, |ls|)
  {
    if |ls| > 0 {
      FlattenLength(ls[1..], w);
    }
  }

  lemma {:induction false} FlattenAppend(ls: seq<seq<Byte>>, ms: seq<seq<Byte>>)
    ensures Flatten(ls + ms) == Flatten(ls) + Flatten(ms)
  {
    if |ls| > 0 {
      assert (ls + ms)[1..] == ls[1..] + ms;
      FlattenAppend(ls[1..], ms);
    } else {
      assert ls + ms == ms;
    }
  }

  /** Byte `o` of lane `l` of a transmute to `w`-byte lanes is byte `l * w + o`. */
  lemma {:induction false} LanesAt(v: seq<Byte>, w: nat, n: nat, l: nat, o: nat)
    requires w > 0 && |v| == Mul(w, n) && l < n && o < w
    ensures |Lanes(v, w)| == n && Mul(w, l) + w <= |v|
    ensures Lanes(v, w)[l][o] == v[Mul(w, l) + o]
    decreases l
  {
    LanesLength(v, w, n);
    MulStrict(w, l, n);
    if l > 0 {
      assert Mul(w, l) == Mul(w, l - 1) + w && Mul(w, n) == Mul(w, n - 1) + w;
      LanesAt(v[w..], w, n - 1, l - 1, o);
    }
  }

  /** Byte `o` of lane `l` sits at `l * w + o` of the flattened lanes. */
  lemma {:induction false} FlattenAt(ls: seq<seq<Byte>>, w: nat, l: nat, o: nat)
    requires Uniform(ls, w) && l < |ls| && o < w
    ensures Mul(w, l) + w <= |Flatten(ls)|
    ensures Flatten(ls)[Mul(w, l) + o] == ls[l][o]
    decreases l
  {
    FlattenLength(ls, w);
    MulStrict(w, l, |ls|);
    assert ls[0] in ls;
    if l > 0 {
      assert Mul(w, l) == Mul(w, l - 1) + w;
      assert forall x :: x in ls[1..] ==> x in ls;
      FlattenAt(ls[1..], w, l - 1, o);
    }
  }

  /** A transmute to lanes followed by the transmute back gives the vector back. */
  lemma {:induction false} FlattenLanes(v: seq<Byte>, w: nat, n: nat)
    requires w > 0 && |v| == Mul(w, n)
    ensures Flatten(Lanes(v, w)) == v
  {
    if n > 0 {
      FlattenLanes(v[w..], w, n - 1);
      assert v == v[..w] + v[w..];
    }
  }

  /** `transmute::<Simd<u8, 64>, Simd<u32, 16>>`. */
  function AsU32x16(v: Vec64): (ls: seq<seq<Byte>>)
    ensures |ls| == 16 && Uniform(ls, 4) && ls == Lanes(v, 4)
  {
    MulIsTimes(4, 16);
    LanesLength(v, 4, 16);
    Lanes(v, 4)
  }

  /** `transmute::<Simd<u8, 64>, Simd<u64, 8>>`. */
  function AsU64x8(v: Vec64): (ls: seq<seq<Byte>>)
    ensures |ls| == 8 && Uniform(ls, 8) && ls == Lanes(v, 8)
  {
    MulIsTimes(8, 8);
    LanesLength(v, 8, 8);
    Lanes(v, 8)
  }

  /**
   * The lower `n` of the `w`-byte lanes of a vector are the lanes of its lower
   * 32 bytes, the others those of its upper 32 bytes.
   */
  lemma {:induction false} HalfLanes(v: Vec64, w: nat, n: nat)
    requires w > 0 && Mul(w, n) == 32
    ensures |Lanes(v, w)| == 2 * n
    ensures Lanes(v, w)[..n] == Lanes(v[..32], w) && Lanes(v, w)[n..] == Lanes(v[32..], w)
    ensures Flatten(Lanes(v, w)[..n]) == v[..32] && Flatten(Lanes(v, w)[n..]) == v[32..]
  {
    assert v == v[..32] + v[32..];
    LanesAppend(v[..32], v[32..], w, n);
    LanesLength(v[..32], w, n);
    LanesLength(v[32..], w, n);
    FlattenLanes(v[..32], w, n);
    FlattenLanes(v[32..], w, n);
  }

  /** The transmute back from `64 / w` lanes of `w` bytes to a `Simd<u8, 64>`. */
  function FromLanes(ls: seq<seq<Byte>>, w: nat): (v: Vec64)
    requires LaneBytes(w) && |ls| == 64 / w && Uniform(ls, w)
    ensures v == Flatten(ls)
  {
    FlattenLength(ls, w);
    MulIsTimes(w, |ls|);
    Flatten(ls)
  }

  /**
   * `k` elements of `a`, then `k` of `b`, then the next `k` of each, and so on:
   * the concatenation over `m` of `a[m*k .. m*k + k] + b[m*k .. m*k + k]`.
   */
  function Weave<T>(k: nat, a: seq<T>, b: seq<T>): (r: seq<T>)
    requires k > 0
    ensures |r| == |a| + |b|
    decreases |a|
  {
    if |a| <= k || |b| <= k then a + b
    else a[..k] + b[..k] + Weave(k, a[k..], b[k..])
  }

  /** `Weave` only rearranges: it returns the elements of `a` and of `b`, each once. */
  lemma {:induction false} WeavePermutes<T>(k: nat, a: seq<T>, b: seq<T>)
    requires k > 0
    ensures multiset(Weave(k, a, b)) == multiset(a) + multiset(b)
    decreases |a|
  {
    if |a| > k && |b| > k {
      WeavePermutes(k, a[k..], b[k..]);
      assert a == a[..k] + a[k..] && b == b[..k] + b[k..];
    }
  }

  /** Where `Weave` puts the elements of `a` and of `b`. */
  lemma {:induction false} WeaveAt<T>(k: nat, a: seq<T>, b: seq<T>, m: nat, o: nat)
    requires k > 0 && |a| == |b| && o < k && Mul(k, m) + k <= |a|
    ensures Weave(k, a, b)[2 * Mul(k, m) + o] == a[Mul(k, m) + o]
    ensures Weave(k, a, b)[2 * Mul(k, m) + k + o] == b[Mul(k, m) + o]
    decreases m
  {
    if m == 0 {
      WeaveHead(k, a, b, o);
    } else {
      assert Mul(k, m) == Mul(k, m - 1) + k;
      var w := Weave(k, a[k..], b[k..]);
      WeaveUnfold(k, a, b);
      WeaveAt(k, a[k..], b[k..], m - 1, o);
      ConcatAt(a[..k] + b[..k], w, 2 * Mul(k, m - 1) + o);
      ConcatAt(a[..k] + b[..k], w, 2 * Mul(k, m - 1) + k + o);
    }
  }

  /** The first block of `Weave`. */
  lemma {:induction false} WeaveHead<T>(k: nat, a: seq<T>, b: seq<T>, o: nat)
    requires k > 0 && |a| == |b| && o < k <= |a|
    ensures Weave(k, a, b)[o] == a[o] && Weave(k, a, b)[k + o] == b[o]
  {
    if |a| <= k {
      assert Weave(k, a, b) == a + b;
    } else {
      WeaveUnfold(k, a, b);
    }
  }

  /** `Weave` past its first block. */
  lemma {:induction false} WeaveUnfold<T>(k: nat, a: seq<T>, b: seq<T>)
    requires k > 0 && k < |a| && k < |b|
    ensures Weave(k, a, b) == a[..k] + b[..k] + Weave(k, a[k..], b[k..])
  {
  }

  /** Indexing past the first part of a concatenation. */
  lemma {:induction false} ConcatAt<T>(u: seq<T>, w: seq<T>, p: nat)
    requires p < |w|
    ensures (u + w)[|u| + p] == w[p]
  {
  }

  /** Cutting the lanes after lane `k` cuts their bytes after byte `Mul(w, k)`. */
  lemma {:induction false} FlattenSplit(ls: seq<seq<Byte>>, k: nat, w: nat)
    requires k <= |ls| && Uniform(ls, w)
    ensures Mul(w, k) <= |Flatten(ls)|
    ensures Flatten(ls)[..Mul(w, k)] == Flatten(ls[..k])
    ensures Flatten(ls)[Mul(w, k)..] == Flatten(ls[k..])
  {
    assert ls == ls[..k] + ls[k..];
    FlattenAppend(ls[..k], ls[k..]);
    FlattenLength(ls[..k], w);
  }

  /**
   * Weaving `k`-lane blocks of the lower (upper) `n` lanes of two vectors is
   * weaving `Mul(w, k)`-byte blocks of their lower (upper) 32 bytes.
   */
  lemma {:induction false} HalvesWeave(a: Vec64, b: Vec64, w: nat, n: nat, k: nat)
    requires w > 0 && k > 0 && Mul(w, n) == 32
    ensures |Lanes(a, w)| == 2 * n && |Lanes(b, w)| == 2 * n && Mul(w, k) > 0
    ensures Flatten(Weave(k, Lanes(a, w)[..n], Lanes(b, w)[..n])) == Weave(Mul(w, k), a[..32], b[..32])
    ensures Flatten(Weave(k, Lanes(a, w)[n..], Lanes(b, w)[n..])) == Weave(Mul(w, k), a[32..], b[32..])
  {
    HalfLanes(a, w, n);
    HalfLanes(b, w, n);
    FlattenWeave(k, w, Lanes(a, w)[..n], Lanes(b, w)[..n]);
    FlattenWeave(k, w, Lanes(a, w)[n..], Lanes(b, w)[n..]);
  }

  /** `Weave` on lanes becomes `Weave` on their bytes, with `k` lanes of `w` bytes per block. */
  lemma {:induction false} FlattenWeave(k: nat, w: nat, ls: seq<seq<Byte>>, ms: seq<seq<Byte>>)
    requires k > 0 && w > 0 && |ls| == |ms| && Uniform(ls, w) && Uniform(ms, w)
    ensures Mul(w, k) > 0 && Flatten(Weave(k, ls, ms)) == Weave(Mul(w, k), Flatten(ls), Flatten(ms))
    decreases |ls|
  {
    MulStrict(w, 0, k);
    FlattenLength(ls, w);
    FlattenLength(ms, w);
    if |ls| <= k {
      MulMonotone(w, |ls|, k);
      FlattenAppend(ls, ms);
    } else {
      MulStrict(w, k, |ls|);
      FlattenSplit(ls, k, w);
      FlattenSplit(ms, k, w);
      FlattenWeave(k, w, ls[k..], ms[k..]);
      FlattenAppend(ls[..k] + ms[..k], Weave(k, ls[k..], ms[k..]));
      FlattenAppend(ls[..k], ms[..k]);
    }
  }

  /** Elements of `a` and `b` taken alternately: `a[0], b[0], a[1], b[1], ...`. */
  function Alternate<T>(a: seq<T>, b: seq<T>): (r: seq<T>)
    requires |a| == |b|
    ensures |r| == 2 * |a|
    ensures forall x :: x in r ==> x in a || x in b
    decreases |a|
  {
    if |a| == 0 then [] else [a[0], b[0]] + Alternate(a[1..], b[1..])
  }

  /** Alternating single elements is weaving blocks of one. */
  lemma {:induction false} AlternateIsWeave<T>(a: seq<T>, b: seq<T>)
    requires |a| == |b|
    ensures Alternate(a, b) == Weave(1, a, b)
    decreases |a|
  {
    if |a| > 1 {
      AlternateIsWeave(a[1..], b[1..]);
    }
  }

  /**
   * `Simd::interleave`: the first result alternates the lower halves of the
   * two inputs, the second one their upper halves.
   */
  function SimdInterleave<T>(a: seq<T>, b: seq<T>): (r: (seq<T>, seq<T>))
    requires |a| == |b| && |a| % 2 == 0
  {
    var h := |a| / 2;
    (Alternate(a[..h], b[..h]), Alternate(a[h..], b[h..]))
  }

  /** `std::simd::Which`: lane `i` of the first or of the second input. */
  datatype Which = First(i: nat) | Second(i: nat)

  /** Every entry of `idx` names a lane that exists. */
  predicate SwizzleIndices2(idx: seq<Which>, na: nat, nb: nat)
  {
    forall p :: 0 <= p < |idx| ==> idx[p].i < (if idx[p].First? then na else nb)
  }

  /** Two-input `simd_swizzle!`: lane `p` of the result is the lane `idx[p]` names. */
  function Swizzle2<T>(a: seq<T>, b: seq<T>, idx: seq<Which>): (r: seq<T>)
    requires SwizzleIndices2(idx, |a|, |b|)
    ensures |r| == |idx|
    ensures forall p :: 0 <= p < |idx| ==> r[p] == (if idx[p].First? then a[idx[p].i] else b[idx[p].i])
  {
    seq(|idx|, p requires 0 <= p < |idx| => if idx[p].First? then a[idx[p].i] else b[idx[p].i])
  }

  /** One-input `simd_swizzle!`: lane `p` of the result is lane `idx[p]` of `v`. */
  function Swizzle1<T>(v: seq<T>, idx: seq<nat>): (r: seq<T>)
    requires forall p :: 0 <= p < |idx| ==> idx[p] < |v|
    ensures |r| == |idx|
    ensures forall p :: 0 <= p < |idx| ==> r[p] == v[idx[p]]
  {
    seq(|idx|, p requires 0 <= p < |idx| => v[idx[p]])
  }
}
