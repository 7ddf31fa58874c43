/**
 * The Lennard-Jones gradient over a pair set, one axis `q` at a time.  Each
 * visited pair `(j, i)` adds `PF(q, j, i)` to particle `j` and `PF(q, i, j)`
 * to particle `i`; the two are opposite, so the gradient sums to zero over
 * the particles whatever the pair set.
 */
module LennardJonesGrad {
  import opened Arith
  import opened LennardJonesSpec

  /** The axis-`q` gradient of particle `k` from its partner `m`: `(r_k - r_m)[q]` times the scale. */
  function PF(s2: real, eb: real, pts: seq<Point>, q: nat, k: nat, m: nat): real
    requires Separated(pts) && q < 3 && k < |pts| && m < |pts| && k != m
  {
    assert Apart(pts, k, m);
    (pts[k][q] - pts[m][q]) * GradScale(s2, eb, Dist2(pts[k], pts[m]))
  }

  /** `k` and `m` are a pair of the set, in either order. */
  predicate Visited(ps: Pairs, k: nat, m: nat)
  {
    (m < k && InSet(ps, m, k)) || (k < m && InSet(ps, k, m))
  }

  /** What particle `k` gets from `m`: `PF` when the pair is visited, else 0. */
  function Partner(ps: Pairs, s2: real, eb: real, pts: seq<Point>, q: nat, k: nat, m: nat): real
    requires Separated(pts) && q < 3 && k < |pts| && m < |pts|
  {
    if Visited(ps, k, m) then PF(s2, eb, pts, q, k, m) else 0.0
  }

  /** `Σ_{lo <= m < hi} Partner(k, m)`. */
  function GradRange(ps: Pairs, s2: real, eb: real, pts: seq<Point>, q: nat, k: nat, lo: nat, hi: nat): real
    requires Separated(pts) && q < 3 && k < |pts| && hi <= |pts|
    decreases hi
  {
    if hi <= lo then 0.0 else GradRange(ps, s2, eb, pts, q, k, lo, hi - 1) + Partner(ps, s2, eb, pts, q, k, hi - 1)
  }

  /** The axis-`q` gradient of particle `k` over the pair set `ps`. */
  function Grad(ps: Pairs, s2: real, eb: real, pts: seq<Point>, q: nat, k: nat): real
    requires Separated(pts) && q < 3 && k < |pts|
  {
    GradRange(ps, s2, eb, pts, q, k, 0, |pts|)
  }

  /** One more partner. */
  lemma {:induction false} GradRangeNext(ps: Pairs, s2: real, eb: real, pts: seq<Point>, q: nat, k: nat, lo: nat, hi: nat)
    requires Separated(pts) && q < 3 && k < |pts| && lo <= hi < |pts|
    ensures GradRange(ps, s2, eb, pts, q, k, lo, hi + 1)
         == GradRange(ps, s2, eb, pts, q, k, lo, hi) + Partner(ps, s2, eb, pts, q, k, hi)
  {
  }

  lemma {:induction false} GradRangeSplit(ps: Pairs, s2: real, eb: real, pts: seq<Point>, q: nat, k: nat,
                                           lo: nat, mid: nat, hi: nat)
    requires Separated(pts) && q < 3 && k < |pts| && lo <= mid <= hi <= |pts|
    ensures GradRange(ps, s2, eb, pts, q, k, lo, hi)
         == GradRange(ps, s2, eb, pts, q, k, lo, mid) + GradRange(ps, s2, eb, pts, q, k, mid, hi)
    decreases hi
  {
    if hi > mid {
      GradRangeSplit(ps, s2, eb, pts, q, k, lo, mid, hi - 1);
    }
  }

  /** The two particles of a pair get opposite gradients. */
  lemma {:induction false} PartnerAntisymmetric(ps: Pairs, s2: real, eb: real, pts: seq<Point>, q: nat, k: nat, m: nat)
    requires Separated(pts) && q < 3 && k < |pts| && m < |pts|
    ensures Partner(ps, s2, eb, pts, q, k, m) == -Partner(ps, s2, eb, pts, q, m, k)
  {
    if Visited(ps, k, m) {
      Dist2Symmetric(pts[k], pts[m]);
    }
  }

  /** `Σ_{k < n} Partner(k, m)`: what the first `n` particles get from `m`. */
  function ColSum(ps: Pairs, s2: real, eb: real, pts: seq<Point>, q: nat, m: nat, n: nat): real
    requires Separated(pts) && q < 3 && m < |pts| && n <= |pts|
  {
    if n == 0 then 0.0 else ColSum(ps, s2, eb, pts, q, m, n - 1) + Partner(ps, s2, eb, pts, q, n - 1, m)
  }

  /** What the first `n` particles get from `m` is what `m` gets from them, negated. */
  lemma {:induction false} ColSumOpposite(ps: Pairs, s2: real, eb: real, pts: seq<Point>, q: nat, m: nat, n: nat)
    requires Separated(pts) && q < 3 && m < |pts| && n <= |pts|
    ensures ColSum(ps, s2, eb, pts, q, m, n) == -GradRange(ps, s2, eb, pts, q, m, 0, n)
  {
    if n > 0 {
      ColSumOpposite(ps, s2, eb, pts, q, m, n - 1);
      PartnerAntisymmetric(ps, s2, eb, pts, q, n - 1, m);
    }
  }

  /** `Σ_{k < n} GradRange(k, 0, hi)`. */
  function Total(ps: Pairs, s2: real, eb: real, pts: seq<Point>, q: nat, n: nat, hi: nat): real
    requires Separated(pts) && q < 3 && n <= |pts| && hi <= |pts|
  {
    if n == 0 then 0.0 else Total(ps, s2, eb, pts, q, n - 1, hi) + GradRange(ps, s2, eb, pts, q, n - 1, 0, hi)
  }

  lemma {:induction false} TotalNext(ps: Pairs, s2: real, eb: real, pts: seq<Point>, q: nat, n: nat, hi: nat)
    requires Separated(pts) && q < 3 && n <= |pts| && hi < |pts|
    ensures Total(ps, s2, eb, pts, q, n, hi + 1) == Total(ps, s2, eb, pts, q, n, hi) + ColSum(ps, s2, eb, pts, q, hi, n)
  {
    if n > 0 {
      TotalNext(ps, s2, eb, pts, q, n - 1, hi);
    }
  }

  /** Among the first `n` particles the gradients cancel. */
  lemma {:induction false} TotalZero(ps: Pairs, s2: real, eb: real, pts: seq<Point>, q: nat, n: nat)
    requires Separated(pts) && q < 3 && n <= |pts|
    ensures Total(ps, s2, eb, pts, q, n, n) == 0.0
  {
    if n > 0 {
      var m := n - 1;
      TotalZero(ps, s2, eb, pts, q, m);
      TotalNext(ps, s2, eb, pts, q, m, m);
      ColSumOpposite(ps, s2, eb, pts, q, m, m);
      assert Total(ps, s2, eb, pts, q, n, n) == Total(ps, s2, eb, pts, q, m, n) + GradRange(ps, s2, eb, pts, q, m, 0, n);
      assert GradRange(ps, s2, eb, pts, q, m, 0, n) == GradRange(ps, s2, eb, pts, q, m, 0, m);
    }
  }

  /** Values equal to the gradients, one per particle, sum to zero. */
  lemma {:induction false} GradSumsToZero(ps: Pairs, s2: real, eb: real, pts: seq<Point>, q: nat, g: seq<real>)
    requires Separated(pts) && q < 3 && |g| == |pts|
    requires forall k :: 0 <= k < |g| ==> g[k] == Grad(ps, s2, eb, pts, q, k)
    ensures Sum(g) == 0.0
  {
    SumIsTotal(ps, s2, eb, pts, q, g, |g|);
    assert g[..|g|] == g;
    TotalZero(ps, s2, eb, pts, q, |pts|);
  }

  lemma {:induction false} SumIsTotal(ps: Pairs, s2: real, eb: real, pts: seq<Point>, q: nat, g: seq<real>, n: nat)
    requires Separated(pts) && q < 3 && |g| == |pts| && n <= |g|
    requires forall k :: 0 <= k < |g| ==> g[k] == Grad(ps, s2, eb, pts, q, k)
    ensures Sum(g[..n]) == Total(ps, s2, eb, pts, q, n, |pts|)
  {
    if n > 0 {
      SumIsTotal(ps, s2, eb, pts, q, g, n - 1);
      assert g[..n][..n - 1] == g[..n - 1];
    }
  }

  /** Row `k` has no partner in `Hi(k) .. k`. */
  lemma {:induction false} GradRowTail(ps: Pairs, s2: real, eb: real, pts: seq<Point>, q: nat, k: nat, hi: nat)
    requires Separated(pts) && q < 3 && k < |pts| && Hi(ps, k) <= hi <= k
    ensures GradRange(ps, s2, eb, pts, q, k, Hi(ps, k), hi) == 0.0
    decreases hi
  {
    if hi > Hi(ps, k) {
      GradRowTail(ps, s2, eb, pts, q, k, hi - 1);
    }
  }

  /** Two pair sets that visit the same pairs give the same gradient. */
  lemma {:induction false} GradRangeSame(ps: Pairs, ps': Pairs, s2: real, eb: real, pts: seq<Point>, q: nat, k: nat, lo: nat, hi: nat)
    requires Separated(pts) && q < 3 && k < |pts| && hi <= |pts|
    requires forall m :: lo <= m < hi ==> (Visited(ps, k, m) <==> Visited(ps', k, m))
    ensures GradRange(ps, s2, eb, pts, q, k, lo, hi) == GradRange(ps', s2, eb, pts, q, k, lo, hi)
    decreases hi
  {
    if hi > lo {
      GradRangeSame(ps, ps', s2, eb, pts, q, k, lo, hi - 1);
    }
  }

  /** Blocks of one particle before the own block are all the earlier particles. */
  lemma {:induction false} GradEarlierBlocksOne(s2: real, eb: real, pts: seq<Point>, q: nat, k: nat)
    requires Separated(pts) && q < 3 && k < |pts|
    ensures Grad(EarlierBlocks(1), s2, eb, pts, q, k) == Grad(AllPairs, s2, eb, pts, q, k)
  {
    forall m | 0 <= m < |pts|
      ensures Visited(EarlierBlocks(1), k, m) <==> Visited(AllPairs, k, m)
    {
      HiOne(k);
      HiOne(m);
    }
    GradRangeSame(EarlierBlocks(1), AllPairs, s2, eb, pts, q, k, 0, |pts|);
  }

  /** With the cut at 0 or past the last particle, `SameSide` visits every pair. */
  lemma {:induction false} GradSameSideExact(b: nat, s2: real, eb: real, pts: seq<Point>, q: nat, k: nat)
    requires Separated(pts) && q < 3 && k < |pts| && (b == 0 || |pts| <= b)
    ensures Grad(SameSide(b), s2, eb, pts, q, k) == Grad(AllPairs, s2, eb, pts, q, k)
  {
    GradRangeSame(SameSide(b), AllPairs, s2, eb, pts, q, k, 0, |pts|);
  }

  /** A range of partners none of which is visited contributes nothing. */
  lemma {:induction false} GradRangeNone(ps: Pairs, s2: real, eb: real, pts: seq<Point>, q: nat, k: nat, lo: nat, hi: nat)
    requires Separated(pts) && q < 3 && k < |pts| && hi <= |pts|
    requires forall m :: lo <= m < hi ==> !Visited(ps, k, m)
    ensures GradRange(ps, s2, eb, pts, q, k, lo, hi) == 0.0
    decreases hi
  {
    if hi > lo {
      GradRangeNone(ps, s2, eb, pts, q, k, lo, hi - 1);
    }
  }

  /**
   * Under `SameSide(b)` a particle before the cut has for partners every
   * other particle before it, and one at or past the cut every other one at
   * or past it.
   */
  lemma {:induction false} GradSameSideParts(b: nat, s2: real, eb: real, pts: seq<Point>, q: nat, k: nat)
    requires Separated(pts) && q < 3 && k < |pts| && b <= |pts|
    ensures Grad(SameSide(b), s2, eb, pts, q, k)
         == if k < b then GradRange(AllPairs, s2, eb, pts, q, k, 0, b) else GradRange(AllPairs, s2, eb, pts, q, k, b, |pts|)
  {
    GradRangeSplit(SameSide(b), s2, eb, pts, q, k, 0, b, |pts|);
    if k < b {
      GradRangeSame(SameSide(b), AllPairs, s2, eb, pts, q, k, 0, b);
      GradRangeNone(SameSide(b), s2, eb, pts, q, k, b, |pts|);
    } else {
      GradRangeNone(SameSide(b), s2, eb, pts, q, k, 0, b);
      GradRangeSame(SameSide(b), AllPairs, s2, eb, pts, q, k, b, |pts|);
    }
  }

  const Origin: Point := [0.0, 0.0, 0.0]

  /** `(p - o) * s`, coordinate by coordinate. */
  function DiffScaled(p: Point, o: Point, s: real): Point
  {
    seq(3, q requires 0 <= q < 3 => (p[q] - o[q]) * s)
  }

  function Add(p: Point, o: Point): Point
  {
    seq(3, q requires 0 <= q < 3 => p[q] + o[q])
  }

  function Sub(p: Point, o: Point): Point
  {
    seq(3, q requires 0 <= q < 3 => p[q] - o[q])
  }

  /** Coordinate `q` of every particle: `[g[0][q], g[1][q], ...]`. */
  function Axis(g: seq<Point>, q: nat): (a: seq<real>)
    requires q < 3
    ensures |a| == |g| && forall k :: 0 <= k < |g| ==> a[k] == g[k][q]
  {
    seq(|g|, k requires 0 <= k < |g| => g[k][q])
  }

  /**
   * What a kernel that visits the rows of `ps` in order has written to `g`
   * once rows `0 .. i` are done, row `i` has visited its partners before `d`
   * (on their side) and particle `i` holds its sum over the partners before
   * `own`: earlier particles hold their sum over the partners before `i`,
   * plus their pair with `i` when they are before `d`; later ones hold 0.
   */
  function Expected(ps: Pairs, s2: real, eb: real, pts: seq<Point>, q: nat, k: nat, i: nat, d: nat, own: nat): real
    requires Separated(pts) && q < 3 && k < |pts| && d <= i <= |pts| && own <= |pts| && (i < |pts| || d == 0)
  {
    if k < i then GradRange(ps, s2, eb, pts, q, k, 0, i) + (if k < d then Partner(ps, s2, eb, pts, q, k, i) else 0.0)
    else if k == i then GradRange(ps, s2, eb, pts, q, i, 0, own)
    else 0.0
  }

  ghost predicate Progress(ps: Pairs, s2: real, eb: real, pts: seq<Point>, g: seq<Point>, i: nat, d: nat, own: nat)
    requires Separated(pts)
  {
    |g| == |pts| && d <= i <= |pts| && own <= |pts| && (i < |pts| || d == 0) &&
    forall k, q :: 0 <= k < |g| && 0 <= q < 3 ==> g[k][q] == Expected(ps, s2, eb, pts, q, k, i, d, own)
  }

  /** A zeroed `g` is the state before the first row. */
  lemma {:induction false} ProgressStart(ps: Pairs, s2: real, eb: real, pts: seq<Point>, g: seq<Point>)
    requires Separated(pts) && |g| == |pts|
    requires forall k, q :: 0 <= k < |g| && 0 <= q < 3 ==> g[k][q] == 0.0
    ensures Progress(ps, s2, eb, pts, g, 0, 0, 0)
  {
    forall k, q | 0 <= k < |g| && 0 <= q < 3
      ensures g[k][q] == Expected(ps, s2, eb, pts, q, k, 0, 0, 0)
    {
    }
  }

  /** After the last row every particle holds its gradient. */
  lemma {:induction false} ProgressDone(ps: Pairs, s2: real, eb: real, pts: seq<Point>, g: seq<Point>)
    requires Separated(pts) && Progress(ps, s2, eb, pts, g, |pts|, 0, 0)
    ensures forall k, q :: 0 <= k < |g| && 0 <= q < 3 ==> g[k][q] == Grad(ps, s2, eb, pts, q, k)
  {
    forall k, q | 0 <= k < |g| && 0 <= q < 3
      ensures g[k][q] == Grad(ps, s2, eb, pts, q, k)
    {
      assert g[k][q] == Expected(ps, s2, eb, pts, q, k, |pts|, 0, 0);
    }
  }

  /**
   * One pair `(j, i)` of `AllPairs`, done the way `lennard_jones_grad_naive`
   * does it: `i` and `j` each gain their side of the pair.
   */
  lemma {:induction false} PairStep(s2: real, eb: real, pts: seq<Point>, g0: seq<Point>, g1: seq<Point>, i: nat, j: nat)
    requires Separated(pts) && j < i < |pts| && Progress(AllPairs, s2, eb, pts, g0, i, j, j) && |g1| == |g0|
    requires forall q :: 0 <= q < 3 ==>
      g1[i][q] == g0[i][q] + PF(s2, eb, pts, q, i, j) && g1[j][q] == g0[j][q] + PF(s2, eb, pts, q, j, i)
    requires forall k :: 0 <= k < |g1| && k != i && k != j ==> g1[k] == g0[k]
    ensures Progress(AllPairs, s2, eb, pts, g1, i, j + 1, j + 1)
  {
    forall k, q | 0 <= k < |g1| && 0 <= q < 3
      ensures g1[k][q] == Expected(AllPairs, s2, eb, pts, q, k, i, j + 1, j + 1)
    {
      assert g0[k][q] == Expected(AllPairs, s2, eb, pts, q, k, i, j, j);
    }
  }

  /**
   * The partners `d .. d + len` of `i`, on their side, done as a block: each
   * gains its pair with `i`.
   */
  lemma {:induction false} BlockStep(ps: Pairs, s2: real, eb: real, pts: seq<Point>, g0: seq<Point>, g1: seq<Point>,
                                     i: nat, d: nat, len: nat, own: nat)
    requires Separated(pts) && i < |pts| && Progress(ps, s2, eb, pts, g0, i, d, own) && |g1| == |g0|
    requires Lo(ps, i) <= d && d + len <= Hi(ps, i)
    requires forall k, q :: 0 <= k < |g1| && 0 <= q < 3 ==>
      g1[k][q] == if d <= k < d + len then g0[k][q] + PF(s2, eb, pts, q, k, i) else g0[k][q]
    ensures Progress(ps, s2, eb, pts, g1, i, d + len, own)
  {
    forall k, q | 0 <= k < |g1| && 0 <= q < 3
      ensures g1[k][q] == Expected(ps, s2, eb, pts, q, k, i, d + len, own)
    {
      assert g0[k][q] == Expected(ps, s2, eb, pts, q, k, i, d, own);
    }
  }

  /** Particle `i` gains its sum over the partners of row `i`. */
  lemma {:induction false} OwnStep(ps: Pairs, s2: real, eb: real, pts: seq<Point>, g0: seq<Point>, g1: seq<Point>, i: nat)
    requires Separated(pts) && i < |pts| && Progress(ps, s2, eb, pts, g0, i, Hi(ps, i), 0) && |g1| == |g0|
    requires forall q :: 0 <= q < 3 ==> g1[i][q] == g0[i][q] + GradRange(ps, s2, eb, pts, q, i, 0, Hi(ps, i))
    requires forall k :: 0 <= k < |g1| && k != i ==> g1[k] == g0[k]
    ensures Progress(ps, s2, eb, pts, g1, i, Hi(ps, i), i)
  {
    forall k, q | 0 <= k < |g1| && 0 <= q < 3
      ensures g1[k][q] == Expected(ps, s2, eb, pts, q, k, i, Hi(ps, i), i)
    {
      assert g0[k][q] == Expected(ps, s2, eb, pts, q, k, i, Hi(ps, i), 0);
      if k == i {
        GradRangeSplit(ps, s2, eb, pts, q, i, 0, Hi(ps, i), i);
        GradRowTail(ps, s2, eb, pts, q, i, i);
      }
    }
  }

  /** A row whose partners are all done, on both sides, closes. */
  lemma {:induction false} RowClose(ps: Pairs, s2: real, eb: real, pts: seq<Point>, g: seq<Point>, i: nat)
    requires Separated(pts) && i < |pts| && Progress(ps, s2, eb, pts, g, i, Hi(ps, i), i)
    ensures Progress(ps, s2, eb, pts, g, i + 1, 0, 0)
  {
    forall k, q | 0 <= k < |g| && 0 <= q < 3
      ensures g[k][q] == Expected(ps, s2, eb, pts, q, k, i + 1, 0, 0)
    {
      assert g[k][q] == Expected(ps, s2, eb, pts, q, k, i, Hi(ps, i), i);
    }
  }

  /**
   * Lanes `t < len` that lost `c[t]`, the pair `(base + t, i)` on the side of
   * `base + t`, gained, in all, row `i` over `base .. base + len` on the side
   * of `i`, on every axis.
   */
  lemma {:induction false} LaneGrads(ps: Pairs, s2: real, eb: real, pts: seq<Point>, i: nat, base: nat, len: nat,
                                     b0: seq<Point>, b1: seq<Point>, c: seq<Point>)
    requires Separated(pts) && i < |pts| && Lo(ps, i) <= base && base + len <= Hi(ps, i)
    requires len <= |c| && len <= |b0| == |b1|
    requires forall t, q :: 0 <= t < len && 0 <= q < 3 ==> c[t][q] == PF(s2, eb, pts, q, base + t, i)
    requires forall t :: 0 <= t < |b1| ==> b1[t] == if t < len then Sub(b0[t], c[t]) else b0[t]
    ensures forall q :: 0 <= q < 3 ==>
      Sum(Axis(b1, q)) == Sum(Axis(b0, q)) + GradRange(ps, s2, eb, pts, q, i, base, base + len)
  {
    forall q | 0 <= q < 3
      ensures Sum(Axis(b1, q)) == Sum(Axis(b0, q)) + GradRange(ps, s2, eb, pts, q, i, base, base + len)
    {
      LaneGradsAxis(ps, s2, eb, pts, q, i, base, len, b0, b1, c);
    }
  }

  /** `LaneGrads` on axis `q`. */
  lemma {:induction false} LaneGradsAxis(ps: Pairs, s2: real, eb: real, pts: seq<Point>, q: nat, i: nat, base: nat, len: nat,
                                         b0: seq<Point>, b1: seq<Point>, c: seq<Point>)
    requires Separated(pts) && q < 3 && i < |pts| && Lo(ps, i) <= base && base + len <= Hi(ps, i)
    requires len <= |c| && len <= |b0| == |b1|
    requires forall t, q :: 0 <= t < len && 0 <= q < 3 ==> c[t][q] == PF(s2, eb, pts, q, base + t, i)
    requires forall t :: 0 <= t < |b1| ==> b1[t] == if t < len then Sub(b0[t], c[t]) else b0[t]
    ensures Sum(Axis(b1, q)) == Sum(Axis(b0, q)) + GradRange(ps, s2, eb, pts, q, i, base, base + len)
  {
    LaneGradsEach(ps, s2, eb, pts, q, i, base, len, b0, b1, c);
    AxisGain(ps, s2, eb, pts, q, i, base, len, Axis(b0, q), Axis(b1, q));
  }

  /** Lane by lane: losing the pair on the side of `base + t` is gaining it on the side of `i`. */
  lemma {:induction false} LaneGradsEach(ps: Pairs, s2: real, eb: real, pts: seq<Point>, q: nat, i: nat, base: nat, len: nat,
                                         b0: seq<Point>, b1: seq<Point>, c: seq<Point>)
    requires Separated(pts) && q < 3 && i < |pts| && Lo(ps, i) <= base && base + len <= Hi(ps, i)
    requires len <= |c| && len <= |b0| == |b1|
    requires forall t, q :: 0 <= t < len && 0 <= q < 3 ==> c[t][q] == PF(s2, eb, pts, q, base + t, i)
    requires forall t :: 0 <= t < |b1| ==> b1[t] == if t < len then Sub(b0[t], c[t]) else b0[t]
    ensures forall t :: 0 <= t < |b1| ==>
      Axis(b1, q)[t] == if t < len then Axis(b0, q)[t] + Partner(ps, s2, eb, pts, q, i, base + t) else Axis(b0, q)[t]
  {
    forall t | 0 <= t < |b1|
      ensures Axis(b1, q)[t] == if t < len then Axis(b0, q)[t] + Partner(ps, s2, eb, pts, q, i, base + t) else Axis(b0, q)[t]
    {
      if t < len {
        PartnerAntisymmetric(ps, s2, eb, pts, q, i, base + t);
        assert c[t][q] == PF(s2, eb, pts, q, base + t, i);
      }
    }
  }

  /** Adding its partner to each of the first `len` values adds row `i` over `base .. base + len` to their sum. */
  lemma {:induction false} AxisGain(ps: Pairs, s2: real, eb: real, pts: seq<Point>, q: nat, i: nat, base: nat, len: nat,
                                    a0: seq<real>, a1: seq<real>)
    requires Separated(pts) && q < 3 && i < |pts| && base + len <= |pts| && len <= |a0| == |a1|
    requires forall t :: 0 <= t < |a1| ==>
      a1[t] == if t < len then a0[t] + Partner(ps, s2, eb, pts, q, i, base + t) else a0[t]
    ensures Sum(a1) == Sum(a0) + GradRange(ps, s2, eb, pts, q, i, base, base + len)
  {
    var vs := seq(len, t requires 0 <= t < len => Partner(ps, s2, eb, pts, q, i, base + t));
    LaneAdds(a0, a1, vs);
    GradRangeAsSum(ps, s2, eb, pts, q, i, base, base + len, vs);
  }

  /** Row `k` over `base .. hi` is the sum of `vs` when `vs` lists its partners there in order. */
  lemma {:induction false} GradRangeAsSum(ps: Pairs, s2: real, eb: real, pts: seq<Point>, q: nat, k: nat, base: nat, hi: nat, vs: seq<real>)
    requires Separated(pts) && q < 3 && k < |pts| && hi == base + |vs| && hi <= |pts|
    requires forall t :: 0 <= t < |vs| ==> vs[t] == Partner(ps, s2, eb, pts, q, k, base + t)
    ensures GradRange(ps, s2, eb, pts, q, k, base, hi) == Sum(vs)
    decreases |vs|
  {
    if |vs| > 0 {
      var t := |vs| - 1;
      GradRangeAsSum(ps, s2, eb, pts, q, k, base, base + t, vs[..t]);
      GradRangeNext(ps, s2, eb, pts, q, k, base, base + t);
    }
  }

  /** The first `t + 1` lanes sum to the first `t` plus lane `t`. */
  lemma {:induction false} AxisSnoc(b: seq<Point>, q: nat, t: nat)
    requires q < 3 && t < |b|
    ensures Sum(Axis(b[..t + 1], q)) == Sum(Axis(b[..t], q)) + b[t][q]
  {
    assert Axis(b[..t + 1], q)[..t] == Axis(b[..t], q);
  }

  /**
   * Two particles one apart in one block of two: `EarlierBlocks(2)` visits
   * no pair, so particle 1 gets no gradient, where every pair gives it -24
   * on axis 0 (with `s2 = e_b = 1`).
   */
  lemma {:induction false} EarlierBlocksMissesPair(pts: seq<Point>, s2: real, eb: real, lanes: nat)
    requires pts == [[0.0, 0.0, 0.0], [1.0, 0.0, 0.0]] && s2 == 1.0 && eb == 1.0 && lanes == 2
    ensures Separated(pts)
    ensures Grad(EarlierBlocks(lanes), s2, eb, pts, 0, 1) == 0.0
    ensures Grad(AllPairs, s2, eb, pts, 0, 1) == -24.0
  {
    assert Dist2(pts[0], pts[1]) == 1.0 && Dist2(pts[1], pts[0]) == 1.0;
    assert GradScale(s2, eb, 1.0) == -24.0;
    assert PF(s2, eb, pts, 0, 1, 0) == -24.0;
    DivMod(1, lanes);
    assert Hi(EarlierBlocks(lanes), 1) == 0;
    assert !Visited(EarlierBlocks(lanes), 1, 0) && !Visited(EarlierBlocks(lanes), 1, 1);
    assert Visited(AllPairs, 1, 0) && !Visited(AllPairs, 1, 1);
    GradRangeNext(EarlierBlocks(lanes), s2, eb, pts, 0, 1, 0, 1);
    GradRangeNext(AllPairs, s2, eb, pts, 0, 1, 0, 1);
  }
}
