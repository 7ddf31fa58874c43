/**
 * The Lennard-Jones sums that the kernels of `lennard_jones.rs` and
 * `lennard_jones_t.rs` compute, over exact reals.  `s2` stands for
 * `2^(-1/3) * r_eq^2` and is a parameter.  A kernel visits a set of index
 * pairs `(j, i)`, `j < i`; `Pairs` names the sets the kernels visit, and the
 * energy and the gradient are sums over such a set.
 */
module LennardJonesSpec {
  import opened Arith

  /** A particle position `[x, y, z]`. */
  type Point = p: seq<real> | |p| == 3 witness [0.0, 0.0, 0.0]

  /** The squared distance `Σ_q (p[q] - o[q])^2`. */
  function Dist2(p: Point, o: Point): real
  {
    (p[0] - o[0]) * (p[0] - o[0]) + (p[1] - o[1]) * (p[1] - o[1]) + (p[2] - o[2]) * (p[2] - o[2])
  }

  lemma {:induction false} Dist2Symmetric(p: Point, o: Point)
    ensures Dist2(p, o) == Dist2(o, p)
  {
  }

  /** No two particles share a position, so every `s2 / r2` is defined. */
  predicate Apart(pts: seq<Point>, j: nat, i: nat)
    requires j < |pts| && i < |pts|
  {
    Dist2(pts[j], pts[i]) != 0.0
  }

  ghost predicate Separated(pts: seq<Point>)
  {
    forall j, i {:trigger Apart(pts, j, i)} :: 0 <= j < |pts| && 0 <= i < |pts| && j != i ==> Apart(pts, j, i)
  }

  lemma {:induction false} SeparatedSlice(pts: seq<Point>, o: nat, e: nat)
    requires Separated(pts) && o <= e <= |pts|
    ensures Separated(pts[o..e])
  {
    forall j, i | 0 <= j < e - o && 0 <= i < e - o && j != i
      ensures Apart(pts[o..e], j, i)
    {
      assert pts[o..e][j] == pts[o + j] && pts[o..e][i] == pts[o + i];
      assert Apart(pts, o + j, o + i);
    }
  }

  /** The energy of one pair, without the factor `4 e_b`: `sr12 - sr6` with `sr2 = s2 / r2`. */
  function PairTerm(s2: real, r2: real): real
    requires r2 != 0.0
  {
    var sr2 := s2 / r2;
    var sr6 := sr2 * sr2 * sr2;
    sr6 * sr6 - sr6
  }

  /** The energy term of the pair of distinct particles `i` and `j`. */
  function Term(s2: real, pts: seq<Point>, i: nat, j: nat): real
    requires Separated(pts) && i < |pts| && j < |pts| && i != j
  {
    assert Apart(pts, i, j); PairTerm(s2, Dist2(pts[i], pts[j]))
  }

  /** `e * four * e_b`: the scaling every kernel applies to the sum of its pair terms. */
  function Scaled(e: real, eb: real): real
  {
    e * 4.0 * eb
  }

  /**
   * `-24 e_b sr6 / r2 (2 sr6 - 1)`: the derivative of `4 e_b (sr12 - sr6)`
   * with respect to `r2`, times 2; a particle's gradient from one partner
   * is this times the difference of their coordinates.
   */
  function GradScale(s2: real, eb: real, r2: real): real
    requires r2 != 0.0
  {
    var sr2 := s2 / r2;
    var sr6 := sr2 * sr2 * sr2;
    -24.0 * eb * sr6 / r2 * (2.0 * sr6 - 1.0)
  }

  /**
   * The pair sets.  Row `i` holds the partners `j` in `Lo(i) .. Hi(i)`:
   * `AllPairs` every `j < i`; `SameSide(b)` every `j < i` on the same side
   * of `b` as `i`; `EarlierBlocks(n)` every `j` in a block of `n` (counted
   * from 0) before the block of `i`.
   */
  datatype Pairs = AllPairs | SameSide(b: nat) | EarlierBlocks(lanes: nat)

  function Lo(ps: Pairs, i: nat): nat
  {
    match ps
    case SameSide(b) => if i < b then 0 else b
    case _ => 0
  }

  function Hi(ps: Pairs, i: nat): (h: nat)
    ensures Lo(ps, i) <= h <= i
  {
    match ps
    case AllPairs => i
    case SameSide(_) => i
    case EarlierBlocks(n) =>
      if n == 0 then 0 else DivMod(i, n); Mul(n, i / n)
  }

  /** The pair `(j, i)`, `j < i`, is in the set. */
  predicate InSet(ps: Pairs, j: nat, i: nat)
  {
    Lo(ps, i) <= j < Hi(ps, i)
  }

  /** `Σ_{lo <= j < hi} PairTerm(s2, r2(i, j))`: row `i` of a pair set, `j` increasing. */
  function RowEnergy(s2: real, pts: seq<Point>, i: nat, lo: nat, hi: nat): real
    requires Separated(pts) && hi <= i < |pts|
    decreases hi
  {
    if hi <= lo then 0.0 else assert Apart(pts, i, hi - 1); RowEnergy(s2, pts, i, lo, hi - 1) + PairTerm(s2, Dist2(pts[i], pts[hi - 1]))
  }

  /** The unscaled energy of the pairs of `ps` among the first `n` particles, row by row. */
  function Energy(ps: Pairs, s2: real, pts: seq<Point>, n: nat): real
    requires Separated(pts) && n <= |pts|
  {
    if n == 0 then 0.0 else Energy(ps, s2, pts, n - 1) + RowEnergy(s2, pts, n - 1, Lo(ps, n - 1), Hi(ps, n - 1))
  }

  /** One more row. */
  lemma {:induction false} EnergyNext(ps: Pairs, s2: real, pts: seq<Point>, n: nat)
    requires Separated(pts) && n < |pts|
    ensures Energy(ps, s2, pts, n + 1) == Energy(ps, s2, pts, n) + RowEnergy(s2, pts, n, Lo(ps, n), Hi(ps, n))
  {
  }

  lemma {:induction false} RowSplit(s2: real, pts: seq<Point>, i: nat, lo: nat, mid: nat, hi: nat)
    requires Separated(pts) && lo <= mid <= hi <= i < |pts|
    ensures RowEnergy(s2, pts, i, lo, hi) == RowEnergy(s2, pts, i, lo, mid) + RowEnergy(s2, pts, i, mid, hi)
    decreases hi
  {
    if hi > mid {
      RowSplit(s2, pts, i, lo, mid, hi - 1);
    }
  }

  /** The rows of `(b, n)` with their partners before `b`: what `SameSide(b)` leaves out. */
  function Missing(s2: real, pts: seq<Point>, b: nat, n: nat): real
    requires Separated(pts) && n <= |pts|
  {
    if n <= b then 0.0 else Missing(s2, pts, b, n - 1) + RowEnergy(s2, pts, n - 1, 0, b)
  }

  /** `SameSide(b)` misses exactly the pairs that straddle `b`. */
  lemma {:induction false} SameSideMisses(b: nat, s2: real, pts: seq<Point>, n: nat)
    requires Separated(pts) && n <= |pts|
    ensures Energy(AllPairs, s2, pts, n) == Energy(SameSide(b), s2, pts, n) + Missing(s2, pts, b, n)
  {
    if n > 0 {
      var i := n - 1;
      SameSideMisses(b, s2, pts, i);
      assert Energy(AllPairs, s2, pts, n) == Energy(AllPairs, s2, pts, i) + RowEnergy(s2, pts, i, 0, i);
      if i >= b {
        RowSplit(s2, pts, i, 0, b, i);
        assert Energy(SameSide(b), s2, pts, n) == Energy(SameSide(b), s2, pts, i) + RowEnergy(s2, pts, i, b, i);
      } else {
        assert Energy(SameSide(b), s2, pts, n) == Energy(SameSide(b), s2, pts, i) + RowEnergy(s2, pts, i, 0, i);
      }
    }
  }

  /** With the cut at 0 or at (or past) the end, nothing straddles it. */
  lemma {:induction false} SameSideExact(b: nat, s2: real, pts: seq<Point>, n: nat)
    requires Separated(pts) && n <= |pts| && (b == 0 || n <= b)
    ensures Energy(SameSide(b), s2, pts, n) == Energy(AllPairs, s2, pts, n)
  {
    SameSideMisses(b, s2, pts, n);
    NoneMissing(b, s2, pts, n);
  }

  lemma {:induction false} NoneMissing(b: nat, s2: real, pts: seq<Point>, n: nat)
    requires Separated(pts) && n <= |pts| && (b == 0 || n <= b)
    ensures Missing(s2, pts, b, n) == 0.0
  {
    if n > b {
      NoneMissing(b, s2, pts, n - 1);
    }
  }

  lemma {:induction false} PairTermsLine3()
    ensures PairTerm(1.0, 4.0) == -63.0 / 4096.0 && PairTerm(1.0, 1.0) == 0.0
  {
    assert 1.0 / 4.0 * (1.0 / 4.0) * (1.0 / 4.0) == 1.0 / 64.0;
  }

  /** Three particles on a line, one apart. */
  const Line3: seq<Point> := [[0.0, 0.0, 0.0], [1.0, 0.0, 0.0], [2.0, 0.0, 0.0]]

  lemma {:induction false} Line3Separated()
    ensures Separated(Line3)
  {
    forall j, i | 0 <= j < 3 && 0 <= i < 3 && j != i
      ensures Apart(Line3, j, i)
    {
      assert Line3[j][0] != Line3[i][0];
    }
  }

  /** The pairs `(0, 2)` and `(1, 2)` of `Line3` have energy `-63/4096` when `s2 = 1`. */
  lemma {:induction false} Line3Straddling(pts: seq<Point>, s2: real)
    requires pts == Line3 && s2 == 1.0
    ensures Separated(pts) && Missing(s2, pts, 2, 3) == -63.0 / 4096.0
  {
    Line3Separated();
    var p0, p1, p2 := pts[0], pts[1], pts[2];
    assert Dist2(p2, p0) == 4.0 && Dist2(p2, p1) == 1.0;
    PairTermsLine3();
    var t0, t1 := PairTerm(s2, Dist2(p2, p0)), PairTerm(s2, Dist2(p2, p1));
    assert t0 == -63.0 / 4096.0 && t1 == 0.0;
    assert RowEnergy(s2, pts, 2, 0, 1) == t0;
    assert RowEnergy(s2, pts, 2, 0, 2) == t0 + t1;
  }

  /**
   * `SameSide(2)` on `Line3` misses the pairs `(0, 2)` and `(1, 2)`: with
   * `s2 = 1` its energy is off by `63/4096`.
   */
  lemma {:induction false} SameSideMissesLine3(pts: seq<Point>, s2: real, b: nat, n: nat)
    requires pts == Line3 && s2 == 1.0 && b == 2 && n == 3
    ensures Separated(pts)
    ensures Energy(SameSide(b), s2, pts, n) == Energy(AllPairs, s2, pts, n) + 63.0 / 4096.0
  {
    Line3Straddling(pts, s2);
    SameSideOff(b, s2, pts, n, -63.0 / 4096.0);
  }

  lemma {:induction false} SameSideOff(b: nat, s2: real, pts: seq<Point>, n: nat, m: real)
    requires Separated(pts) && n <= |pts| && Missing(s2, pts, b, n) == m
    ensures Energy(SameSide(b), s2, pts, n) == Energy(AllPairs, s2, pts, n) - m
  {
    SameSideMisses(b, s2, pts, n);
  }

  /** `Σ_{k < |s|} s[k]`. */
  function Sum(s: seq<real>): real
  {
    if |s| == 0 then 0.0 else Sum(s[..|s| - 1]) + s[|s| - 1]
  }

  /** Adding `v` to one entry adds `v` to the sum. */
  lemma {:induction false} SumUpdate(s: seq<real>, t: nat, v: real)
    requires t < |s|
    ensures Sum(s[t := s[t] + v]) == Sum(s) + v
    decreases |s|
  {
    var n := |s| - 1;
    var s' := s[t := s[t] + v];
    assert s'[..n] == if t < n then s[..n][t := s[t] + v] else s[..n];
    if t < n {
      SumUpdate(s[..n], t, v);
    }
  }

  /** Entries `t < |vs|` that gained `vs[t]` gained `Sum(vs)` in all. */
  lemma {:induction false} LaneAdds(a0: seq<real>, a1: seq<real>, vs: seq<real>)
    requires |vs| <= |a0| == |a1|
    requires forall t :: 0 <= t < |a1| ==> a1[t] == if t < |vs| then a0[t] + vs[t] else a0[t]
    ensures Sum(a1) == Sum(a0) + Sum(vs)
    decreases |vs|
  {
    if |vs| == 0 {
      assert a1 == a0;
    } else {
      var t := |vs| - 1;
      var mid := a1[t := a0[t]];
      LaneAdds(a0, mid, vs[..t]);
      SumUpdate(mid, t, vs[t]);
      assert mid[t := mid[t] + vs[t]] == a1;
    }
  }

  lemma {:induction false} SumZeros(s: seq<real>)
    requires forall t :: 0 <= t < |s| ==> s[t] == 0.0
    ensures Sum(s) == 0.0
    decreases |s|
  {
    if |s| > 0 {
      SumZeros(s[..|s| - 1]);
    }
  }

  lemma {:induction false} SumSnoc(s: seq<real>, t: nat)
    requires t < |s|
    ensures Sum(s[..t + 1]) == Sum(s[..t]) + s[t]
  {
    assert s[..t + 1][..t] == s[..t];
  }

  /** With at most one particle there is no pair. */
  lemma {:induction false} EnergyFew(ps: Pairs, s2: real, pts: seq<Point>, n: nat)
    requires Separated(pts) && n <= |pts| && n <= 1
    ensures Energy(ps, s2, pts, n) == 0.0
  {
    if n == 1 {
      assert Energy(ps, s2, pts, 1) == Energy(ps, s2, pts, 0) + RowEnergy(s2, pts, 0, Lo(ps, 0), Hi(ps, 0));
    }
  }

  lemma {:induction false} HiOne(i: nat)
    ensures Hi(EarlierBlocks(1), i) == i
  {
    DivMod(i, 1);
  }

  /** Blocks of one particle before the own block are all the earlier particles. */
  lemma {:induction false} EarlierBlocksOne(s2: real, pts: seq<Point>, n: nat)
    requires Separated(pts) && n <= |pts|
    ensures Energy(EarlierBlocks(1), s2, pts, n) == Energy(AllPairs, s2, pts, n)
  {
    if n > 0 {
      EarlierBlocksOne(s2, pts, n - 1);
      HiOne(n - 1);
    }
  }
}
