/**
 * `lennard_jones_grad_rest` and `lennard_jones_grad` of `lennard_jones_t.rs`:
 * the gradient on three coordinate slices, written into three gradient
 * arrays `gx`, `gy`, `gz` in place.  A slice `g[o .. o + m]` handed to a
 * kernel is the array `g` with the window `o`, `m`.  Axis `q` of the
 * gradient of particle `k` is `gx[k]`, `gy[k]` or `gz[k]` for `q` 0, 1, 2,
 * and each step of the kernels is stated one axis at a time.
 */
module LennardJonesSoaGrad {
  import opened Arith
  import opened LennardJonesSpec
  import opened LennardJonesGrad
  import opened LennardJonesAos
  import opened LennardJonesSoa

  /** The gradient scale of particles `j` and `i` of the slices. */
  function ScaleAt(s2: real, eb: real, x: seq<real>, y: seq<real>, z: seq<real>, j: nat, i: nat): (s: real)
    requires Separated(Zip3(x, y, z)) && j < |Zip3(x, y, z)| && i < |Zip3(x, y, z)| && j != i
    ensures Apart(Zip3(x, y, z), j, i) && s == GradScale(s2, eb, Dist2(Zip3(x, y, z)[j], Zip3(x, y, z)[i]))
  {
    assert Zip3(x, y, z)[j] == At(x, y, z, j) && Zip3(x, y, z)[i] == At(x, y, z, i);
    assert Apart(Zip3(x, y, z), j, i);
    GradScale(s2, eb, Dist2(At(x, y, z, j), At(x, y, z, i)))
  }

  /** `c` is axis `q` of the particles. */
  ghost predicate IsAxis(pts: seq<Point>, q: nat, c: seq<real>)
    requires q < 3
  {
    |c| == |pts| && forall t :: 0 <= t < |c| ==> c[t] == pts[t][q]
  }

  lemma {:induction false} Zip3Axes(x: seq<real>, y: seq<real>, z: seq<real>)
    requires |x| == |y| == |z|
    ensures IsAxis(Zip3(x, y, z), 0, x) && IsAxis(Zip3(x, y, z), 1, y) && IsAxis(Zip3(x, y, z), 2, z)
  {
    var pts := Zip3(x, y, z);
    forall t | 0 <= t < |x|
      ensures pts[t][0] == x[t] && pts[t][1] == y[t] && pts[t][2] == z[t]
    {
      assert pts[t] == At(x, y, z, t);
    }
  }

  /** `gs` times the coordinate difference `d` of `k` and `p` is the side of `k` of the pair, and minus the side of `p`. */
  lemma {:induction false} PairSides(s2: real, eb: real, pts: seq<Point>, q: nat, k: nat, p: nat, gs: real, d: real)
    requires Separated(pts) && q < 3 && k < |pts| && p < |pts| && k != p && d == pts[k][q] - pts[p][q]
    requires Apart(pts, k, p) && gs == GradScale(s2, eb, Dist2(pts[k], pts[p]))
    ensures gs * d == PF(s2, eb, pts, q, k, p) && -(gs * d) == PF(s2, eb, pts, q, p, k)
  {
    Dist2Symmetric(pts[k], pts[p]);
    PFScaled(s2, eb, pts, q, k, p, gs);
    PFScaled(s2, eb, pts, q, p, k, gs);
  }

  // ------------------------------------------------------- the rest kernel

  /**
   * What axis `q` of the window `o .. o + m` holds once `lennard_jones_grad_rest`
   * has done rows `0 .. i` of the window and, in row `i`, the partners before
   * `j`: a done particle holds twice what it held (`gxi` starts from `gx[i]`
   * and is added to `gx[i]`) plus its pairs inside the window with the rows
   * done.  Particle `o + i` itself is held in the accumulator meanwhile.
   */
  function RestExpect(s2: real, eb: real, pts: seq<Point>, q: nat, g0: seq<real>, k: nat, o: nat, m: nat, i: nat, j: nat): real
    requires Separated(pts) && q < 3 && |g0| == |pts| && k < |pts| && o + m <= |pts| && j <= i <= m && (j == 0 || i < m)
  {
    if o <= k < o + i then
      2.0 * g0[k] + GradRange(AllPairs, s2, eb, pts, q, k, o, o + i) + (if k < o + j then PF(s2, eb, pts, q, k, o + i) else 0.0)
    else g0[k]
  }

  ghost predicate RestRows(s2: real, eb: real, pts: seq<Point>, q: nat, g: seq<real>, g0: seq<real>, o: nat, m: nat, i: nat, j: nat)
    requires Separated(pts) && q < 3
  {
    |g| == |g0| == |pts| && o + m <= |pts| && j <= i <= m && (j == 0 || i < m) &&
    forall k :: 0 <= k < |g| ==> g[k] == RestExpect(s2, eb, pts, q, g0, k, o, m, i, j)
  }

  /**
   * The effect of `lennard_jones_grad_rest` on axis `q`: every particle of the
   * window holds twice what it held plus its gradient over the pairs inside
   * the window; the rest of `g` is as it was.
   */
  ghost predicate RestDone(s2: real, eb: real, pts: seq<Point>, q: nat, g: seq<real>, g0: seq<real>, o: nat, m: nat)
    requires Separated(pts) && q < 3
  {
    |g| == |g0| == |pts| && o + m <= |pts| &&
    forall k :: 0 <= k < |g| ==>
      g[k] == if o <= k < o + m then 2.0 * g0[k] + GradRange(AllPairs, s2, eb, pts, q, k, o, o + m) else g0[k]
  }

  lemma {:induction false} RestStart(s2: real, eb: real, pts: seq<Point>, q: nat, g0: seq<real>, o: nat, m: nat)
    requires Separated(pts) && q < 3 && |g0| == |pts| && o + m <= |pts|
    ensures RestRows(s2, eb, pts, q, g0, g0, o, m, 0, 0)
  {
  }

  lemma {:induction false} RestFinish(s2: real, eb: real, pts: seq<Point>, q: nat, g: seq<real>, g0: seq<real>, o: nat, m: nat)
    requires Separated(pts) && q < 3 && RestRows(s2, eb, pts, q, g, g0, o, m, m, 0)
    ensures RestDone(s2, eb, pts, q, g, g0, o, m)
  {
    forall k | 0 <= k < |g|
      ensures g[k] == if o <= k < o + m then 2.0 * g0[k] + GradRange(AllPairs, s2, eb, pts, q, k, o, o + m) else g0[k]
    {
      assert g[k] == RestExpect(s2, eb, pts, q, g0, k, o, m, m, 0);
    }
  }

  /** The partner `o + j` of row `o + i` gains its side of the pair. */
  lemma {:induction false} RestPair(s2: real, eb: real, pts: seq<Point>, q: nat, g: seq<real>, g0: seq<real>,
                                    o: nat, m: nat, i: nat, j: nat, v: real)
    requires Separated(pts) && q < 3 && j < i < m && RestRows(s2, eb, pts, q, g, g0, o, m, i, j)
    requires v == PF(s2, eb, pts, q, o + j, o + i)
    ensures RestRows(s2, eb, pts, q, g[o + j := g[o + j] + v], g0, o, m, i, j + 1)
  {
    var g1 := g[o + j := g[o + j] + v];
    forall k | 0 <= k < |g1|
      ensures g1[k] == RestExpect(s2, eb, pts, q, g0, k, o, m, i, j + 1)
    {
      assert g[k] == RestExpect(s2, eb, pts, q, g0, k, o, m, i, j);
    }
  }

  /** Row `o + i` closes: its accumulator is added to what it held. */
  lemma {:induction false} RestRowEnd(s2: real, eb: real, pts: seq<Point>, q: nat, g: seq<real>, g0: seq<real>,
                                      o: nat, m: nat, i: nat, gi: real)
    requires Separated(pts) && q < 3 && i < m && RestRows(s2, eb, pts, q, g, g0, o, m, i, i)
    requires gi == g0[o + i] + GradRange(AllPairs, s2, eb, pts, q, o + i, o, o + i)
    ensures RestRows(s2, eb, pts, q, g[o + i := g[o + i] + gi], g0, o, m, i + 1, 0)
  {
    var g1 := g[o + i := g[o + i] + gi];
    forall k | 0 <= k < |g1|
      ensures g1[k] == RestExpect(s2, eb, pts, q, g0, k, o, m, i + 1, 0)
    {
      assert g[k] == RestExpect(s2, eb, pts, q, g0, k, o, m, i, i);
      if o <= k <= o + i {
        GradRangeNext(AllPairs, s2, eb, pts, q, k, o, o + i);
      }
    }
  }

  /**
   * One axis of the inner step of `lennard_jones_grad_rest`, for the pair
   * `(o + j, o + i)` with its scale `gs`: `g[o + j]` gains `gs` times the
   * coordinate difference, and the accumulator `gi` of `o + i` loses it.
   */
  method AxisPair(g: array<real>, c: seq<real>, gi: real, gs: real, ghost s2: real, ghost eb: real, ghost pts: seq<Point>,
                  ghost q: nat, ghost g0: seq<real>, o: nat, m: nat, i: nat, j: nat) returns (gi': real)
    requires Separated(pts) && q < 3 && IsAxis(pts, q, c) && j < i < m && o + m <= |pts|
    requires Apart(pts, o + j, o + i) && gs == GradScale(s2, eb, Dist2(pts[o + j], pts[o + i]))
    requires RestRows(s2, eb, pts, q, g[..], g0, o, m, i, j)
    requires gi == g0[o + i] + GradRange(AllPairs, s2, eb, pts, q, o + i, o, o + j)
    modifies g
    ensures RestRows(s2, eb, pts, q, g[..], g0, o, m, i, j + 1)
    ensures gi' == g0[o + i] + GradRange(AllPairs, s2, eb, pts, q, o + i, o, o + j + 1)
  {
    var k, p := o + j, o + i;
    var d := c[k] - c[p];
    var s := gs * d;
    gi' := gi - s;
    ghost var g1 := g[..];
    g[k] := g[k] + s;
    assert g[..] == g1[k := g1[k] + s];
    PairSides(s2, eb, pts, q, k, p, gs, d);
    RestPair(s2, eb, pts, q, g1, g0, o, m, i, j, s);
    GradRangeNext(AllPairs, s2, eb, pts, q, p, o, k);
  }

  /** Row `i` of the window `o .. o + m` in `lennard_jones_grad_rest`, its energy added to `e0`. */
  method GradRestRow(e0: real, s2: real, eb: real, x: seq<real>, y: seq<real>, z: seq<real>,
                     gx: array<real>, gy: array<real>, gz: array<real>, o: nat, m: nat, i: nat,
                     ghost g0x: seq<real>, ghost g0y: seq<real>, ghost g0z: seq<real>) returns (e: real)
    requires |x| == |y| == |z| == gx.Length == gy.Length == gz.Length && gx != gy && gy != gz && gx != gz
    requires Separated(Zip3(x, y, z)) && i < m && o + m <= |x|
    requires RestRows(s2, eb, Zip3(x, y, z), 0, gx[..], g0x, o, m, i, 0)
    requires RestRows(s2, eb, Zip3(x, y, z), 1, gy[..], g0y, o, m, i, 0)
    requires RestRows(s2, eb, Zip3(x, y, z), 2, gz[..], g0z, o, m, i, 0)
    modifies gx, gy, gz
    ensures e == e0 + RowEnergy(s2, Zip3(x, y, z), o + i, o, o + i)
    ensures RestRows(s2, eb, Zip3(x, y, z), 0, gx[..], g0x, o, m, i + 1, 0)
    ensures RestRows(s2, eb, Zip3(x, y, z), 1, gy[..], g0y, o, m, i + 1, 0)
    ensures RestRows(s2, eb, Zip3(x, y, z), 2, gz[..], g0z, o, m, i + 1, 0)
  {
    ghost var pts := Zip3(x, y, z);
    Zip3Axes(x, y, z);
    var p := o + i;
    assert gx[p] == RestExpect(s2, eb, pts, 0, g0x, p, o, m, i, 0);
    assert gy[p] == RestExpect(s2, eb, pts, 1, g0y, p, o, m, i, 0);
    assert gz[p] == RestExpect(s2, eb, pts, 2, g0z, p, o, m, i, 0);
    var gxi, gyi, gzi := gx[p], gy[p], gz[p];
    e := e0;
    for j := 0 to i
      invariant e == e0 + RowEnergy(s2, pts, p, o, o + j)
      invariant RestRows(s2, eb, pts, 0, gx[..], g0x, o, m, i, j)
      invariant RestRows(s2, eb, pts, 1, gy[..], g0y, o, m, i, j)
      invariant RestRows(s2, eb, pts, 2, gz[..], g0z, o, m, i, j)
      invariant gxi == g0x[p] + GradRange(AllPairs, s2, eb, pts, 0, p, o, o + j)
      invariant gyi == g0y[p] + GradRange(AllPairs, s2, eb, pts, 1, p, o, o + j)
      invariant gzi == g0z[p] + GradRange(AllPairs, s2, eb, pts, 2, p, o, o + j)
    {
      e, gxi, gyi, gzi := RestStep(e, gxi, gyi, gzi, s2, eb, x, y, z, gx, gy, gz, o, m, i, j, g0x, g0y, g0z);
    }
    AxisClose(gx, gxi, s2, eb, pts, 0, g0x, o, m, i);
    AxisClose(gy, gyi, s2, eb, pts, 1, g0y, o, m, i);
    AxisClose(gz, gzi, s2, eb, pts, 2, g0z, o, m, i);
  }

  /** One axis of the end of row `o + i` in `lennard_jones_grad_rest`: `g[o + i] += gi`. */
  method AxisClose(g: array<real>, gi: real, ghost s2: real, ghost eb: real, ghost pts: seq<Point>, ghost q: nat,
                   ghost g0: seq<real>, o: nat, m: nat, i: nat)
    requires Separated(pts) && q < 3 && i < m && RestRows(s2, eb, pts, q, g[..], g0, o, m, i, i)
    requires gi == g0[o + i] + GradRange(AllPairs, s2, eb, pts, q, o + i, o, o + i)
    modifies g
    ensures RestRows(s2, eb, pts, q, g[..], g0, o, m, i + 1, 0)
  {
    ghost var h := g[..];
    g[o + i] := g[o + i] + gi;
    assert g[..] == h[o + i := h[o + i] + gi];
    RestRowEnd(s2, eb, pts, q, h, g0, o, m, i, gi);
  }

  /** The body of the inner loop of `lennard_jones_grad_rest`: the pair `(o + j, o + i)`. */
  method RestStep(e0: real, gxi0: real, gyi0: real, gzi0: real, s2: real, eb: real, x: seq<real>, y: seq<real>, z: seq<real>,
                  gx: array<real>, gy: array<real>, gz: array<real>, o: nat, m: nat, i: nat, j: nat,
                  ghost g0x: seq<real>, ghost g0y: seq<real>, ghost g0z: seq<real>)
    returns (e: real, gxi: real, gyi: real, gzi: real)
    requires |x| == |y| == |z| == gx.Length == gy.Length == gz.Length && gx != gy && gy != gz && gx != gz
    requires Separated(Zip3(x, y, z)) && j < i < m && o + m <= |x|
    requires RestRows(s2, eb, Zip3(x, y, z), 0, gx[..], g0x, o, m, i, j)
    requires RestRows(s2, eb, Zip3(x, y, z), 1, gy[..], g0y, o, m, i, j)
    requires RestRows(s2, eb, Zip3(x, y, z), 2, gz[..], g0z, o, m, i, j)
    requires gxi0 == g0x[o + i] + GradRange(AllPairs, s2, eb, Zip3(x, y, z), 0, o + i, o, o + j)
    requires gyi0 == g0y[o + i] + GradRange(AllPairs, s2, eb, Zip3(x, y, z), 1, o + i, o, o + j)
    requires gzi0 == g0z[o + i] + GradRange(AllPairs, s2, eb, Zip3(x, y, z), 2, o + i, o, o + j)
    modifies gx, gy, gz
    ensures e == e0 + Term(s2, Zip3(x, y, z), o + i, o + j)
    ensures RestRows(s2, eb, Zip3(x, y, z), 0, gx[..], g0x, o, m, i, j + 1)
    ensures RestRows(s2, eb, Zip3(x, y, z), 1, gy[..], g0y, o, m, i, j + 1)
    ensures RestRows(s2, eb, Zip3(x, y, z), 2, gz[..], g0z, o, m, i, j + 1)
    ensures gxi == g0x[o + i] + GradRange(AllPairs, s2, eb, Zip3(x, y, z), 0, o + i, o, o + j + 1)
    ensures gyi == g0y[o + i] + GradRange(AllPairs, s2, eb, Zip3(x, y, z), 1, o + i, o, o + j + 1)
    ensures gzi == g0z[o + i] + GradRange(AllPairs, s2, eb, Zip3(x, y, z), 2, o + i, o, o + j + 1)
  {
    ghost var pts := Zip3(x, y, z);
    Zip3Axes(x, y, z);
    var k, p := o + j, o + i;
    assert pts[k] == At(x, y, z, k) && pts[p] == At(x, y, z, p) && Apart(pts, k, p);
    Dist2Symmetric(pts[p], pts[k]);
    var r2 := Dist2(At(x, y, z, k), At(x, y, z, p));
    e := e0 + PairTerm(s2, r2);
    var gs := GradScale(s2, eb, r2);
    gxi := AxisPair(gx, x, gxi0, gs, s2, eb, pts, 0, g0x, o, m, i, j);
    gyi := AxisPair(gy, y, gyi0, gs, s2, eb, pts, 1, g0y, o, m, i, j);
    gzi := AxisPair(gz, z, gzi0, gs, s2, eb, pts, 2, g0z, o, m, i, j);
  }

  /**
   * `lennard_jones_grad_rest` on the window `o .. o + m`: the energy of the
   * pairs inside the window, and on every axis `RestDone`.
   */
  method GradRest(s2: real, eb: real, x: seq<real>, y: seq<real>, z: seq<real>,
                  gx: array<real>, gy: array<real>, gz: array<real>, o: nat, m: nat) returns (e: real)
    requires |x| == |y| == |z| == gx.Length == gy.Length == gz.Length && gx != gy && gy != gz && gx != gz
    requires Separated(Zip3(x, y, z)) && o + m <= |x|
    modifies gx, gy, gz
    ensures e == Tri(s2, Zip3(x, y, z), o, m)
    ensures RestDone(s2, eb, Zip3(x, y, z), 0, gx[..], old(gx[..]), o, m)
    ensures RestDone(s2, eb, Zip3(x, y, z), 1, gy[..], old(gy[..]), o, m)
    ensures RestDone(s2, eb, Zip3(x, y, z), 2, gz[..], old(gz[..]), o, m)
  {
    ghost var pts := Zip3(x, y, z);
    ghost var g0x, g0y, g0z := gx[..], gy[..], gz[..];
    RestStart(s2, eb, pts, 0, g0x, o, m);
    RestStart(s2, eb, pts, 1, g0y, o, m);
    RestStart(s2, eb, pts, 2, g0z, o, m);
    e := 0.0;
    for i := 0 to m
      invariant e == Tri(s2, pts, o, i)
      invariant RestRows(s2, eb, pts, 0, gx[..], g0x, o, m, i, 0)
      invariant RestRows(s2, eb, pts, 1, gy[..], g0y, o, m, i, 0)
      invariant RestRows(s2, eb, pts, 2, gz[..], g0z, o, m, i, 0)
    {
      e := GradRestRow(e, s2, eb, x, y, z, gx, gy, gz, o, m, i, g0x, g0y, g0z);
    }
    RestFinish(s2, eb, pts, 0, gx[..], g0x, o, m);
    RestFinish(s2, eb, pts, 1, gy[..], g0y, o, m);
    RestFinish(s2, eb, pts, 2, gz[..], g0z, o, m);
  }

  // ------------------------------------------------------ the chunk loop

  /**
   * Axis `q` of `g` once `lennard_jones_grad` has done the chunks below `n0`:
   * each particle there holds its gradient over the pairs below `n0`, and
   * the rest of `g` is still zero.
   */
  ghost predicate Before(s2: real, eb: real, pts: seq<Point>, q: nat, g: seq<real>, n0: nat)
    requires Separated(pts) && q < 3
  {
    |g| == |pts| && n0 <= |pts| &&
    forall k :: 0 <= k < |g| ==> g[k] == if k < n0 then GradRange(AllPairs, s2, eb, pts, q, k, 0, n0) else 0.0
  }

  /**
   * Axis `q` midway through the partner loop of the chunk at `o`: the
   * partners `0 .. j` have gained their sides of the pairs with the chunk,
   * the chunk itself holds its own pairs, and the lane accumulators `gi`
   * hold the chunk's own pairs and the partners `0 .. j`.
   */
  ghost predicate Midway(s2: real, eb: real, pts: seq<Point>, q: nat, g: seq<real>, gi: seq<real>, o: nat, lanes: nat, j: nat)
    requires Separated(pts) && q < 3
  {
    |g| == |pts| && |gi| == lanes && j <= o && o + lanes <= |pts| &&
    (forall k :: 0 <= k < |g| ==>
      g[k] == (if k < o then
                 GradRange(AllPairs, s2, eb, pts, q, k, 0, o) + (if k < j then GradRange(AllPairs, s2, eb, pts, q, k, o, o + lanes) else 0.0)
               else if k < o + lanes then GradRange(AllPairs, s2, eb, pts, q, k, o, o + lanes)
               else 0.0)) &&
    forall l :: 0 <= l < lanes ==>
      gi[l] == GradRange(AllPairs, s2, eb, pts, q, o + l, o, o + lanes) + GradRange(AllPairs, s2, eb, pts, q, o + l, 0, j)
  }

  /** Nothing is done before the first chunk. */
  lemma {:induction false} BeforeStart(s2: real, eb: real, pts: seq<Point>, q: nat, g: seq<real>)
    requires Separated(pts) && q < 3 && |g| == |pts| && forall k :: 0 <= k < |g| ==> g[k] == 0.0
    ensures Before(s2, eb, pts, q, g, 0)
  {
  }

  /** After the rest kernel on the zeroed chunk, the accumulators are loaded from it. */
  lemma {:induction false} MidStart(s2: real, eb: real, pts: seq<Point>, q: nat, g: seq<real>, g0: seq<real>, o: nat, lanes: nat)
    requires Separated(pts) && q < 3 && Before(s2, eb, pts, q, g0, o) && RestDone(s2, eb, pts, q, g, g0, o, lanes)
    ensures Midway(s2, eb, pts, q, g, g[o .. o + lanes], o, lanes, 0)
  {
    forall k | 0 <= k < |g|
      ensures g[k] ==
        if k < o then GradRange(AllPairs, s2, eb, pts, q, k, 0, o) + 0.0
        else if k < o + lanes then GradRange(AllPairs, s2, eb, pts, q, k, o, o + lanes)
        else 0.0
    {
      assert g0[k] == if k < o then GradRange(AllPairs, s2, eb, pts, q, k, 0, o) else 0.0;
    }
  }

  /**
   * Partner `j` of the chunk at `o`: it gains the sum of its sides `vs` of
   * the pairs with the lanes, and lane `l` loses `vs[l]`.
   */
  lemma {:induction false} MidStep(s2: real, eb: real, pts: seq<Point>, q: nat, g: seq<real>, gi: seq<real>,
                                   o: nat, lanes: nat, j: nat, vs: seq<real>, g': seq<real>, gi': seq<real>)
    requires Separated(pts) && q < 3 && j < o && Midway(s2, eb, pts, q, g, gi, o, lanes, j)
    requires |vs| == lanes && forall l :: 0 <= l < lanes ==> vs[l] == PF(s2, eb, pts, q, j, o + l)
    requires g' == g[j := g[j] + Sum(vs)]
    requires |gi'| == lanes && forall l :: 0 <= l < lanes ==> gi'[l] == gi[l] - vs[l]
    ensures Midway(s2, eb, pts, q, g', gi', o, lanes, j + 1)
  {
    GradRangeAsSum(AllPairs, s2, eb, pts, q, j, o, o + lanes, vs);
    forall l | 0 <= l < lanes
      ensures gi'[l] == GradRange(AllPairs, s2, eb, pts, q, o + l, o, o + lanes) + GradRange(AllPairs, s2, eb, pts, q, o + l, 0, j + 1)
    {
      GradRangeNext(AllPairs, s2, eb, pts, q, o + l, 0, j);
      PartnerAntisymmetric(AllPairs, s2, eb, pts, q, o + l, j);
    }
    forall k | 0 <= k < |g'|
      ensures g'[k] ==
        if k < o then
          GradRange(AllPairs, s2, eb, pts, q, k, 0, o) + (if k < j + 1 then GradRange(AllPairs, s2, eb, pts, q, k, o, o + lanes) else 0.0)
        else if k < o + lanes then GradRange(AllPairs, s2, eb, pts, q, k, o, o + lanes)
        else 0.0
    {
    }
  }

  /** The lanes are stored back over the chunk: every particle below `o + lanes` is done. */
  lemma {:induction false} MidClose(s2: real, eb: real, pts: seq<Point>, q: nat, g: seq<real>, gi: seq<real>,
                                    o: nat, lanes: nat, g': seq<real>)
    requires Separated(pts) && q < 3 && Midway(s2, eb, pts, q, g, gi, o, lanes, o)
    requires |g'| == |g| && forall k :: 0 <= k < |g'| ==> g'[k] == if o <= k < o + lanes then gi[k - o] else g[k]
    ensures Before(s2, eb, pts, q, g', o + lanes)
  {
    forall k | 0 <= k < |g'|
      ensures g'[k] == if k < o + lanes then GradRange(AllPairs, s2, eb, pts, q, k, 0, o + lanes) else 0.0
    {
      if k < o + lanes {
        GradRangeSplit(AllPairs, s2, eb, pts, q, k, 0, o, o + lanes);
        if o <= k {
          assert gi[k - o] == GradRange(AllPairs, s2, eb, pts, q, o + (k - o), o, o + lanes)
                            + GradRange(AllPairs, s2, eb, pts, q, o + (k - o), 0, o);
        }
      }
    }
  }

  /**
   * After the last chunk (at `b`) and the rest kernel on `b .. |pts|`, axis
   * `q` is the gradient over `SameSide(b)`.
   */
  lemma {:induction false} GradFinish(s2: real, eb: real, pts: seq<Point>, q: nat, g: seq<real>, g0: seq<real>, b: nat, m: nat)
    requires Separated(pts) && q < 3 && b + m == |pts| && Before(s2, eb, pts, q, g0, b) && RestDone(s2, eb, pts, q, g, g0, b, m)
    ensures forall k :: 0 <= k < |g| ==> g[k] == Grad(SameSide(b), s2, eb, pts, q, k)
  {
    forall k | 0 <= k < |g|
      ensures g[k] == Grad(SameSide(b), s2, eb, pts, q, k)
    {
      GradSameSideParts(b, s2, eb, pts, q, k);
      assert g0[k] == if k < b then GradRange(AllPairs, s2, eb, pts, q, k, 0, b) else 0.0;
    }
  }

  /**
   * One axis of partner `j` against the lanes of the chunk at `o`, with the
   * lane scales `ls`: `gxs = gs * dx`, `gxi -= gxs`, `gx[j] += gxs.reduce_sum()`.
   */
  method AxisLanes(g: array<real>, c: seq<real>, gi: seq<real>, ls: seq<real>, ghost s2: real, ghost eb: real,
                   ghost pts: seq<Point>, ghost q: nat, o: nat, lanes: nat, j: nat) returns (gi': seq<real>)
    requires Separated(pts) && q < 3 && IsAxis(pts, q, c) && j < o && |ls| == lanes
    requires Midway(s2, eb, pts, q, g[..], gi, o, lanes, j)
    requires forall l :: 0 <= l < lanes ==> Apart(pts, j, o + l) && ls[l] == GradScale(s2, eb, Dist2(pts[j], pts[o + l]))
    modifies g
    ensures Midway(s2, eb, pts, q, g[..], gi', o, lanes, j + 1)
  {
    var gs := seq(lanes, l requires 0 <= l < lanes => ls[l] * (c[j] - c[o + l]));
    gi' := seq(lanes, l requires 0 <= l < lanes => gi[l] - gs[l]);
    forall l | 0 <= l < lanes
      ensures gs[l] == PF(s2, eb, pts, q, j, o + l)
    {
      PairSides(s2, eb, pts, q, j, o + l, ls[l], c[j] - c[o + l]);
    }
    ghost var h := g[..];
    g[j] := g[j] + Sum(gs);
    MidStep(s2, eb, pts, q, h, gi, o, lanes, j, gs, g[..], gi');
  }

  /** The body of the partner loop of `lennard_jones_grad`: partner `j` against the chunk at `o`. */
  method GradStep(es0: seq<real>, gxi0: seq<real>, gyi0: seq<real>, gzi0: seq<real>, s2: real, eb: real,
                  x: seq<real>, y: seq<real>, z: seq<real>, gx: array<real>, gy: array<real>, gz: array<real>,
                  lanes: nat, o: nat, j: nat)
    returns (es: seq<real>, gxi: seq<real>, gyi: seq<real>, gzi: seq<real>)
    requires |x| == |y| == |z| == gx.Length == gy.Length == gz.Length && gx != gy && gy != gz && gx != gz
    requires Separated(Zip3(x, y, z)) && |es0| == lanes && j < o
    requires Midway(s2, eb, Zip3(x, y, z), 0, gx[..], gxi0, o, lanes, j)
    requires Midway(s2, eb, Zip3(x, y, z), 1, gy[..], gyi0, o, lanes, j)
    requires Midway(s2, eb, Zip3(x, y, z), 2, gz[..], gzi0, o, lanes, j)
    modifies gx, gy, gz
    ensures |es| == lanes
    ensures Sum(es) == Sum(es0) + BlockRows(s2, Zip3(x, y, z), o, lanes, 0, j + 1) - BlockRows(s2, Zip3(x, y, z), o, lanes, 0, j)
    ensures Midway(s2, eb, Zip3(x, y, z), 0, gx[..], gxi, o, lanes, j + 1)
    ensures Midway(s2, eb, Zip3(x, y, z), 1, gy[..], gyi, o, lanes, j + 1)
    ensures Midway(s2, eb, Zip3(x, y, z), 2, gz[..], gzi, o, lanes, j + 1)
  {
    ghost var pts := Zip3(x, y, z);
    Zip3Axes(x, y, z);
    es := EarlierStep(es0, s2, x, y, z, lanes, o, j);
    var ls := seq(lanes, l requires 0 <= l < lanes => ScaleAt(s2, eb, x, y, z, j, o + l));
    forall l | 0 <= l < lanes
      ensures Apart(pts, j, o + l) && ls[l] == GradScale(s2, eb, Dist2(pts[j], pts[o + l]))
    {
      assert ls[l] == ScaleAt(s2, eb, x, y, z, j, o + l);
    }
    gxi := AxisLanes(gx, x, gxi0, ls, s2, eb, pts, 0, o, lanes, j);
    gyi := AxisLanes(gy, y, gyi0, ls, s2, eb, pts, 1, o, lanes, j);
    gzi := AxisLanes(gz, z, gzi0, ls, s2, eb, pts, 2, o, lanes, j);
  }

  /** One axis of the end of a chunk: the lanes are written back over `g[o .. o + lanes]`. */
  method AxisStore(g: array<real>, gi: seq<real>, ghost s2: real, ghost eb: real, ghost pts: seq<Point>, ghost q: nat,
                   o: nat, lanes: nat)
    requires Separated(pts) && q < 3 && Midway(s2, eb, pts, q, g[..], gi, o, lanes, o)
    modifies g
    ensures Before(s2, eb, pts, q, g[..], o + lanes)
  {
    ghost var h := g[..];
    forall l | 0 <= l < lanes {
      g[o + l] := gi[l];
    }
    assert forall k :: 0 <= k < g.Length ==> g[k] == if o <= k < o + lanes then gi[k - o] else h[k];
    MidClose(s2, eb, pts, q, h, gi, o, lanes, g[..]);
  }

  /** The partner loop of chunk `o`: every particle before it against the lanes. */
  method GradLanes(es0: seq<real>, gxi0: seq<real>, gyi0: seq<real>, gzi0: seq<real>, s2: real, eb: real,
                   x: seq<real>, y: seq<real>, z: seq<real>, gx: array<real>, gy: array<real>, gz: array<real>,
                   lanes: nat, o: nat)
    returns (es: seq<real>, gxi: seq<real>, gyi: seq<real>, gzi: seq<real>)
    requires |x| == |y| == |z| == gx.Length == gy.Length == gz.Length && gx != gy && gy != gz && gx != gz
    requires Separated(Zip3(x, y, z)) && |es0| == lanes
    requires Midway(s2, eb, Zip3(x, y, z), 0, gx[..], gxi0, o, lanes, 0)
    requires Midway(s2, eb, Zip3(x, y, z), 1, gy[..], gyi0, o, lanes, 0)
    requires Midway(s2, eb, Zip3(x, y, z), 2, gz[..], gzi0, o, lanes, 0)
    modifies gx, gy, gz
    ensures |es| == lanes && Sum(es) == Sum(es0) + BlockRows(s2, Zip3(x, y, z), o, lanes, 0, o)
    ensures Midway(s2, eb, Zip3(x, y, z), 0, gx[..], gxi, o, lanes, o)
    ensures Midway(s2, eb, Zip3(x, y, z), 1, gy[..], gyi, o, lanes, o)
    ensures Midway(s2, eb, Zip3(x, y, z), 2, gz[..], gzi, o, lanes, o)
  {
    ghost var pts := Zip3(x, y, z);
    BlockRowsNone(s2, pts, o, lanes);
    es, gxi, gyi, gzi := es0, gxi0, gyi0, gzi0;
    for j := 0 to o
      invariant |es| == lanes && Sum(es) == Sum(es0) + BlockRows(s2, pts, o, lanes, 0, j)
      invariant Midway(s2, eb, pts, 0, gx[..], gxi, o, lanes, j)
      invariant Midway(s2, eb, pts, 1, gy[..], gyi, o, lanes, j)
      invariant Midway(s2, eb, pts, 2, gz[..], gzi, o, lanes, j)
    {
      es, gxi, gyi, gzi := GradStep(es, gxi, gyi, gzi, s2, eb, x, y, z, gx, gy, gz, lanes, o, j);
    }
  }

  /**
   * Chunk `c` of `lennard_jones_grad`: the rest kernel on the chunk, the
   * partner loop, and the lanes stored back.  Its own pairs go to the
   * returned energy, its pairs with the earlier particles to the lanes `es`.
   */
  method GradChunk(es0: seq<real>, s2: real, eb: real, x: seq<real>, y: seq<real>, z: seq<real>,
                   gx: array<real>, gy: array<real>, gz: array<real>, lanes: nat, c: nat)
    returns (e: real, es: seq<real>)
    requires |x| == |y| == |z| == gx.Length == gy.Length == gz.Length && gx != gy && gy != gz && gx != gz
    requires Separated(Zip3(x, y, z)) && lanes > 0 && |es0| == lanes && Mul(lanes, c) + lanes <= |x|
    requires Before(s2, eb, Zip3(x, y, z), 0, gx[..], Mul(lanes, c))
    requires Before(s2, eb, Zip3(x, y, z), 1, gy[..], Mul(lanes, c))
    requires Before(s2, eb, Zip3(x, y, z), 2, gz[..], Mul(lanes, c))
    modifies gx, gy, gz
    ensures e == Tri(s2, Zip3(x, y, z), Mul(lanes, c), lanes)
    ensures |es| == lanes
    ensures Sum(es) == Sum(es0) + Energy(EarlierBlocks(lanes), s2, Zip3(x, y, z), Mul(lanes, c + 1))
                                - Energy(EarlierBlocks(lanes), s2, Zip3(x, y, z), Mul(lanes, c))
    ensures Before(s2, eb, Zip3(x, y, z), 0, gx[..], Mul(lanes, c + 1))
    ensures Before(s2, eb, Zip3(x, y, z), 1, gy[..], Mul(lanes, c + 1))
    ensures Before(s2, eb, Zip3(x, y, z), 2, gz[..], Mul(lanes, c + 1))
  {
    ghost var pts := Zip3(x, y, z);
    var o := Mul(lanes, c);
    assert Mul(lanes, c + 1) == o + lanes;
    var gxi, gyi, gzi;
    e, gxi, gyi, gzi := ChunkOpen(s2, eb, x, y, z, gx, gy, gz, o, lanes);
    es, gxi, gyi, gzi := GradLanes(es0, gxi, gyi, gzi, s2, eb, x, y, z, gx, gy, gz, lanes, o);
    ChunkClose(gx, gy, gz, gxi, gyi, gzi, s2, eb, pts, o, lanes, Mul(lanes, c + 1));
    EarlierRows(s2, pts, lanes, c);
  }

  /** The start of a chunk: the rest kernel on it, and its lanes loaded into the accumulators. */
  method ChunkOpen(s2: real, eb: real, x: seq<real>, y: seq<real>, z: seq<real>,
                   gx: array<real>, gy: array<real>, gz: array<real>, o: nat, lanes: nat)
    returns (e: real, gxi: seq<real>, gyi: seq<real>, gzi: seq<real>)
    requires |x| == |y| == |z| == gx.Length == gy.Length == gz.Length && gx != gy && gy != gz && gx != gz
    requires Separated(Zip3(x, y, z)) && o + lanes <= |x|
    requires Before(s2, eb, Zip3(x, y, z), 0, gx[..], o)
    requires Before(s2, eb, Zip3(x, y, z), 1, gy[..], o)
    requires Before(s2, eb, Zip3(x, y, z), 2, gz[..], o)
    modifies gx, gy, gz
    ensures e == Tri(s2, Zip3(x, y, z), o, lanes)
    ensures Midway(s2, eb, Zip3(x, y, z), 0, gx[..], gxi, o, lanes, 0)
    ensures Midway(s2, eb, Zip3(x, y, z), 1, gy[..], gyi, o, lanes, 0)
    ensures Midway(s2, eb, Zip3(x, y, z), 2, gz[..], gzi, o, lanes, 0)
  {
    ghost var pts := Zip3(x, y, z);
    ghost var g0x, g0y, g0z := gx[..], gy[..], gz[..];
    e := GradRest(s2, eb, x, y, z, gx, gy, gz, o, lanes);
    MidStart(s2, eb, pts, 0, gx[..], g0x, o, lanes);
    MidStart(s2, eb, pts, 1, gy[..], g0y, o, lanes);
    MidStart(s2, eb, pts, 2, gz[..], g0z, o, lanes);
    gxi, gyi, gzi := gx[o .. o + lanes], gy[o .. o + lanes], gz[o .. o + lanes];
  }

  /** The end of a chunk: the accumulators written back over it on every axis. */
  method ChunkClose(gx: array<real>, gy: array<real>, gz: array<real>, gxi: seq<real>, gyi: seq<real>, gzi: seq<real>,
                    ghost s2: real, ghost eb: real, ghost pts: seq<Point>, o: nat, lanes: nat, ghost n1: nat)
    requires Separated(pts) && gx != gy && gy != gz && gx != gz && n1 == o + lanes
    requires Midway(s2, eb, pts, 0, gx[..], gxi, o, lanes, o)
    requires Midway(s2, eb, pts, 1, gy[..], gyi, o, lanes, o)
    requires Midway(s2, eb, pts, 2, gz[..], gzi, o, lanes, o)
    modifies gx, gy, gz
    ensures Before(s2, eb, pts, 0, gx[..], n1)
    ensures Before(s2, eb, pts, 1, gy[..], n1)
    ensures Before(s2, eb, pts, 2, gz[..], n1)
  {
    AxisStore(gx, gxi, s2, eb, pts, 0, o, lanes);
    AxisStore(gy, gyi, s2, eb, pts, 1, o, lanes);
    AxisStore(gz, gzi, s2, eb, pts, 2, o, lanes);
  }

  /** `g.fill(0)`. */
  method Clear(g: array<real>)
    modifies g
    ensures forall k :: 0 <= k < g.Length ==> g[k] == 0.0
  {
    forall k | 0 <= k < g.Length {
      g[k] := 0.0;
    }
  }

  /**
   * The state of `lennard_jones_grad` after `c` chunks: the lanes `es` hold
   * the pairs of the chunks with the particles before them, `e` the pairs
   * inside the chunks, and every axis the gradient over all pairs below
   * `N c`.
   */
  ghost predicate ChunksDone(s2: real, eb: real, pts: seq<Point>, lanes: nat, gx: seq<real>, gy: seq<real>, gz: seq<real>,
                             es: seq<real>, e: real, c: nat)
    requires Separated(pts) && lanes > 0
  {
    Mul(lanes, c) <= |pts| &&
    |es| == lanes && Sum(es) == Energy(EarlierBlocks(lanes), s2, pts, Mul(lanes, c)) &&
    e == Energy(AllPairs, s2, pts, Mul(lanes, c)) - Energy(EarlierBlocks(lanes), s2, pts, Mul(lanes, c)) &&
    Before(s2, eb, pts, 0, gx, Mul(lanes, c)) && Before(s2, eb, pts, 1, gy, Mul(lanes, c)) && Before(s2, eb, pts, 2, gz, Mul(lanes, c))
  }

  /**
   * The chunk loop of `lennard_jones_grad` on zeroed gradients, with the
   * lanes `es` reduced after it: the energy of every pair below the last
   * chunk's end, and all their gradients.
   */
  method GradChunks(s2: real, eb: real, x: seq<real>, y: seq<real>, z: seq<real>,
                    gx: array<real>, gy: array<real>, gz: array<real>, lanes: nat) returns (e: real, b: nat)
    requires |x| == |y| == |z| == gx.Length == gy.Length == gz.Length && gx != gy && gy != gz && gx != gz
    requires Separated(Zip3(x, y, z)) && lanes > 0
    requires Before(s2, eb, Zip3(x, y, z), 0, gx[..], 0)
    requires Before(s2, eb, Zip3(x, y, z), 1, gy[..], 0)
    requires Before(s2, eb, Zip3(x, y, z), 2, gz[..], 0)
    modifies gx, gy, gz
    ensures b == ChunkEnd(|x|, lanes)
    ensures e == Energy(AllPairs, s2, Zip3(x, y, z), b)
    ensures Before(s2, eb, Zip3(x, y, z), 0, gx[..], b)
    ensures Before(s2, eb, Zip3(x, y, z), 1, gy[..], b)
    ensures Before(s2, eb, Zip3(x, y, z), 2, gz[..], b)
  {
    ghost var pts := Zip3(x, y, z);
    var chunks := |x| / lanes;
    DivMod(|x|, lanes);
    var es := seq(lanes, _ => 0.0);
    SumZeros(es);
    e := 0.0;
    assert ChunksDone(s2, eb, pts, lanes, gx[..], gy[..], gz[..], es, e, 0);
    e, es := ChunkLoop(e, es, s2, eb, x, y, z, gx, gy, gz, lanes, chunks);
    e := e + Sum(es);
    b := Mul(lanes, chunks);
  }

  /** The chunks `0 .. chunks` in turn. */
  method ChunkLoop(e0: real, es0: seq<real>, s2: real, eb: real, x: seq<real>, y: seq<real>, z: seq<real>,
                   gx: array<real>, gy: array<real>, gz: array<real>, lanes: nat, chunks: nat)
    returns (e: real, es: seq<real>)
    requires |x| == |y| == |z| == gx.Length == gy.Length == gz.Length && gx != gy && gy != gz && gx != gz
    requires Separated(Zip3(x, y, z)) && lanes > 0 && Mul(lanes, chunks) <= |x|
    requires ChunksDone(s2, eb, Zip3(x, y, z), lanes, gx[..], gy[..], gz[..], es0, e0, 0)
    modifies gx, gy, gz
    ensures ChunksDone(s2, eb, Zip3(x, y, z), lanes, gx[..], gy[..], gz[..], es, e, chunks)
  {
    e, es := e0, es0;
    for c := 0 to chunks
      invariant ChunksDone(s2, eb, Zip3(x, y, z), lanes, gx[..], gy[..], gz[..], es, e, c)
    {
      MulMonotone(lanes, c + 1, chunks);
      e, es := ChunkStep(e, es, s2, eb, x, y, z, gx, gy, gz, lanes, c);
    }
  }

  /** One turn of the chunk loop: chunk `c`'s own pairs to `e`, its earlier pairs to `es`. */
  method ChunkStep(e0: real, es0: seq<real>, s2: real, eb: real, x: seq<real>, y: seq<real>, z: seq<real>,
                   gx: array<real>, gy: array<real>, gz: array<real>, lanes: nat, c: nat)
    returns (e: real, es: seq<real>)
    requires |x| == |y| == |z| == gx.Length == gy.Length == gz.Length && gx != gy && gy != gz && gx != gz
    requires Separated(Zip3(x, y, z)) && lanes > 0 && Mul(lanes, c + 1) <= |x|
    requires ChunksDone(s2, eb, Zip3(x, y, z), lanes, gx[..], gy[..], gz[..], es0, e0, c)
    modifies gx, gy, gz
    ensures ChunksDone(s2, eb, Zip3(x, y, z), lanes, gx[..], gy[..], gz[..], es, e, c + 1)
  {
    var ec;
    ec, es := GradChunk(es0, s2, eb, x, y, z, gx, gy, gz, lanes, c);
    OwnRows(s2, Zip3(x, y, z), lanes, c);
    e := e0 + ec;
  }

  /** `SameSide(b)` up to `n`: every pair below `b`, and the pairs inside `b .. n`. */
  lemma {:induction false} SameSideUpTo(s2: real, pts: seq<Point>, b: nat, n: nat)
    requires Separated(pts) && b <= n <= |pts|
    ensures Energy(SameSide(b), s2, pts, n) == Energy(AllPairs, s2, pts, b) + Tri(s2, pts, b, n - b)
  {
    SameSideRows(s2, pts, b, n - b);
  }

  /** `lennard_jones_grad` before the final scaling by `4 e_b`. */
  method GradientSum(s2: real, eb: real, x: seq<real>, y: seq<real>, z: seq<real>,
                     gx: array<real>, gy: array<real>, gz: array<real>, lanes: nat) returns (e: real, b: nat)
    requires |x| == |y| == |z| == gx.Length == gy.Length == gz.Length && gx != gy && gy != gz && gx != gz
    requires Separated(Zip3(x, y, z)) && lanes > 0
    modifies gx, gy, gz
    ensures b == ChunkEnd(|x|, lanes)
    ensures e == Energy(SameSide(b), s2, Zip3(x, y, z), |x|)
    ensures forall k :: 0 <= k < |x| ==> gx[k] == Grad(SameSide(b), s2, eb, Zip3(x, y, z), 0, k)
    ensures forall k :: 0 <= k < |x| ==> gy[k] == Grad(SameSide(b), s2, eb, Zip3(x, y, z), 1, k)
    ensures forall k :: 0 <= k < |x| ==> gz[k] == Grad(SameSide(b), s2, eb, Zip3(x, y, z), 2, k)
  {
    ghost var pts := Zip3(x, y, z);
    Clear(gx);
    Clear(gy);
    Clear(gz);
    BeforeStart(s2, eb, pts, 0, gx[..]);
    BeforeStart(s2, eb, pts, 1, gy[..]);
    BeforeStart(s2, eb, pts, 2, gz[..]);
    e, b := GradChunks(s2, eb, x, y, z, gx, gy, gz, lanes);
    e := GradTail(e, s2, eb, x, y, z, gx, gy, gz, b);
  }

  /** The rest kernel on the particles past the last chunk, its energy added to that of the chunks. */
  method GradTail(e0: real, s2: real, eb: real, x: seq<real>, y: seq<real>, z: seq<real>,
                  gx: array<real>, gy: array<real>, gz: array<real>, b: nat) returns (e: real)
    requires |x| == |y| == |z| == gx.Length == gy.Length == gz.Length && gx != gy && gy != gz && gx != gz
    requires Separated(Zip3(x, y, z)) && b <= |x| && e0 == Energy(AllPairs, s2, Zip3(x, y, z), b)
    requires Before(s2, eb, Zip3(x, y, z), 0, gx[..], b)
    requires Before(s2, eb, Zip3(x, y, z), 1, gy[..], b)
    requires Before(s2, eb, Zip3(x, y, z), 2, gz[..], b)
    modifies gx, gy, gz
    ensures e == Energy(SameSide(b), s2, Zip3(x, y, z), |x|)
    ensures forall k :: 0 <= k < |x| ==> gx[k] == Grad(SameSide(b), s2, eb, Zip3(x, y, z), 0, k)
    ensures forall k :: 0 <= k < |x| ==> gy[k] == Grad(SameSide(b), s2, eb, Zip3(x, y, z), 1, k)
    ensures forall k :: 0 <= k < |x| ==> gz[k] == Grad(SameSide(b), s2, eb, Zip3(x, y, z), 2, k)
  {
    ghost var pts := Zip3(x, y, z);
    ghost var g1x, g1y, g1z := gx[..], gy[..], gz[..];
    var er := GradRest(s2, eb, x, y, z, gx, gy, gz, b, |x| - b);
    e := e0 + er;
    SameSideUpTo(s2, pts, b, |x|);
    GradFinish(s2, eb, pts, 0, gx[..], g1x, b, |x| - b);
    GradFinish(s2, eb, pts, 1, gy[..], g1y, b, |x| - b);
    GradFinish(s2, eb, pts, 2, gz[..], g1z, b, |x| - b);
  }

  /**
   * `lennard_jones_grad`: it panics unless the six slices have one length;
   * otherwise it returns `4 e_b` times the energy over `SameSide(b)` for the
   * end `b` of the last full chunk, and leaves in the gradient arrays the
   * gradient over the same pairs, which sums to zero on every axis.
   */
  method LennardJonesGradient(s2: real, eb: real, x: seq<real>, y: seq<real>, z: seq<real>,
                              gx: array<real>, gy: array<real>, gz: array<real>, lanes: nat) returns (ok: bool, e: real)
    requires Separated(Zip3(x, y, z)) && lanes > 0 && gx != gy && gy != gz && gx != gz
    modifies gx, gy, gz
    ensures ok <==> |x| == |y| == |z| == gx.Length == gy.Length == gz.Length
    ensures !ok ==> unchanged(gx) && unchanged(gy) && unchanged(gz)
    ensures ok ==> e == Scaled(Energy(SameSide(ChunkEnd(|x|, lanes)), s2, Zip3(x, y, z), |x|), eb)
    ensures ok ==> forall k :: 0 <= k < |x| ==> gx[k] == Grad(SameSide(ChunkEnd(|x|, lanes)), s2, eb, Zip3(x, y, z), 0, k)
    ensures ok ==> forall k :: 0 <= k < |x| ==> gy[k] == Grad(SameSide(ChunkEnd(|x|, lanes)), s2, eb, Zip3(x, y, z), 1, k)
    ensures ok ==> forall k :: 0 <= k < |x| ==> gz[k] == Grad(SameSide(ChunkEnd(|x|, lanes)), s2, eb, Zip3(x, y, z), 2, k)
    ensures ok ==> Sum(gx[..]) == 0.0 && Sum(gy[..]) == 0.0 && Sum(gz[..]) == 0.0
  {
    if !(|x| == |y| == |z| == gx.Length == gy.Length == gz.Length) {
      return false, 0.0;
    }
    ok := true;
    var sum, b := GradientSum(s2, eb, x, y, z, gx, gy, gz, lanes);
    e := Scaled(sum, eb);
    ghost var ps := SameSide(b);
    GradSumsToZero(ps, s2, eb, Zip3(x, y, z), 0, gx[..]);
    GradSumsToZero(ps, s2, eb, Zip3(x, y, z), 1, gy[..]);
    GradSumsToZero(ps, s2, eb, Zip3(x, y, z), 2, gz[..]);
  }

  // ------------------------------------------ the pairs across the last chunk

  /**
   * On `Line3` with two lanes the last chunk ends at 2, so particle 2 is the
   * remainder: `lennard_jones_grad` gives it no gradient, where its pairs
   * with particles 0 and 1 give it `-12195/512` on axis 0 (`s2 = e_b = 1`).
   */
  lemma {:induction false} SameSideMissesGradLine3(pts: seq<Point>, s2: real, eb: real, lanes: nat)
    requires pts == Line3 && s2 == 1.0 && eb == 1.0 && lanes == 2
    ensures Separated(pts) && ChunkEnd(|pts|, lanes) == 2
    ensures Grad(SameSide(2), s2, eb, pts, 0, 2) == 0.0
    ensures Grad(AllPairs, s2, eb, pts, 0, 2) == -12195.0 / 512.0
  {
    Line3Separated();
    assert Mul(2, 1) == 2;
    assert Dist2(pts[2], pts[0]) == 4.0 && Dist2(pts[2], pts[1]) == 1.0;
    assert GradScale(s2, eb, 4.0) == 93.0 / 1024.0;
    assert GradScale(s2, eb, 1.0) == -24.0;
    assert PF(s2, eb, pts, 0, 2, 0) == 93.0 / 512.0;
    assert PF(s2, eb, pts, 0, 2, 1) == -24.0;
    GradSameSideParts(2, s2, eb, pts, 0, 2);
    GradRangeNext(AllPairs, s2, eb, pts, 0, 2, 2, 2);
    GradRangeNext(AllPairs, s2, eb, pts, 0, 2, 0, 0);
    GradRangeNext(AllPairs, s2, eb, pts, 0, 2, 0, 1);
    GradRangeNext(AllPairs, s2, eb, pts, 0, 2, 0, 2);
  }

  /**
   * What axis `q` holds, on top of `g0`, once the pairs across the cut `b`
   * have been added for the rows `b .. i` and, in row `i`, the partners
   * before `j`.
   */
  function MixExpect(s2: real, eb: real, pts: seq<Point>, q: nat, g0: seq<real>, k: nat, b: nat, i: nat, j: nat): real
    requires Separated(pts) && q < 3 && |g0| == |pts| && k < |pts| && b <= i <= |pts| && j <= b && (j == 0 || i < |pts|)
  {
    g0[k] + if k < b then GradRange(AllPairs, s2, eb, pts, q, k, b, i) + (if k < j then PF(s2, eb, pts, q, k, i) else 0.0)
            else if k < i then GradRange(AllPairs, s2, eb, pts, q, k, 0, b)
            else if k == i then GradRange(AllPairs, s2, eb, pts, q, k, 0, j)
            else 0.0
  }

  ghost predicate MixRows(s2: real, eb: real, pts: seq<Point>, q: nat, g: seq<real>, g0: seq<real>, b: nat, i: nat, j: nat)
    requires Separated(pts) && q < 3
  {
    |g| == |g0| == |pts| && b <= i <= |pts| && j <= b && (j == 0 || i < |pts|) &&
    forall k :: 0 <= k < |g| ==> g[k] == MixExpect(s2, eb, pts, q, g0, k, b, i, j)
  }

  lemma {:induction false} MixStart(s2: real, eb: real, pts: seq<Point>, q: nat, g0: seq<real>, b: nat)
    requires Separated(pts) && q < 3 && |g0| == |pts| && b <= |pts|
    ensures MixRows(s2, eb, pts, q, g0, g0, b, b, 0)
  {
  }

  /** The pair `(j, i)` across the cut: `g[j]` gains `PF(j, i)` and `g[i]` gains `PF(i, j)`. */
  lemma {:induction false} MixPair(s2: real, eb: real, pts: seq<Point>, q: nat, g: seq<real>, g0: seq<real>,
                                   b: nat, i: nat, j: nat, v: real, w: real)
    requires Separated(pts) && q < 3 && j < b && i < |pts| && MixRows(s2, eb, pts, q, g, g0, b, i, j)
    requires v == PF(s2, eb, pts, q, j, i) && w == PF(s2, eb, pts, q, i, j)
    ensures MixRows(s2, eb, pts, q, g[j := g[j] + v][i := g[i] + w], g0, b, i, j + 1)
  {
    var g1 := g[j := g[j] + v][i := g[i] + w];
    GradRangeNext(AllPairs, s2, eb, pts, q, i, 0, j);
    forall k | 0 <= k < |g1|
      ensures g1[k] == MixExpect(s2, eb, pts, q, g0, k, b, i, j + 1)
    {
      assert g[k] == MixExpect(s2, eb, pts, q, g0, k, b, i, j);
    }
  }

  /** Row `i` is done: every particle before the cut has its pair with `i`. */
  lemma {:induction false} MixRowEnd(s2: real, eb: real, pts: seq<Point>, q: nat, g: seq<real>, g0: seq<real>, b: nat, i: nat)
    requires Separated(pts) && q < 3 && i < |pts| && MixRows(s2, eb, pts, q, g, g0, b, i, b)
    ensures MixRows(s2, eb, pts, q, g, g0, b, i + 1, 0)
  {
    forall k | 0 <= k < |g|
      ensures g[k] == MixExpect(s2, eb, pts, q, g0, k, b, i + 1, 0)
    {
      assert g[k] == MixExpect(s2, eb, pts, q, g0, k, b, i, b);
      if k < b {
        GradRangeNext(AllPairs, s2, eb, pts, q, k, b, i);
      }
    }
  }

  /** Starting from the gradient over `SameSide(b)`, the pairs across the cut make it the gradient over every pair. */
  lemma {:induction false} MixDone(s2: real, eb: real, pts: seq<Point>, q: nat, g: seq<real>, g0: seq<real>, b: nat)
    requires Separated(pts) && q < 3 && MixRows(s2, eb, pts, q, g, g0, b, |pts|, 0)
    requires forall k :: 0 <= k < |g0| ==> g0[k] == Grad(SameSide(b), s2, eb, pts, q, k)
    ensures forall k :: 0 <= k < |g| ==> g[k] == Grad(AllPairs, s2, eb, pts, q, k)
  {
    forall k | 0 <= k < |g|
      ensures g[k] == Grad(AllPairs, s2, eb, pts, q, k)
    {
      assert g[k] == MixExpect(s2, eb, pts, q, g0, k, b, |pts|, 0);
      GradSameSideParts(b, s2, eb, pts, q, k);
      GradRangeSplit(AllPairs, s2, eb, pts, q, k, 0, b, |pts|);
    }
  }

  /** One axis of the pair `(j, i)` with scale `gs`: `g[j] += gs * d` and `g[i] -= gs * d`. */
  method MixAxis(g: array<real>, c: seq<real>, gs: real, ghost s2: real, ghost eb: real, ghost pts: seq<Point>,
                 ghost q: nat, ghost g0: seq<real>, b: nat, i: nat, j: nat)
    requires Separated(pts) && q < 3 && IsAxis(pts, q, c) && j < b && i < |pts|
    requires MixRows(s2, eb, pts, q, g[..], g0, b, i, j)
    requires Apart(pts, j, i) && gs == GradScale(s2, eb, Dist2(pts[j], pts[i]))
    modifies g
    ensures MixRows(s2, eb, pts, q, g[..], g0, b, i, j + 1)
  {
    var d := c[j] - c[i];
    var s := gs * d;
    ghost var h := g[..];
    g[j] := g[j] + s;
    g[i] := g[i] - s;
    assert g[..] == h[j := h[j] + s][i := h[i] + -s];
    PairSides(s2, eb, pts, q, j, i, gs, d);
    MixPair(s2, eb, pts, q, h, g0, b, i, j, s, -s);
  }

  /** The pair `(j, i)` across the cut on every axis, its energy added to `e0`. */
  method MixStep(e0: real, s2: real, eb: real, x: seq<real>, y: seq<real>, z: seq<real>,
                 gx: array<real>, gy: array<real>, gz: array<real>, b: nat, i: nat, j: nat,
                 ghost g0x: seq<real>, ghost g0y: seq<real>, ghost g0z: seq<real>) returns (e: real)
    requires |x| == |y| == |z| == gx.Length == gy.Length == gz.Length && gx != gy && gy != gz && gx != gz
    requires Separated(Zip3(x, y, z)) && j < b <= i < |x|
    requires MixRows(s2, eb, Zip3(x, y, z), 0, gx[..], g0x, b, i, j)
    requires MixRows(s2, eb, Zip3(x, y, z), 1, gy[..], g0y, b, i, j)
    requires MixRows(s2, eb, Zip3(x, y, z), 2, gz[..], g0z, b, i, j)
    modifies gx, gy, gz
    ensures e == e0 + Term(s2, Zip3(x, y, z), i, j)
    ensures MixRows(s2, eb, Zip3(x, y, z), 0, gx[..], g0x, b, i, j + 1)
    ensures MixRows(s2, eb, Zip3(x, y, z), 1, gy[..], g0y, b, i, j + 1)
    ensures MixRows(s2, eb, Zip3(x, y, z), 2, gz[..], g0z, b, i, j + 1)
  {
    ghost var pts := Zip3(x, y, z);
    Zip3Axes(x, y, z);
    assert pts[j] == At(x, y, z, j) && pts[i] == At(x, y, z, i) && Apart(pts, j, i);
    Dist2Symmetric(pts[i], pts[j]);
    var r2 := Dist2(At(x, y, z, j), At(x, y, z, i));
    e := e0 + PairTerm(s2, r2);
    var gs := GradScale(s2, eb, r2);
    MixAxis(gx, x, gs, s2, eb, pts, 0, g0x, b, i, j);
    MixAxis(gy, y, gs, s2, eb, pts, 1, g0y, b, i, j);
    MixAxis(gz, z, gs, s2, eb, pts, 2, g0z, b, i, j);
  }

  /** Row `i` against every partner before the cut `b`. */
  method MixRow(e0: real, s2: real, eb: real, x: seq<real>, y: seq<real>, z: seq<real>,
                gx: array<real>, gy: array<real>, gz: array<real>, b: nat, i: nat,
                ghost g0x: seq<real>, ghost g0y: seq<real>, ghost g0z: seq<real>) returns (e: real)
    requires |x| == |y| == |z| == gx.Length == gy.Length == gz.Length && gx != gy && gy != gz && gx != gz
    requires Separated(Zip3(x, y, z)) && b <= i < |x|
    requires MixRows(s2, eb, Zip3(x, y, z), 0, gx[..], g0x, b, i, 0)
    requires MixRows(s2, eb, Zip3(x, y, z), 1, gy[..], g0y, b, i, 0)
    requires MixRows(s2, eb, Zip3(x, y, z), 2, gz[..], g0z, b, i, 0)
    modifies gx, gy, gz
    ensures e == e0 + RowEnergy(s2, Zip3(x, y, z), i, 0, b)
    ensures MixRows(s2, eb, Zip3(x, y, z), 0, gx[..], g0x, b, i + 1, 0)
    ensures MixRows(s2, eb, Zip3(x, y, z), 1, gy[..], g0y, b, i + 1, 0)
    ensures MixRows(s2, eb, Zip3(x, y, z), 2, gz[..], g0z, b, i + 1, 0)
  {
    ghost var pts := Zip3(x, y, z);
    e := e0;
    for j := 0 to b
      invariant e == e0 + RowEnergy(s2, pts, i, 0, j)
      invariant MixRows(s2, eb, pts, 0, gx[..], g0x, b, i, j)
      invariant MixRows(s2, eb, pts, 1, gy[..], g0y, b, i, j)
      invariant MixRows(s2, eb, pts, 2, gz[..], g0z, b, i, j)
    {
      e := MixStep(e, s2, eb, x, y, z, gx, gy, gz, b, i, j, g0x, g0y, g0z);
    }
    MixRowEnd(s2, eb, pts, 0, gx[..], g0x, b, i);
    MixRowEnd(s2, eb, pts, 1, gy[..], g0y, b, i);
    MixRowEnd(s2, eb, pts, 2, gz[..], g0z, b, i);
  }

  /** Every pair across the cut `b`: the rows `b ..` against the partners `0 .. b`. */
  method MixedGrad(e0: real, s2: real, eb: real, x: seq<real>, y: seq<real>, z: seq<real>,
                   gx: array<real>, gy: array<real>, gz: array<real>, b: nat) returns (e: real)
    requires |x| == |y| == |z| == gx.Length == gy.Length == gz.Length && gx != gy && gy != gz && gx != gz
    requires Separated(Zip3(x, y, z)) && b <= |x|
    modifies gx, gy, gz
    ensures e == e0 + Missing(s2, Zip3(x, y, z), b, |x|)
    ensures MixRows(s2, eb, Zip3(x, y, z), 0, gx[..], old(gx[..]), b, |x|, 0)
    ensures MixRows(s2, eb, Zip3(x, y, z), 1, gy[..], old(gy[..]), b, |x|, 0)
    ensures MixRows(s2, eb, Zip3(x, y, z), 2, gz[..], old(gz[..]), b, |x|, 0)
  {
    ghost var pts := Zip3(x, y, z);
    ghost var g0x, g0y, g0z := gx[..], gy[..], gz[..];
    MixStart(s2, eb, pts, 0, g0x, b);
    MixStart(s2, eb, pts, 1, g0y, b);
    MixStart(s2, eb, pts, 2, g0z, b);
    e := e0;
    for i := b to |x|
      invariant e == e0 + Missing(s2, pts, b, i)
      invariant MixRows(s2, eb, pts, 0, gx[..], g0x, b, i, 0)
      invariant MixRows(s2, eb, pts, 1, gy[..], g0y, b, i, 0)
      invariant MixRows(s2, eb, pts, 2, gz[..], g0z, b, i, 0)
    {
      e := MixRow(e, s2, eb, x, y, z, gx, gy, gz, b, i, g0x, g0y, g0z);
    }
  }

  /** `lennard_jones_grad` with the pairs across the last chunk's end added, before the scaling by `4 e_b`. */
  method GradientFullSum(s2: real, eb: real, x: seq<real>, y: seq<real>, z: seq<real>,
                         gx: array<real>, gy: array<real>, gz: array<real>, lanes: nat) returns (e: real)
    requires |x| == |y| == |z| == gx.Length == gy.Length == gz.Length && gx != gy && gy != gz && gx != gz
    requires Separated(Zip3(x, y, z)) && lanes > 0
    modifies gx, gy, gz
    ensures e == Energy(AllPairs, s2, Zip3(x, y, z), |x|)
    ensures forall k :: 0 <= k < |x| ==> gx[k] == Grad(AllPairs, s2, eb, Zip3(x, y, z), 0, k)
    ensures forall k :: 0 <= k < |x| ==> gy[k] == Grad(AllPairs, s2, eb, Zip3(x, y, z), 1, k)
    ensures forall k :: 0 <= k < |x| ==> gz[k] == Grad(AllPairs, s2, eb, Zip3(x, y, z), 2, k)
  {
    ghost var pts := Zip3(x, y, z);
    var b;
    e, b := GradientSum(s2, eb, x, y, z, gx, gy, gz, lanes);
    ghost var g1x, g1y, g1z := gx[..], gy[..], gz[..];
    e := MixedGrad(e, s2, eb, x, y, z, gx, gy, gz, b);
    SameSideMisses(b, s2, pts, |x|);
    MixDone(s2, eb, pts, 0, gx[..], g1x, b);
    MixDone(s2, eb, pts, 1, gy[..], g1y, b);
    MixDone(s2, eb, pts, 2, gz[..], g1z, b);
  }

  /**
   * `lennard_jones_grad` corrected: `4 e_b` times the energy of every pair,
   * and the gradient over every pair, which sums to zero on every axis.
   */
  method LennardJonesGradientFull(s2: real, eb: real, x: seq<real>, y: seq<real>, z: seq<real>,
                                  gx: array<real>, gy: array<real>, gz: array<real>, lanes: nat) returns (ok: bool, e: real)
    requires Separated(Zip3(x, y, z)) && lanes > 0 && gx != gy && gy != gz && gx != gz
    modifies gx, gy, gz
    ensures ok <==> |x| == |y| == |z| == gx.Length == gy.Length == gz.Length
    ensures !ok ==> unchanged(gx) && unchanged(gy) && unchanged(gz)
    ensures ok ==> e == Scaled(Energy(AllPairs, s2, Zip3(x, y, z), |x|), eb)
    ensures ok ==> forall k :: 0 <= k < |x| ==> gx[k] == Grad(AllPairs, s2, eb, Zip3(x, y, z), 0, k)
    ensures ok ==> forall k :: 0 <= k < |x| ==> gy[k] == Grad(AllPairs, s2, eb, Zip3(x, y, z), 1, k)
    ensures ok ==> forall k :: 0 <= k < |x| ==> gz[k] == Grad(AllPairs, s2, eb, Zip3(x, y, z), 2, k)
    ensures ok ==> Sum(gx[..]) == 0.0 && Sum(gy[..]) == 0.0 && Sum(gz[..]) == 0.0
  {
    if !(|x| == |y| == |z| == gx.Length == gy.Length == gz.Length) {
      return false, 0.0;
    }
    ok := true;
    var sum := GradientFullSum(s2, eb, x, y, z, gx, gy, gz, lanes);
    GradSumsToZero(AllPairs, s2, eb, Zip3(x, y, z), 0, gx[..]);
    GradSumsToZero(AllPairs, s2, eb, Zip3(x, y, z), 1, gy[..]);
    GradSumsToZero(AllPairs, s2, eb, Zip3(x, y, z), 2, gz[..]);
    e := Scaled(sum, eb);
  }
}
