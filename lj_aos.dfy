/**
 * `lennard_jones.rs`: the kernels on an array of `[x, y, z]` points.  The
 * energies return `4 e_b` times the unscaled pair sum; the gradients
 * overwrite `g`.  A failed `assert_eq!` is the result `ok == false`, with `g`
 * as it was.  The lane count `N` of the blocked kernels is the parameter
 * `lanes`; `as_chunks` rejects 0.
 */
module LennardJonesAos {
  import opened Arith
  import opened LennardJonesSpec
  import opened LennardJonesGrad

  /** The point pushed for lattice position `(i, j, k)`. */
  function LatticePoint(i: nat, j: nat, k: nat, r: real): Point
  {
    [i as real * r, j as real * r, k as real * r]
  }

  /** The first `|rs|` lattice positions in `i, j, k` order hold their points. */
  ghost predicate LatticeSoFar(rs: seq<Point>, n: nat, r: real)
  {
    forall i: nat, j: nat, k: nat {:trigger Flat(n, Flat(n, i, j), k)} ::
      i < n && j < n && k < n && Flat(n, Flat(n, i, j), k) < |rs| ==> rs[Flat(n, Flat(n, i, j), k)] == LatticePoint(i, j, k, r)
  }

  /** Pushing the point of the next position keeps `LatticeSoFar`. */
  lemma {:induction false} LatticePush(rs: seq<Point>, n: nat, r: real, i: nat, j: nat, k: nat)
    requires LatticeSoFar(rs, n, r) && i < n && j < n && k < n && |rs| == Flat(n, Flat(n, i, j), k)
    ensures LatticeSoFar(rs + [LatticePoint(i, j, k, r)], n, r)
  {
    var rs' := rs + [LatticePoint(i, j, k, r)];
    forall i': nat, j': nat, k': nat | i' < n && j' < n && k' < n && Flat(n, Flat(n, i', j'), k') < |rs'|
      ensures rs'[Flat(n, Flat(n, i', j'), k')] == LatticePoint(i', j', k', r)
    {
      if Flat(n, Flat(n, i', j'), k') == |rs| {
        FlatInjective(n, Flat(n, i', j'), k', Flat(n, i, j), k);
        FlatInjective(n, i', j', i, j);
      }
    }
  }

  /**
   * `setup_cubic_lattice`: `n^3` points; the one at `(i n + j) n + k` is
   * `[i r, j r, k r]`.
   */
  method SetupCubicLattice(n: nat, r: real) returns (rs: seq<Point>)
    ensures |rs| == Mul(n, Mul(n, n))
    ensures forall i: nat, j: nat, k: nat {:trigger Flat(n, Flat(n, i, j), k)} :: i < n && j < n && k < n ==>
      Flat(n, Flat(n, i, j), k) < |rs| && rs[Flat(n, Flat(n, i, j), k)] == LatticePoint(i, j, k, r)
  {
    rs := [];
    for i := 0 to n
      invariant |rs| == Mul(n, Mul(n, i)) && LatticeSoFar(rs, n, r)
    {
      rs := LatticePlane(rs, n, r, i);
    }
    forall i: nat, j: nat, k: nat | i < n && j < n && k < n
      ensures Flat(n, Flat(n, i, j), k) < |rs|
    {
      FlatInRange(n, n, i, j);
      FlatInRange(n, Mul(n, n), Flat(n, i, j), k);
    }
  }

  /** The middle loop of `setup_cubic_lattice`: the `n * n` points of plane `i`. */
  method LatticePlane(rs0: seq<Point>, n: nat, r: real, i: nat) returns (rs: seq<Point>)
    requires LatticeSoFar(rs0, n, r) && i < n && |rs0| == Mul(n, Mul(n, i))
    ensures |rs| == Mul(n, Mul(n, i + 1)) && LatticeSoFar(rs, n, r)
  {
    rs := rs0;
    for j := 0 to n
      invariant |rs| == Mul(n, Mul(n, i) + j) && LatticeSoFar(rs, n, r)
    {
      rs := LatticeLine(rs, n, r, i, j);
    }
  }

  /** The innermost loop of `setup_cubic_lattice`: the `n` points of line `(i, j)`. */
  method LatticeLine(rs0: seq<Point>, n: nat, r: real, i: nat, j: nat) returns (rs: seq<Point>)
    requires LatticeSoFar(rs0, n, r) && i < n && j < n && |rs0| == Flat(n, Flat(n, i, j), 0)
    ensures |rs| == Flat(n, Flat(n, i, j), n) && LatticeSoFar(rs, n, r)
  {
    rs := rs0;
    for k := 0 to n
      invariant |rs| == Flat(n, Flat(n, i, j), k) && LatticeSoFar(rs, n, r)
    {
      LatticePush(rs, n, r, i, j, k);
      rs := rs + [LatticePoint(i, j, k, r)];
    }
  }

  /** `lennard_jones_naive`: every pair `j < i`, row by row, scaled by `4 e_b`. */
  method Naive(s2: real, eb: real, r: seq<Point>) returns (e: real)
    requires Separated(r)
    ensures e == Scaled(Energy(AllPairs, s2, r, |r|), eb)
  {
    var sum := NaiveSum(s2, r);
    e := Scaled(sum, eb);
  }

  /** The two loops of `lennard_jones_naive`, before the scaling. */
  method NaiveSum(s2: real, r: seq<Point>) returns (sum: real)
    requires Separated(r)
    ensures sum == Energy(AllPairs, s2, r, |r|)
  {
    sum := 0.0;
    for i := 0 to |r|
      invariant sum == Energy(AllPairs, s2, r, i)
    {
      sum := NaiveRow(sum, s2, r, i);
      EnergyNext(AllPairs, s2, r, i);
    }
  }

  /** The inner loop of `lennard_jones_naive`: the partners `j < i` of `i`, added to `e`. */
  method NaiveRow(e0: real, s2: real, r: seq<Point>, i: nat) returns (e: real)
    requires Separated(r) && i < |r|
    ensures e == e0 + RowEnergy(s2, r, i, 0, i)
  {
    e := e0;
    for j := 0 to i
      invariant e == e0 + RowEnergy(s2, r, i, 0, j)
    {
      assert Apart(r, i, j);
      var r2 := Dist2(r[i], r[j]);
      e := e + PairTerm(s2, r2);
    }
  }

  /**
   * The lane loop over the points `base .. base + len` of `r[0..i]` (a whole
   * chunk, or the remainder): lane `t` of `es` gains the pair `(base + t, i)`.
   */
  method AddPairs(es: array<real>, s2: real, r: seq<Point>, i: nat, base: nat, len: nat)
    requires Separated(r) && i < |r| && base + len <= i && len <= es.Length
    modifies es
    ensures forall t :: 0 <= t < es.Length ==>
      es[t] == if t < len then old(es[t]) + Term(s2, r, i, base + t) else old(es[t])
    ensures Sum(es[..]) == old(Sum(es[..])) + RowEnergy(s2, r, i, base, base + len)
  {
    ghost var es0 := es[..];
    for t := 0 to len
      invariant forall t' :: 0 <= t' < es.Length ==>
        es[t'] == if t' < t then es0[t'] + Term(s2, r, i, base + t') else es0[t']
    {
      assert Apart(r, i, base + t);
      var r2 := Dist2(r[i], r[base + t]);
      es[t] := es[t] + PairTerm(s2, r2);
    }
    LaneSums(s2, r, i, base, es0, es[..], len);
  }

  /** Lanes `t < len` that gained the pair `(base + t, i)` gained row `i` over `base .. base + len` in all. */
  lemma {:induction false} LaneSums(s2: real, r: seq<Point>, i: nat, base: nat, es0: seq<real>, es1: seq<real>, len: nat)
    requires Separated(r) && i < |r| && base + len <= i && len <= |es0| == |es1|
    requires forall t :: 0 <= t < |es1| ==>
      es1[t] == if t < len then es0[t] + Term(s2, r, i, base + t) else es0[t]
    ensures Sum(es1) == Sum(es0) + RowEnergy(s2, r, i, base, base + len)
    decreases len
  {
    if len == 0 {
      assert es1 == es0;
    } else {
      var t := len - 1;
      var v := Term(s2, r, i, base + t);
      var mid := es1[t := es0[t]];
      LaneSums(s2, r, i, base, es0, mid, t);
      SumUpdate(mid, t, v);
      assert mid[t := mid[t] + v] == es1;
    }
  }

  /**
   * `lennard_jones::<N>`: the lanes of `es` collect, for every `i`, the whole
   * chunks of `r[0..i]` and then its remainder; together they are every
   * `j < i` once, so the result is `lennard_jones_naive`'s.
   */
  method Blocked(s2: real, eb: real, r: seq<Point>, lanes: nat) returns (e: real)
    requires Separated(r) && lanes > 0
    ensures e == Scaled(Energy(AllPairs, s2, r, |r|), eb)
  {
    var sum := BlockedSum(s2, r, lanes);
    e := Scaled(sum, eb);
  }

  /** The lane sums of `lennard_jones::<N>`, reduced, before the scaling. */
  method BlockedSum(s2: real, r: seq<Point>, lanes: nat) returns (sum: real)
    requires Separated(r) && lanes > 0
    ensures sum == Energy(AllPairs, s2, r, |r|)
  {
    var es := new real[lanes](_ => 0.0);
    assert forall t :: 0 <= t < lanes ==> es[..][t] == 0.0;
    SumZeros(es[..]);
    for i := 0 to |r|
      invariant Sum(es[..]) == Energy(AllPairs, s2, r, i)
    {
      BlockedRow(es, s2, r, i);
      EnergyNext(AllPairs, s2, r, i);
    }
    sum := Sum(es[..]);
  }

  /** Row `i` of `lennard_jones::<N>`: the whole chunks of `r[0..i]`, then its remainder. */
  method BlockedRow(es: array<real>, s2: real, r: seq<Point>, i: nat)
    requires Separated(r) && i < |r| && es.Length > 0
    modifies es
    ensures Sum(es[..]) == old(Sum(es[..])) + RowEnergy(s2, r, i, 0, i)
  {
    var lanes := es.Length;
    ghost var sum0 := Sum(es[..]);
    DivMod(i, lanes);
    var chunks := i / lanes;
    for c := 0 to chunks
      invariant Mul(lanes, c) <= i
      invariant Sum(es[..]) == sum0 + RowEnergy(s2, r, i, 0, Mul(lanes, c))
    {
      MulMonotone(lanes, c + 1, chunks);
      AddPairs(es, s2, r, i, Mul(lanes, c), lanes);
      RowSplit(s2, r, i, 0, Mul(lanes, c), Mul(lanes, c + 1));
    }
    var base := Mul(lanes, chunks);
    AddPairs(es, s2, r, i, base, i - base);
    RowSplit(s2, r, i, 0, base, i);
  }

  /** The zeroing loop of both gradient kernels. */
  method ZeroFill(g: array<Point>)
    modifies g
    ensures forall k, q :: 0 <= k < g.Length && 0 <= q < 3 ==> g[k][q] == 0.0
  {
    for k := 0 to g.Length
      invariant forall k', q :: 0 <= k' < k && 0 <= q < 3 ==> g[k'][q] == 0.0
    {
      g[k] := Origin;
    }
  }

  /**
   * `lennard_jones_grad_naive`: `g` gets the gradient of the energy of every
   * pair.  The lengths of `g` and `r` must agree (`ok`), else `g` is left alone.
   */
  method GradNaive(s2: real, eb: real, g: array<Point>, r: seq<Point>) returns (ok: bool)
    requires Separated(r)
    modifies g
    ensures ok <==> g.Length == |r|
    ensures !ok ==> g[..] == old(g[..])
    ensures ok ==> forall k, q :: 0 <= k < g.Length && 0 <= q < 3 ==> g[k][q] == Grad(AllPairs, s2, eb, r, q, k)
    ensures ok ==> forall q :: 0 <= q < 3 ==> Sum(Axis(g[..], q)) == 0.0
  {
    if g.Length != |r| {
      return false;
    }
    ok := true;
    ZeroFill(g);
    ProgressStart(AllPairs, s2, eb, r, g[..]);
    for i := 0 to |r|
      invariant Progress(AllPairs, s2, eb, r, g[..], i, 0, 0)
    {
      GradNaiveRow(g, s2, eb, r, i);
    }
    ProgressDone(AllPairs, s2, eb, r, g[..]);
    GradZero(AllPairs, s2, eb, r, g[..]);
  }

  /** The gradients held in `g` sum to zero on every axis. */
  lemma {:induction false} GradZero(ps: Pairs, s2: real, eb: real, r: seq<Point>, g: seq<Point>)
    requires Separated(r) && |g| == |r|
    requires forall k, q :: 0 <= k < |g| && 0 <= q < 3 ==> g[k][q] == Grad(ps, s2, eb, r, q, k)
    ensures forall q :: 0 <= q < 3 ==> Sum(Axis(g, q)) == 0.0
  {
    forall q | 0 <= q < 3
      ensures Sum(Axis(g, q)) == 0.0
    {
      GradSumsToZero(ps, s2, eb, r, q, Axis(g, q));
    }
  }

  /** Row `i` of `lennard_jones_grad_naive`: the pairs `(j, i)`, `j < i`. */
  method GradNaiveRow(g: array<Point>, s2: real, eb: real, r: seq<Point>, i: nat)
    requires Separated(r) && i < |r| && Progress(AllPairs, s2, eb, r, g[..], i, 0, 0)
    modifies g
    ensures Progress(AllPairs, s2, eb, r, g[..], i + 1, 0, 0)
  {
    for j := 0 to i
      invariant Progress(AllPairs, s2, eb, r, g[..], i, j, j)
    {
      ghost var g0 := g[..];
      ApplyPair(g, s2, eb, r, i, j);
      PairStep(s2, eb, r, g0, g[..], i, j);
    }
    RowClose(AllPairs, s2, eb, r, g[..], i);
  }

  /** The body of the inner loop of `lennard_jones_grad_naive`: the pair `(j, i)`. */
  method ApplyPair(g: array<Point>, s2: real, eb: real, r: seq<Point>, i: nat, j: nat)
    requires Separated(r) && j < i < |r| == g.Length
    modifies g
    ensures forall q :: 0 <= q < 3 ==>
      g[i][q] == old(g[i][q]) + PF(s2, eb, r, q, i, j) && g[j][q] == old(g[j][q]) + PF(s2, eb, r, q, j, i)
    ensures forall k :: 0 <= k < g.Length && k != i && k != j ==> g[k] == old(g[k])
  {
    assert Apart(r, i, j);
    var r2 := Dist2(r[i], r[j]);
    var s := GradScale(s2, eb, r2);
    var gq := DiffScaled(r[j], r[i], s);
    ghost var gi, gj := g[i], g[j];
    g[i] := Sub(g[i], gq);
    g[j] := Add(g[j], gq);
    forall q | 0 <= q < 3
      ensures g[i][q] == gi[q] + PF(s2, eb, r, q, i, j) && g[j][q] == gj[q] + PF(s2, eb, r, q, j, i)
    {
      PFScaled(s2, eb, r, q, i, j, s);
      PFScaled(s2, eb, r, q, j, i, s);
    }
  }

  /** `PF` with the scale of the pair computed once, as the kernels do. */
  lemma {:induction false} PFScaled(s2: real, eb: real, r: seq<Point>, q: nat, k: nat, m: nat, s: real)
    requires Separated(r) && q < 3 && k < |r| && m < |r| && k != m
    requires Apart(r, k, m) && Apart(r, m, k)
    requires s == GradScale(s2, eb, Dist2(r[k], r[m])) || s == GradScale(s2, eb, Dist2(r[m], r[k]))
    ensures PF(s2, eb, r, q, k, m) == (r[k][q] - r[m][q]) * s == -((r[m][q] - r[k][q]) * s)
  {
    Dist2Symmetric(r[k], r[m]);
  }

  /**
   * `lennard_jones_grad::<N>`: for every `i`, the whole chunks of `r[0..i]`
   * go through the lane buffers; the remainder is skipped, so `g` gets the
   * gradient of `EarlierBlocks(N)`, not of every pair.
   */
  method GradBlocked(s2: real, eb: real, g: array<Point>, r: seq<Point>, lanes: nat) returns (ok: bool)
    requires Separated(r) && lanes > 0
    modifies g
    ensures ok <==> g.Length == |r|
    ensures !ok ==> g[..] == old(g[..])
    ensures ok ==> forall k, q :: 0 <= k < g.Length && 0 <= q < 3 ==> g[k][q] == Grad(EarlierBlocks(lanes), s2, eb, r, q, k)
    ensures ok ==> forall q :: 0 <= q < 3 ==> Sum(Axis(g[..], q)) == 0.0
  {
    if g.Length != |r| {
      return false;
    }
    ok := true;
    ZeroFill(g);
    var bufs := new Point[lanes](_ => Origin);
    ProgressStart(EarlierBlocks(lanes), s2, eb, r, g[..]);
    for i := 0 to |r|
      invariant Progress(EarlierBlocks(lanes), s2, eb, r, g[..], i, 0, 0)
    {
      GradBlockedRow(g, bufs, s2, eb, r, i);
    }
    ProgressDone(EarlierBlocks(lanes), s2, eb, r, g[..]);
    GradZero(EarlierBlocks(lanes), s2, eb, r, g[..]);
  }

  /** Row `i` of `lennard_jones_grad::<N>`: the whole chunks, then the lane sums into `g[i]`. */
  method GradBlockedRow(g: array<Point>, bufs: array<Point>, s2: real, eb: real, r: seq<Point>, i: nat)
    requires Separated(r) && i < |r| && g != bufs && bufs.Length > 0
    requires Progress(EarlierBlocks(bufs.Length), s2, eb, r, g[..], i, 0, 0)
    modifies g, bufs
    ensures Progress(EarlierBlocks(bufs.Length), s2, eb, r, g[..], i + 1, 0, 0)
  {
    ghost var ps := EarlierBlocks(bufs.Length);
    var bufs2 := NewLanes(bufs.Length);
    GradChunks(g, bufs, bufs2, s2, eb, r, i, ps);
    ghost var g0 := g[..];
    AddLanes(g, bufs2, i);
    OwnStep(ps, s2, eb, r, g0, g[..], i);
    RowClose(ps, s2, eb, r, g[..], i);
  }

  /**
   * Row `i` with the remainder of `r[0..i]` done like a chunk, on its first
   * `i mod N` lanes: every `j < i` is visited.
   */
  method GradBlockedFull(s2: real, eb: real, g: array<Point>, r: seq<Point>, lanes: nat) returns (ok: bool)
    requires Separated(r) && lanes > 0
    modifies g
    ensures ok <==> g.Length == |r|
    ensures !ok ==> g[..] == old(g[..])
    ensures ok ==> forall k, q :: 0 <= k < g.Length && 0 <= q < 3 ==> g[k][q] == Grad(AllPairs, s2, eb, r, q, k)
    ensures ok ==> forall q :: 0 <= q < 3 ==> Sum(Axis(g[..], q)) == 0.0
  {
    if g.Length != |r| {
      return false;
    }
    ok := true;
    ZeroFill(g);
    var bufs := new Point[lanes](_ => Origin);
    ProgressStart(AllPairs, s2, eb, r, g[..]);
    for i := 0 to |r|
      invariant Progress(AllPairs, s2, eb, r, g[..], i, 0, 0)
    {
      GradBlockedFullRow(g, bufs, s2, eb, r, i);
    }
    ProgressDone(AllPairs, s2, eb, r, g[..]);
    GradZero(AllPairs, s2, eb, r, g[..]);
  }

  method GradBlockedFullRow(g: array<Point>, bufs: array<Point>, s2: real, eb: real, r: seq<Point>, i: nat)
    requires Separated(r) && i < |r| && g != bufs && bufs.Length > 0
    requires Progress(AllPairs, s2, eb, r, g[..], i, 0, 0)
    modifies g, bufs
    ensures Progress(AllPairs, s2, eb, r, g[..], i + 1, 0, 0)
  {
    var lanes := bufs.Length;
    var bufs2 := NewLanes(lanes);
    DivMod(i, lanes);
    GradChunks(g, bufs, bufs2, s2, eb, r, i, AllPairs);
    var base := Mul(lanes, i / lanes);
    GradLanes(g, bufs, bufs2, s2, eb, r, i, base, i - base, AllPairs);
    ghost var g0 := g[..];
    AddLanes(g, bufs2, i);
    OwnStep(AllPairs, s2, eb, r, g0, g[..], i);
    RowClose(AllPairs, s2, eb, r, g[..], i);
  }

  /** The per-row `bufs2` of `lennard_jones_grad::<N>`: `N` zero lanes. */
  method NewLanes(lanes: nat) returns (b: array<Point>)
    ensures fresh(b) && b.Length == lanes
    ensures forall q :: 0 <= q < 3 ==> Sum(Axis(b[..], q)) == 0.0
  {
    b := new Point[lanes](_ => Origin);
    forall q | 0 <= q < 3
      ensures Sum(Axis(b[..], q)) == 0.0
    {
      SumZeros(Axis(b[..], q));
    }
  }

  /**
   * The chunk loop of row `i`: every whole chunk of `r[0..i]`, on the side of
   * its particles in `g` and on the side of `i` in the lanes of `bufs2`.
   */
  method GradChunks(g: array<Point>, bufs: array<Point>, bufs2: array<Point>, s2: real, eb: real, r: seq<Point>, i: nat,
                    ghost ps: Pairs)
    requires Separated(r) && i < |r| && g != bufs && g != bufs2 && bufs != bufs2
    requires 0 < bufs.Length == bufs2.Length
    requires Lo(ps, i) == 0 && Mul(bufs.Length, i / bufs.Length) <= Hi(ps, i)
    requires Progress(ps, s2, eb, r, g[..], i, 0, 0)
    requires forall q :: 0 <= q < 3 ==> Sum(Axis(bufs2[..], q)) == 0.0
    modifies g, bufs, bufs2
    ensures Progress(ps, s2, eb, r, g[..], i, Mul(bufs.Length, i / bufs.Length), 0)
    ensures forall q :: 0 <= q < 3 ==>
      Sum(Axis(bufs2[..], q)) == GradRange(ps, s2, eb, r, q, i, 0, Mul(bufs.Length, i / bufs.Length))
  {
    var lanes := bufs.Length;
    var chunks := i / lanes;
    for c := 0 to chunks
      invariant Progress(ps, s2, eb, r, g[..], i, Mul(lanes, c), 0)
      invariant forall q :: 0 <= q < 3 ==> Sum(Axis(bufs2[..], q)) == GradRange(ps, s2, eb, r, q, i, 0, Mul(lanes, c))
    {
      MulMonotone(lanes, c + 1, chunks);
      GradLanes(g, bufs, bufs2, s2, eb, r, i, Mul(lanes, c), lanes, ps);
    }
  }

  /**
   * One chunk of row `i`, the partners `base .. base + len`: lane `t` of
   * `bufs` gets the pair `(base + t, i)` on the side of `base + t`, which is
   * added to `g[base + t]` and taken from lane `t` of `bufs2`.
   */
  method GradLanes(g: array<Point>, bufs: array<Point>, bufs2: array<Point>, s2: real, eb: real, r: seq<Point>, i: nat,
                   base: nat, len: nat, ghost ps: Pairs)
    requires Separated(r) && i < |r| && g != bufs && g != bufs2 && bufs != bufs2
    requires len <= bufs.Length == bufs2.Length
    requires Lo(ps, i) <= base && base + len <= Hi(ps, i)
    requires Progress(ps, s2, eb, r, g[..], i, base, 0)
    requires forall q :: 0 <= q < 3 ==> Sum(Axis(bufs2[..], q)) == GradRange(ps, s2, eb, r, q, i, 0, base)
    modifies g, bufs, bufs2
    ensures Progress(ps, s2, eb, r, g[..], i, base + len, 0)
    ensures forall q :: 0 <= q < 3 ==> Sum(Axis(bufs2[..], q)) == GradRange(ps, s2, eb, r, q, i, 0, base + len)
  {
    FillBufs(bufs, s2, eb, r, i, base, len);
    ChunkIntoG(g, bufs, s2, eb, r, i, base, len, ps);
    ChunkIntoLanes(bufs2, bufs, s2, eb, r, i, base, len, ps);
  }

  /** `g[base + t] += bufs[t]` makes the chunk's side of its pairs with `i` done. */
  method ChunkIntoG(g: array<Point>, bufs: array<Point>, s2: real, eb: real, r: seq<Point>, i: nat,
                    base: nat, len: nat, ghost ps: Pairs)
    requires Separated(r) && i < |r| && g != bufs && len <= bufs.Length
    requires Lo(ps, i) <= base && base + len <= Hi(ps, i)
    requires Progress(ps, s2, eb, r, g[..], i, base, 0)
    requires forall t, q :: 0 <= t < len && 0 <= q < 3 ==> bufs[t][q] == PF(s2, eb, r, q, base + t, i)
    modifies g
    ensures Progress(ps, s2, eb, r, g[..], i, base + len, 0)
  {
    ghost var g0 := g[..];
    AddBufs(g, bufs, base, len);
    forall k, q | 0 <= k < g.Length && 0 <= q < 3
      ensures g[k][q] == if base <= k < base + len then g0[k][q] + PF(s2, eb, r, q, k, i) else g0[k][q]
    {
      if base <= k < base + len {
        assert bufs[k - base][q] == PF(s2, eb, r, q, base + (k - base), i);
      }
    }
    BlockStep(ps, s2, eb, r, g0, g[..], i, base, len, 0);
  }

  /** `bufs2[t] -= bufs[t]` adds the chunk's pairs, on the side of `i`, to the lane sums. */
  method ChunkIntoLanes(bufs2: array<Point>, bufs: array<Point>, s2: real, eb: real, r: seq<Point>, i: nat,
                        base: nat, len: nat, ghost ps: Pairs)
    requires Separated(r) && i < |r| && bufs != bufs2 && len <= bufs.Length == bufs2.Length
    requires Lo(ps, i) <= base && base + len <= Hi(ps, i)
    requires forall q :: 0 <= q < 3 ==> Sum(Axis(bufs2[..], q)) == GradRange(ps, s2, eb, r, q, i, 0, base)
    requires forall t, q :: 0 <= t < len && 0 <= q < 3 ==> bufs[t][q] == PF(s2, eb, r, q, base + t, i)
    modifies bufs2
    ensures forall q :: 0 <= q < 3 ==> Sum(Axis(bufs2[..], q)) == GradRange(ps, s2, eb, r, q, i, 0, base + len)
  {
    ghost var b0 := bufs2[..];
    SubBufs(bufs2, bufs, len);
    LaneGrads(ps, s2, eb, r, i, base, len, b0, bufs2[..], bufs[..]);
    forall q | 0 <= q < 3
      ensures Sum(Axis(bufs2[..], q)) == GradRange(ps, s2, eb, r, q, i, 0, base + len)
    {
      GradRangeSplit(ps, s2, eb, r, q, i, 0, base, base + len);
    }
  }

  /** The first loop of a chunk: lane `t` gets `(r[base + t] - r[i]) * s`, the pair on the side of `base + t`. */
  method FillBufs(bufs: array<Point>, s2: real, eb: real, r: seq<Point>, i: nat, base: nat, len: nat)
    requires Separated(r) && i < |r| && base + len <= i && len <= bufs.Length
    modifies bufs
    ensures forall t, q :: 0 <= t < len && 0 <= q < 3 ==> bufs[t][q] == PF(s2, eb, r, q, base + t, i)
    ensures forall t :: len <= t < bufs.Length ==> bufs[t] == old(bufs[t])
  {
    for t := 0 to len
      invariant forall t', q :: 0 <= t' < t && 0 <= q < 3 ==> bufs[t'][q] == PF(s2, eb, r, q, base + t', i)
      invariant forall t' :: t <= t' < bufs.Length ==> bufs[t'] == old(bufs[t'])
    {
      assert Apart(r, i, base + t);
      var r2 := Dist2(r[i], r[base + t]);
      var s := GradScale(s2, eb, r2);
      bufs[t] := DiffScaled(r[base + t], r[i], s);
      forall q | 0 <= q < 3
        ensures bufs[t][q] == PF(s2, eb, r, q, base + t, i)
      {
        PFScaled(s2, eb, r, q, base + t, i, s);
      }
    }
  }

  /** The second loop of a chunk: `g[base + t] += bufs[t]`. */
  method AddBufs(g: array<Point>, bufs: array<Point>, base: nat, len: nat)
    requires g != bufs && len <= bufs.Length && base + len <= g.Length
    modifies g
    ensures forall k :: 0 <= k < g.Length ==> g[k] == if base <= k < base + len then Add(old(g[k]), bufs[k - base]) else old(g[k])
  {
    for t := 0 to len
      invariant forall k :: 0 <= k < g.Length ==> g[k] == if base <= k < base + t then Add(old(g[k]), bufs[k - base]) else old(g[k])
    {
      g[base + t] := Add(g[base + t], bufs[t]);
    }
  }

  /** The third loop of a chunk: `bufs2[t] -= bufs[t]`. */
  method SubBufs(bufs2: array<Point>, bufs: array<Point>, len: nat)
    requires bufs2 != bufs && len <= bufs.Length == bufs2.Length
    modifies bufs2
    ensures forall t :: 0 <= t < bufs2.Length ==> bufs2[t] == if t < len then Sub(old(bufs2[t]), bufs[t]) else old(bufs2[t])
  {
    for t := 0 to len
      invariant forall t' :: 0 <= t' < bufs2.Length ==> bufs2[t'] == if t' < t then Sub(old(bufs2[t']), bufs[t']) else old(bufs2[t'])
    {
      bufs2[t] := Sub(bufs2[t], bufs[t]);
    }
  }

  /** The end of row `i`: `g[i]` gains every lane of `bufs2`. */
  method AddLanes(g: array<Point>, bufs2: array<Point>, i: nat)
    requires g != bufs2 && i < g.Length
    modifies g
    ensures forall q :: 0 <= q < 3 ==> g[i][q] == old(g[i][q]) + Sum(Axis(bufs2[..], q))
    ensures forall k :: 0 <= k < g.Length && k != i ==> g[k] == old(g[k])
  {
    for t := 0 to bufs2.Length
      invariant forall q :: 0 <= q < 3 ==> g[i][q] == old(g[i][q]) + Sum(Axis(bufs2[..t], q))
      invariant forall k :: 0 <= k < g.Length && k != i ==> g[k] == old(g[k])
    {
      forall q | 0 <= q < 3
        ensures Sum(Axis(bufs2[..t + 1], q)) == Sum(Axis(bufs2[..t], q)) + bufs2[t][q]
      {
        AxisSnoc(bufs2[..], q, t);
        assert bufs2[..][..t + 1] == bufs2[..t + 1] && bufs2[..][..t] == bufs2[..t];
      }
      g[i] := Add(g[i], bufs2[t]);
    }
    assert bufs2[..bufs2.Length] == bufs2[..];
  }
}
