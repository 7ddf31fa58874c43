/**
 * `lennard_jones_t.rs`: the kernels on three coordinate slices `x`, `y`,
 * `z`.  Particle `k` is `At(x, y, z, k)`, and the slices zipped together are
 * `Zip3(x, y, z)`, as long as the shortest of them, as Rust's `zip` is.  The
 * lane count `N` is the parameter `lanes`, and `b = N * floor(n / N)` is where
 * the whole chunks end: the blocked kernels visit the pairs of
 * `SameSide(b)`, which leaves out the pairs with one particle in a whole
 * chunk and the other in the remainder.
 */
module LennardJonesSoa {
  import opened Arith
  import opened LennardJonesSpec
  import opened LennardJonesGrad
  import opened LennardJonesAos

  function Min3(a: nat, b: nat, c: nat): nat
  {
    if a <= b && a <= c then a else if b <= c then b else c
  }

  /** Particle `k`: `[x[k], y[k], z[k]]`. */
  function At(x: seq<real>, y: seq<real>, z: seq<real>, k: nat): Point
    requires k < |x| && k < |y| && k < |z|
  {
    [x[k], y[k], z[k]]
  }

  /** The particles of `x.iter().zip(y).zip(z)`. */
  function Zip3(x: seq<real>, y: seq<real>, z: seq<real>): (pts: seq<Point>)
    ensures |pts| == Min3(|x|, |y|, |z|) && |pts| <= |x| && |pts| <= |y| && |pts| <= |z|
    ensures forall k :: 0 <= k < |pts| ==> pts[k] == At(x, y, z, k)
  {
    seq(Min3(|x|, |y|, |z|), k requires 0 <= k < Min3(|x|, |y|, |z|) => At(x, y, z, k))
  }

  /** The energy term of particles `j` and `i` of the slices, `j != i`. */
  function PairAt(s2: real, x: seq<real>, y: seq<real>, z: seq<real>, j: nat, i: nat): (v: real)
    requires Separated(Zip3(x, y, z)) && j < |Zip3(x, y, z)| && i < |Zip3(x, y, z)| && j != i
    ensures v == Term(s2, Zip3(x, y, z), j, i)
  {
    assert Zip3(x, y, z)[j] == At(x, y, z, j) && Zip3(x, y, z)[i] == At(x, y, z, i);
    assert Apart(Zip3(x, y, z), j, i);
    PairTerm(s2, Dist2(At(x, y, z, j), At(x, y, z, i)))
  }

  /** Zipping slices of equal range is slicing the zip. */
  lemma {:induction false} Zip3Slice(x: seq<real>, y: seq<real>, z: seq<real>, o: nat, e: nat)
    requires o <= e <= |x| && e <= |y| && e <= |z|
    ensures Zip3(x[o..e], y[o..e], z[o..e]) == Zip3(x, y, z)[o..e]
  {
  }

  /** Pushing one coordinate on each slice pushes one particle. */
  lemma {:induction false} Zip3Push(x: seq<real>, y: seq<real>, z: seq<real>, a: real, b: real, c: real)
    requires |x| == |y| == |z|
    ensures Zip3(x + [a], y + [b], z + [c]) == Zip3(x, y, z) + [[a, b, c]]
  {
  }

  /**
   * `setup_cubic_lattice`: three slices of `n^3` coordinates; position
   * `(i n + j) n + k` holds `i r`, `j r` and `k r`.
   */
  method SetupCubicLattice(n: nat, r: real) returns (xs: seq<real>, ys: seq<real>, zs: seq<real>)
    ensures |xs| == |ys| == |zs| == Mul(n, Mul(n, n))
    ensures forall i: nat, j: nat, k: nat {:trigger Flat(n, Flat(n, i, j), k)} :: i < n && j < n && k < n ==>
      Flat(n, Flat(n, i, j), k) < |xs| &&
      xs[Flat(n, Flat(n, i, j), k)] == i as real * r &&
      ys[Flat(n, Flat(n, i, j), k)] == j as real * r &&
      zs[Flat(n, Flat(n, i, j), k)] == k as real * r
  {
    xs, ys, zs := [], [], [];
    for i := 0 to n
      invariant |xs| == |ys| == |zs| == Mul(n, Mul(n, i)) && LatticeSoFar(Zip3(xs, ys, zs), n, r)
    {
      xs, ys, zs := LatticePlane3(xs, ys, zs, n, r, i);
    }
    forall i: nat, j: nat, k: nat | i < n && j < n && k < n
      ensures Flat(n, Flat(n, i, j), k) < |xs| &&
        xs[Flat(n, Flat(n, i, j), k)] == i as real * r &&
        ys[Flat(n, Flat(n, i, j), k)] == j as real * r &&
        zs[Flat(n, Flat(n, i, j), k)] == k as real * r
    {
      FlatInRange(n, n, i, j);
      FlatInRange(n, Mul(n, n), Flat(n, i, j), k);
      assert Zip3(xs, ys, zs)[Flat(n, Flat(n, i, j), k)] == LatticePoint(i, j, k, r);
    }
  }

  /** The middle loop of `setup_cubic_lattice`: the `n * n` particles of plane `i`. */
  method LatticePlane3(xs0: seq<real>, ys0: seq<real>, zs0: seq<real>, n: nat, r: real, i: nat)
    returns (xs: seq<real>, ys: seq<real>, zs: seq<real>)
    requires i < n && |xs0| == |ys0| == |zs0| == Mul(n, Mul(n, i)) && LatticeSoFar(Zip3(xs0, ys0, zs0), n, r)
    ensures |xs| == |ys| == |zs| == Mul(n, Mul(n, i + 1)) && LatticeSoFar(Zip3(xs, ys, zs), n, r)
  {
    xs, ys, zs := xs0, ys0, zs0;
    for j := 0 to n
      invariant |xs| == |ys| == |zs| == Mul(n, Mul(n, i) + j) && LatticeSoFar(Zip3(xs, ys, zs), n, r)
    {
      xs, ys, zs := LatticeLine3(xs, ys, zs, n, r, i, j);
    }
  }

  /** The innermost loop of `setup_cubic_lattice`: the `n` particles of line `(i, j)`. */
  method LatticeLine3(xs0: seq<real>, ys0: seq<real>, zs0: seq<real>, n: nat, r: real, i: nat, j: nat)
    returns (xs: seq<real>, ys: seq<real>, zs: seq<real>)
    requires i < n && j < n && |xs0| == |ys0| == |zs0| == Flat(n, Flat(n, i, j), 0)
    requires LatticeSoFar(Zip3(xs0, ys0, zs0), n, r)
    ensures |xs| == |ys| == |zs| == Flat(n, Flat(n, i, j), n) && LatticeSoFar(Zip3(xs, ys, zs), n, r)
  {
    xs, ys, zs := xs0, ys0, zs0;
    for k := 0 to n
      invariant |xs| == |ys| == |zs| == Flat(n, Flat(n, i, j), k) && LatticeSoFar(Zip3(xs, ys, zs), n, r)
    {
      LatticePush(Zip3(xs, ys, zs), n, r, i, j, k);
      Zip3Push(xs, ys, zs, i as real * r, j as real * r, k as real * r);
      xs, ys, zs := xs + [i as real * r], ys + [j as real * r], zs + [k as real * r];
    }
  }

  // ---------------------------------------------------------------- energy

  /** `Σ_{t < m} RowEnergy(o + t, o, o + t)`: the pairs inside `o .. o + m`. */
  function Tri(s2: real, pts: seq<Point>, o: nat, m: nat): real
    requires Separated(pts) && o + m <= |pts|
  {
    if m == 0 then 0.0 else Tri(s2, pts, o, m - 1) + RowEnergy(s2, pts, o + m - 1, o, o + m - 1)
  }

  /** Row `i` of a slice is row `o + i` of the whole, over shifted partners. */
  lemma {:induction false} RowSlice(s2: real, pts: seq<Point>, o: nat, m: nat, i: nat, lo: nat, hi: nat)
    requires Separated(pts) && o + m <= |pts| && lo <= hi <= i < m
    ensures Separated(pts[o..o + m])
    ensures RowEnergy(s2, pts[o..o + m], i, lo, hi) == RowEnergy(s2, pts, o + i, o + lo, o + hi)
    decreases hi
  {
    SeparatedSlice(pts, o, o + m);
    if hi > lo {
      RowSlice(s2, pts, o, m, i, lo, hi - 1);
      assert pts[o..o + m][i] == pts[o + i] && pts[o..o + m][hi - 1] == pts[o + hi - 1];
    }
  }

  /** Every pair of a slice is a pair inside its range of the whole. */
  lemma {:induction false} TriSlice(s2: real, pts: seq<Point>, o: nat, m: nat, k: nat)
    requires Separated(pts) && o + m <= |pts| && k <= m
    ensures Separated(pts[o..o + m])
    ensures Energy(AllPairs, s2, pts[o..o + m], k) == Tri(s2, pts, o, k)
  {
    SeparatedSlice(pts, o, o + m);
    if k > 0 {
      TriSlice(s2, pts, o, m, k - 1);
      RowSlice(s2, pts, o, m, k - 1, 0, k - 1);
    }
  }

  /** `Σ_{t < len} RowEnergy(base + t, lo, hi)`: rows `base .. base + len` over the same partners. */
  function BlockRows(s2: real, pts: seq<Point>, base: nat, len: nat, lo: nat, hi: nat): real
    requires Separated(pts) && hi <= base && base + len <= |pts|
  {
    if len == 0 then 0.0 else BlockRows(s2, pts, base, len - 1, lo, hi) + RowEnergy(s2, pts, base + len - 1, lo, hi)
  }

  /** With no partners the rows add nothing. */
  lemma {:induction false} BlockRowsNone(s2: real, pts: seq<Point>, base: nat, len: nat)
    requires Separated(pts) && base + len <= |pts|
    ensures BlockRows(s2, pts, base, len, 0, 0) == 0.0
  {
    if len > 0 {
      BlockRowsNone(s2, pts, base, len - 1);
    }
  }

  /** The lane terms of partner `j` against the particles `base .. base + |vs|`. */
  lemma {:induction false} BlockRowsNext(s2: real, pts: seq<Point>, base: nat, len: nat, j: nat, vs: seq<real>)
    requires Separated(pts) && j < base && base + len <= |pts| && len <= |vs|
    requires forall t :: 0 <= t < |vs| && base + t < |pts| ==> vs[t] == Term(s2, pts, j, base + t)
    ensures BlockRows(s2, pts, base, len, 0, j + 1) == BlockRows(s2, pts, base, len, 0, j) + Sum(vs[..len])
  {
    if len > 0 {
      BlockRowsNext(s2, pts, base, len - 1, j, vs);
      Dist2Symmetric(pts[j], pts[base + len - 1]);
      assert vs[..len][..len - 1] == vs[..len - 1];
    }
  }

  /** Rows `o .. o + t` whose partners are all `0 .. hi` add `BlockRows` to the energy. */
  lemma {:induction false} RowsWith(ps: Pairs, s2: real, pts: seq<Point>, o: nat, t: nat, hi: nat)
    requires Separated(pts) && hi <= o && o + t <= |pts|
    requires forall k :: o <= k < o + t ==> Lo(ps, k) == 0 && Hi(ps, k) == hi
    ensures Energy(ps, s2, pts, o + t) == Energy(ps, s2, pts, o) + BlockRows(s2, pts, o, t, 0, hi)
  {
    if t > 0 {
      RowsWith(ps, s2, pts, o, t - 1, hi);
      EnergyNext(ps, s2, pts, o + t - 1);
    }
  }

  /** The rows of chunk `c` of `EarlierBlocks(N)` have every partner before the chunk. */
  lemma {:induction false} EarlierRows(s2: real, pts: seq<Point>, lanes: nat, c: nat)
    requires Separated(pts) && lanes > 0 && Mul(lanes, c) + lanes <= |pts|
    ensures Energy(EarlierBlocks(lanes), s2, pts, Mul(lanes, c + 1))
         == Energy(EarlierBlocks(lanes), s2, pts, Mul(lanes, c)) + BlockRows(s2, pts, Mul(lanes, c), lanes, 0, Mul(lanes, c))
  {
    ChunkRows(lanes, c);
    RowsWith(EarlierBlocks(lanes), s2, pts, Mul(lanes, c), lanes, Mul(lanes, c));
  }

  /** In `EarlierBlocks(N)` every row of chunk `c` has the partners `0 .. N c`. */
  lemma {:induction false} ChunkRows(lanes: nat, c: nat)
    requires lanes > 0
    ensures forall k :: Mul(lanes, c) <= k < Mul(lanes, c) + lanes ==>
      Lo(EarlierBlocks(lanes), k) == 0 && Hi(EarlierBlocks(lanes), k) == Mul(lanes, c)
  {
    forall k | Mul(lanes, c) <= k < Mul(lanes, c) + lanes
      ensures Lo(EarlierBlocks(lanes), k) == 0 && Hi(EarlierBlocks(lanes), k) == Mul(lanes, c)
    {
      DivModUnique(lanes, c, k - Mul(lanes, c));
    }
  }

  /** Every pair of rows `o .. o + t`: the partners before `o`, and the pairs inside `o .. o + t`. */
  lemma {:induction false} AllRows(s2: real, pts: seq<Point>, o: nat, t: nat)
    requires Separated(pts) && o + t <= |pts|
    ensures Energy(AllPairs, s2, pts, o + t) == Energy(AllPairs, s2, pts, o) + BlockRows(s2, pts, o, t, 0, o) + Tri(s2, pts, o, t)
  {
    if t > 0 {
      AllRows(s2, pts, o, t - 1);
      RowSplit(s2, pts, o + t - 1, 0, o, o + t - 1);
    }
  }

  /**
   * What the chunk kernel adds for chunk `c`: the pairs inside the chunk, the
   * part of its rows that `EarlierBlocks(N)` leaves to it.
   */
  lemma {:induction false} OwnRows(s2: real, pts: seq<Point>, lanes: nat, c: nat)
    requires Separated(pts) && lanes > 0 && Mul(lanes, c) + lanes <= |pts|
    ensures Energy(AllPairs, s2, pts, Mul(lanes, c + 1)) - Energy(EarlierBlocks(lanes), s2, pts, Mul(lanes, c + 1))
         == Energy(AllPairs, s2, pts, Mul(lanes, c)) - Energy(EarlierBlocks(lanes), s2, pts, Mul(lanes, c))
            + Tri(s2, pts, Mul(lanes, c), lanes)
  {
    EarlierRows(s2, pts, lanes, c);
    AllRows(s2, pts, Mul(lanes, c), lanes);
  }

  /** Below the cut `SameSide(b)` is every pair; past it, the pairs inside `b .. n`. */
  lemma {:induction false} SameSideRows(s2: real, pts: seq<Point>, b: nat, m: nat)
    requires Separated(pts) && b + m <= |pts|
    ensures Energy(SameSide(b), s2, pts, b + m) == Energy(AllPairs, s2, pts, b) + Tri(s2, pts, b, m)
  {
    if m == 0 {
      SameSideBelow(s2, pts, b, b);
    } else {
      SameSideRows(s2, pts, b, m - 1);
      EnergyNext(SameSide(b), s2, pts, b + m - 1);
    }
  }

  lemma {:induction false} SameSideBelow(s2: real, pts: seq<Point>, b: nat, n: nat)
    requires Separated(pts) && n <= b && n <= |pts|
    ensures Energy(SameSide(b), s2, pts, n) == Energy(AllPairs, s2, pts, n)
  {
    if n > 0 {
      SameSideBelow(s2, pts, b, n - 1);
    }
  }

  /**
   * `lennard_jones_rest`: every pair `j < i` of the zipped slices, row by
   * row.
   */
  method Rest(s2: real, x: seq<real>, y: seq<real>, z: seq<real>) returns (e: real)
    requires Separated(Zip3(x, y, z))
    ensures e == Energy(AllPairs, s2, Zip3(x, y, z), |Zip3(x, y, z)|)
  {
    e := 0.0;
    for i := 0 to Min3(|x|, |y|, |z|)
      invariant e == Energy(AllPairs, s2, Zip3(x, y, z), i)
    {
      e := RestRow(e, s2, x, y, z, i, i);
      EnergyNext(AllPairs, s2, Zip3(x, y, z), i);
    }
  }

  /** The inner loop of `lennard_jones_rest` (with `hi == i`): the partners `j < hi` of `i`, added to `e0`. */
  method RestRow(e0: real, s2: real, x: seq<real>, y: seq<real>, z: seq<real>, i: nat, hi: nat) returns (e: real)
    requires Separated(Zip3(x, y, z)) && hi <= i < |Zip3(x, y, z)|
    ensures e == e0 + RowEnergy(s2, Zip3(x, y, z), i, 0, hi)
  {
    ghost var pts := Zip3(x, y, z);
    e := e0;
    for j := 0 to hi
      invariant e == e0 + RowEnergy(s2, pts, i, 0, j)
    {
      Dist2Symmetric(pts[i], pts[j]);
      assert pts[j] == At(x, y, z, j) && pts[i] == At(x, y, z, i) && Apart(pts, j, i);
      var r2 := Dist2(At(x, y, z, j), At(x, y, z, i));
      e := e + PairTerm(s2, r2);
    }
  }

  /**
   * `lennard_jones_chunk` on one chunk of `N` particles: lane `l` of the
   * vector holds particle `l`; for every particle `i` the lanes `l < i`
   * (`take(i)`) are summed, so every pair `l < i` is counted once, as
   * `lennard_jones_rest` counts them.
   */
  method Chunk(s2: real, x: seq<real>, y: seq<real>, z: seq<real>) returns (e: real)
    requires |x| == |y| == |z| && Separated(Zip3(x, y, z))
    ensures e == Energy(AllPairs, s2, Zip3(x, y, z), |x|)
  {
    ghost var pts := Zip3(x, y, z);
    e := 0.0;
    for i := 0 to |x|
      invariant e == Energy(AllPairs, s2, pts, i)
    {
      var es := seq(i, l requires 0 <= l < i => PairAt(s2, x, y, z, i, l));
      RowAsSum(s2, pts, i, es);
      e := e + Sum(es);
      EnergyNext(AllPairs, s2, pts, i);
    }
  }

  /** Lanes holding the pairs `(l, i)`, `l < |vs|`, sum to row `i` over `0 .. |vs|`. */
  lemma {:induction false} RowAsSum(s2: real, pts: seq<Point>, i: nat, vs: seq<real>)
    requires Separated(pts) && |vs| <= i < |pts|
    requires forall l :: 0 <= l < |vs| ==> vs[l] == Term(s2, pts, i, l)
    ensures Sum(vs) == RowEnergy(s2, pts, i, 0, |vs|)
    decreases |vs|
  {
    if |vs| > 0 {
      RowAsSum(s2, pts, i, vs[..|vs| - 1]);
    }
  }

  /**
   * `lennard_jones`: the lengths must agree (`ok`).  The lanes of `es` hold,
   * for each whole chunk, its pairs with every earlier particle; the chunk
   * kernel adds the pairs inside each whole chunk and the rest kernel the
   * pairs inside the remainder.  That is `SameSide(b)`.
   */
  method LennardJones(s2: real, eb: real, x: seq<real>, y: seq<real>, z: seq<real>, lanes: nat) returns (ok: bool, e: real)
    requires Separated(Zip3(x, y, z)) && lanes > 0
    ensures ok <==> |x| == |y| == |z|
    ensures ok ==> e == Scaled(Energy(SameSide(ChunkEnd(|x|, lanes)), s2, Zip3(x, y, z), |x|), eb)
  {
    if |x| != |y| || |x| != |z| {
      return false, 0.0;
    }
    ok := true;
    var sum := LennardJonesSum(s2, x, y, z, lanes);
    e := Scaled(sum, eb);
  }

  /**
   * `lennard_jones` with the pairs it leaves out added: every particle of the
   * remainder against every particle of the whole chunks.  That is every
   * pair.
   */
  method LennardJonesFull(s2: real, eb: real, x: seq<real>, y: seq<real>, z: seq<real>, lanes: nat) returns (ok: bool, e: real)
    requires Separated(Zip3(x, y, z)) && lanes > 0
    ensures ok <==> |x| == |y| == |z|
    ensures ok ==> e == Scaled(Energy(AllPairs, s2, Zip3(x, y, z), |x|), eb)
  {
    if |x| != |y| || |x| != |z| {
      return false, 0.0;
    }
    ok := true;
    var sum := LennardJonesFullSum(s2, x, y, z, lanes);
    e := Scaled(sum, eb);
  }

  /** The three parts of `lennard_jones` and the pairs across the cut, before the scaling. */
  method LennardJonesFullSum(s2: real, x: seq<real>, y: seq<real>, z: seq<real>, lanes: nat) returns (e: real)
    requires |x| == |y| == |z| && Separated(Zip3(x, y, z)) && lanes > 0
    ensures e == Energy(AllPairs, s2, Zip3(x, y, z), |x|)
  {
    e := LennardJonesSum(s2, x, y, z, lanes);
    var b := Mul(lanes, |x| / lanes);
    e := MixedRows(e, s2, x, y, z, b);
    SameSideMisses(b, s2, Zip3(x, y, z), |x|);
  }

  /** The rows `b ..` against the partners `0 .. b`, added to `e0`. */
  method MixedRows(e0: real, s2: real, x: seq<real>, y: seq<real>, z: seq<real>, b: nat) returns (e: real)
    requires |x| == |y| == |z| && Separated(Zip3(x, y, z)) && b <= |x|
    ensures e == e0 + Missing(s2, Zip3(x, y, z), b, |x|)
  {
    ghost var pts := Zip3(x, y, z);
    e := e0;
    for i := b to |x|
      invariant e == e0 + Missing(s2, pts, b, i)
    {
      e := RestRow(e, s2, x, y, z, i, b);
    }
  }

  /** The three parts of `lennard_jones`, before the scaling. */
  method LennardJonesSum(s2: real, x: seq<real>, y: seq<real>, z: seq<real>, lanes: nat) returns (e: real)
    requires |x| == |y| == |z| && Separated(Zip3(x, y, z)) && lanes > 0
    ensures e == Energy(SameSide(ChunkEnd(|x|, lanes)), s2, Zip3(x, y, z), |x|)
  {
    ghost var pts := Zip3(x, y, z);
    var b := Mul(lanes, |x| / lanes);
    var es := EarlierLanes(s2, x, y, z, lanes);
    e := Sum(es);
    e := OwnChunks(e, s2, x, y, z, lanes);
    var er := RestAt(s2, x, y, z, b);
    e := e + er;
    SameSideRows(s2, pts, b, |x| - b);
  }

  /** The second loop of `lennard_jones`: the chunk kernel on every whole chunk, added to `e0`. */
  method OwnChunks(e0: real, s2: real, x: seq<real>, y: seq<real>, z: seq<real>, lanes: nat) returns (e: real)
    requires |x| == |y| == |z| && Separated(Zip3(x, y, z)) && lanes > 0
    ensures e == e0 + Energy(AllPairs, s2, Zip3(x, y, z), ChunkEnd(|x|, lanes))
                    - Energy(EarlierBlocks(lanes), s2, Zip3(x, y, z), ChunkEnd(|x|, lanes))
  {
    ghost var pts := Zip3(x, y, z);
    var chunks := |x| / lanes;
    DivMod(|x|, lanes);
    e := e0;
    for c := 0 to chunks
      invariant Mul(lanes, c) <= |x|
      invariant e == e0 + Energy(AllPairs, s2, pts, Mul(lanes, c)) - Energy(EarlierBlocks(lanes), s2, pts, Mul(lanes, c))
    {
      MulMonotone(lanes, c + 1, chunks);
      var ec := ChunkAt(s2, x, y, z, Mul(lanes, c), lanes);
      OwnRows(s2, pts, lanes, c);
      e := e + ec;
    }
  }

  /** `lennard_jones_chunk` on the particles `o .. o + m`. */
  method ChunkAt(s2: real, x: seq<real>, y: seq<real>, z: seq<real>, o: nat, m: nat) returns (e: real)
    requires |x| == |y| == |z| && Separated(Zip3(x, y, z)) && o + m <= |x|
    ensures e == Tri(s2, Zip3(x, y, z), o, m)
  {
    Zip3Slice(x, y, z, o, o + m);
    TriSlice(s2, Zip3(x, y, z), o, m, m);
    e := Chunk(s2, x[o..o + m], y[o..o + m], z[o..o + m]);
  }

  /** `lennard_jones_rest` on the particles `o ..`. */
  method RestAt(s2: real, x: seq<real>, y: seq<real>, z: seq<real>, o: nat) returns (e: real)
    requires |x| == |y| == |z| && Separated(Zip3(x, y, z)) && o <= |x|
    ensures e == Tri(s2, Zip3(x, y, z), o, |x| - o)
  {
    Zip3Slice(x, y, z, o, |x|);
    TriSlice(s2, Zip3(x, y, z), o, |x| - o, |x| - o);
    assert x[o..|x|] == x[o..] && y[o..|x|] == y[o..] && z[o..|x|] == z[o..];
    e := Rest(s2, x[o..], y[o..], z[o..]);
  }

  /** The first loop of `lennard_jones`: lane `l` of `es` gathers, chunk by chunk, particle `N c + l` against every `j < N c`. */
  method EarlierLanes(s2: real, x: seq<real>, y: seq<real>, z: seq<real>, lanes: nat) returns (es: seq<real>)
    requires |x| == |y| == |z| && Separated(Zip3(x, y, z)) && lanes > 0
    ensures |es| == lanes && Sum(es) == Energy(EarlierBlocks(lanes), s2, Zip3(x, y, z), ChunkEnd(|x|, lanes))
  {
    ghost var pts := Zip3(x, y, z);
    var chunks := |x| / lanes;
    DivMod(|x|, lanes);
    es := seq(lanes, _ => 0.0);
    SumZeros(es);
    for c := 0 to chunks
      invariant Mul(lanes, c) <= |x|
      invariant |es| == lanes && Sum(es) == Energy(EarlierBlocks(lanes), s2, pts, Mul(lanes, c))
    {
      MulMonotone(lanes, c + 1, chunks);
      es := EarlierChunk(es, s2, x, y, z, lanes, c);
    }
  }

  /** Chunk `c` of the first loop of `lennard_jones`. */
  method EarlierChunk(es0: seq<real>, s2: real, x: seq<real>, y: seq<real>, z: seq<real>, lanes: nat, c: nat)
    returns (es: seq<real>)
    requires |x| == |y| == |z| && Separated(Zip3(x, y, z)) && lanes > 0 && |es0| == lanes
    requires Mul(lanes, c) + lanes <= |x|
    ensures |es| == lanes
    ensures Sum(es) == Sum(es0) + Energy(EarlierBlocks(lanes), s2, Zip3(x, y, z), Mul(lanes, c + 1))
                                - Energy(EarlierBlocks(lanes), s2, Zip3(x, y, z), Mul(lanes, c))
  {
    ghost var pts := Zip3(x, y, z);
    var o := Mul(lanes, c);
    es := es0;
    BlockRowsNone(s2, pts, o, lanes);
    for j := 0 to o
      invariant |es| == lanes && Sum(es) == Sum(es0) + BlockRows(s2, pts, o, lanes, 0, j)
    {
      es := EarlierStep(es, s2, x, y, z, lanes, o, j);
    }
    EarlierRows(s2, pts, lanes, c);
  }

  /** One `j` of the first loop: every lane gains its pair with `j`. */
  method EarlierStep(es0: seq<real>, s2: real, x: seq<real>, y: seq<real>, z: seq<real>, lanes: nat, o: nat, j: nat)
    returns (es: seq<real>)
    requires |x| == |y| == |z| && Separated(Zip3(x, y, z)) && |es0| == lanes && j < o && o + lanes <= |x|
    ensures |es| == lanes
    ensures Sum(es) == Sum(es0) + BlockRows(s2, Zip3(x, y, z), o, lanes, 0, j + 1) - BlockRows(s2, Zip3(x, y, z), o, lanes, 0, j)
  {
    ghost var pts := Zip3(x, y, z);
    ghost var vs := seq(lanes, l requires 0 <= l < lanes => PairAt(s2, x, y, z, j, o + l));
    es := seq(lanes, l requires 0 <= l < lanes => es0[l] + PairAt(s2, x, y, z, j, o + l));
    LaneAdds(es0, es, vs);
    forall t | 0 <= t < lanes
      ensures vs[t] == Term(s2, pts, j, o + t)
    {
      assert vs[t] == PairAt(s2, x, y, z, j, o + t);
    }
    BlockRowsNext(s2, pts, o, lanes, j, vs);
    assert vs[..lanes] == vs;
  }
}
