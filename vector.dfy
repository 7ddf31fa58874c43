/**
 * `linalg/vector.rs`: the naive and the lane-chunked dot product, the
 * first-chunk view of a slice, and the periodic fill of `rand_vec`.
 * `PrimNum` is modelled as `int`.
 */
module LinalgVector {
  import opened Arith

  /** `dot_naive`: the zip stops at the shorter slice. */
  function Dot(v: seq<int>, w: seq<int>): int
    decreases |v|
  {
    if |v| == 0 || |w| == 0 then 0 else v[0] * w[0] + Dot(v[1..], w[1..])
  }

  /** The dot product only sees the first `min(|v|, |w|)` entries of each side. */
  lemma {:induction false} DotTruncates(v: seq<int>, w: seq<int>, n: nat)
    requires n <= |v| && n <= |w| && (n == |v| || n == |w|)
    ensures Dot(v, w) == Dot(v[..n], w[..n])
    decreases n
  {
    if n > 0 {
      assert v[..n][1..] == v[1..][..n - 1];
      assert w[..n][1..] == w[1..][..n - 1];
      DotTruncates(v[1..], w[1..], n - 1);
    }
  }

  lemma {:induction false} DotSymmetric(v: seq<int>, w: seq<int>)
    ensures Dot(v, w) == Dot(w, v)
    decreases |v|
  {
    if |v| > 0 && |w| > 0 {
      DotSymmetric(v[1..], w[1..]);
    }
  }

  /** The dot product of two concatenations whose first parts have one length. */
  lemma {:induction false} DotSplit(a: seq<int>, b: seq<int>, c: seq<int>, d: seq<int>)
    requires |a| == |c|
    ensures Dot(a + b, c + d) == Dot(a, c) + Dot(b, d)
    decreases |a|
  {
    if |a| > 0 {
      assert (a + b)[1..] == a[1..] + b;
      assert (c + d)[1..] == c[1..] + d;
      DotSplit(a[1..], b, c[1..], d);
    } else {
      assert a + b == b && c + d == d;
    }
  }

  /** The dot product of the first `j` entries, cut at `i`. */
  lemma {:induction false} DotPrefixes(v: seq<int>, w: seq<int>, i: nat, j: nat)
    requires i <= j <= |v| && j <= |w|
    ensures Dot(v[..j], w[..j]) == Dot(v[..i], w[..i]) + Dot(v[i..j], w[i..j])
  {
    assert v[..j] == v[..i] + v[i..j] && w[..j] == w[..i] + w[i..j];
    DotSplit(v[..i], v[i..j], w[..i], w[i..j]);
  }

  lemma {:induction false} DotSingle(a: int, b: int)
    ensures Dot([a], [b]) == a * b
  {
    assert [a][1..] == [] && [b][1..] == [];
  }

  /** The dot product of two ranges, peeled at the end. */
  lemma {:induction false} DotSnoc(v: seq<int>, w: seq<int>, i: nat, j: nat)
    requires i < j <= |v| && j <= |w|
    ensures Dot(v[i..j], w[i..j]) == Dot(v[i..j - 1], w[i..j - 1]) + v[j - 1] * w[j - 1]
  {
    assert v[i..j] == v[i..j - 1] + [v[j - 1]];
    assert w[i..j] == w[i..j - 1] + [w[j - 1]];
    DotSplit(v[i..j - 1], [v[j - 1]], w[i..j - 1], [w[j - 1]]);
    DotSingle(v[j - 1], w[j - 1]);
  }

  /** What lane `t` of `acc` holds after `q` whole chunks. */
  function ColumnDot(v: seq<int>, w: seq<int>, n: nat, t: nat, q: nat): int
    requires t < n && Mul(n, q) <= |v| && Mul(n, q) <= |w|
    decreases q
  {
    if q == 0 then 0
    else
      ColumnDot(v, w, n, t, q - 1) + v[Mul(n, q - 1) + t] * w[Mul(n, q - 1) + t]
  }

  /** The sum of the lanes of `acc`. */
  function Sum(s: seq<int>): int
  {
    if |s| == 0 then 0 else Sum(s[..|s| - 1]) + s[|s| - 1]
  }

  lemma {:induction false} SumZeros(s: seq<int>)
    requires forall t :: 0 <= t < |s| ==> s[t] == 0
    ensures Sum(s) == 0
    decreases |s|
  {
    if |s| > 0 {
      SumZeros(s[..|s| - 1]);
    }
  }

  /** One more whole chunk adds its entries to the lanes. */
  lemma {:induction false} ColumnDotNext(v: seq<int>, w: seq<int>, n: nat, q: nat)
    requires Mul(n, q + 1) <= |v| && Mul(n, q + 1) <= |w|
    ensures Mul(n, q) + n <= |v| && Mul(n, q) + n <= |w|
    ensures forall t {:trigger ColumnDot(v, w, n, t, q + 1)} :: 0 <= t < n ==>
      ColumnDot(v, w, n, t, q + 1) == ColumnDot(v, w, n, t, q) + v[Mul(n, q) + t] * w[Mul(n, q) + t]
  {
  }

  /**
   * `dot_chunked::<N>`: lane sums over the pairs of whole chunks (as many as
   * the shorter slice has), plus the dot product of the two remainders.  For
   * slices of one length it is `dot_naive`.
   */
  method DotChunked(v: seq<int>, w: seq<int>, n: nat) returns (r: int)
    requires n > 0
    ensures Mul(n, |v| / n) <= |v| && Mul(n, |w| / n) <= |w|
    ensures var c := if |v| / n <= |w| / n then |v| / n else |w| / n;
      Mul(n, c) <= |v| && Mul(n, c) <= |w| &&
      r == Dot(v[..Mul(n, c)], w[..Mul(n, c)]) + Dot(v[Mul(n, |v| / n)..], w[Mul(n, |w| / n)..])
    ensures |v| == |w| ==> r == Dot(v, w)
  {
    DivMod(|v|, n);
    DivMod(|w|, n);
    var c := if |v| / n <= |w| / n then |v| / n else |w| / n;
    MulMonotone(n, c, |v| / n);
    MulMonotone(n, c, |w| / n);
    var acc := new int[n](_ => 0);
    ChunkLoop(acc, v, w, c);
    r := Sum(acc[..]);
    r := r + Dot(v[Mul(n, |v| / n)..], w[Mul(n, |w| / n)..]);
    if |v| == |w| {
      DotPrefixes(v, w, Mul(n, c), |v|);
      assert v[..|v|] == v && w[..|w|] == w;
    }
  }

  /**
   * The outer loop of `dot_chunked` over the first `c` pairs of chunks, from
   * zeroed lanes: lane `t` ends up with the chunk entries at offset `t`.
   */
  method ChunkLoop(acc: array<int>, v: seq<int>, w: seq<int>, c: nat)
    requires Mul(acc.Length, c) <= |v| && Mul(acc.Length, c) <= |w|
    requires forall t :: 0 <= t < acc.Length ==> acc[t] == 0
    modifies acc
    ensures forall t {:trigger ColumnDot(v, w, acc.Length, t, c)} :: 0 <= t < acc.Length ==> acc[t] == ColumnDot(v, w, acc.Length, t, c)
    ensures Sum(acc[..]) == Dot(v[..Mul(acc.Length, c)], w[..Mul(acc.Length, c)])
  {
    var n := acc.Length;
    for q := 0 to c
      invariant Mul(n, q) <= |v| && Mul(n, q) <= |w|
      invariant forall t {:trigger ColumnDot(v, w, n, t, q)} :: 0 <= t < n ==> acc[t] == ColumnDot(v, w, n, t, q)
    {
      MulMonotone(n, q + 1, c);
      AddChunk(acc, v, w, Mul(n, q));
      ColumnDotNext(v, w, n, q);
    }
    LanesSum(v, w, n, c);
    assert acc[..] == Lanes(v, w, n, c);
  }

  /** All lanes after `c` whole chunks. */
  function Lanes(v: seq<int>, w: seq<int>, n: nat, c: nat): (ls: seq<int>)
    requires Mul(n, c) <= |v| && Mul(n, c) <= |w|
    ensures |ls| == n
  {
    seq(n, t requires 0 <= t < n => ColumnDot(v, w, n, t, c))
  }

  /** The lanes after `c` whole chunks sum to the dot product of the first `c` chunks. */
  lemma {:induction false} LanesSum(v: seq<int>, w: seq<int>, n: nat, c: nat)
    requires Mul(n, c) <= |v| && Mul(n, c) <= |w|
    ensures Sum(Lanes(v, w, n, c)) == Dot(v[..Mul(n, c)], w[..Mul(n, c)])
    decreases c
  {
    if c == 0 {
      SumZeros(Lanes(v, w, n, 0));
      assert v[..0] == [] && w[..0] == [];
    } else {
      var b := Mul(n, c - 1);
      LanesSum(v, w, n, c - 1);
      ColumnDotNext(v, w, n, c - 1);
      SumAdded(Lanes(v, w, n, c - 1), Lanes(v, w, n, c), v, w, b);
      DotPrefixes(v, w, b, b + n);
    }
  }

  /** The inner loop of `dot_chunked`: lane `t` of `acc` gains `v[b + t] * w[b + t]`. */
  method AddChunk(acc: array<int>, v: seq<int>, w: seq<int>, b: nat)
    requires b + acc.Length <= |v| && b + acc.Length <= |w|
    modifies acc
    ensures forall t :: 0 <= t < acc.Length ==> acc[t] == old(acc[t]) + v[b + t] * w[b + t]
  {
    ghost var a0 := acc[..];
    for t := 0 to acc.Length
      invariant forall t' :: 0 <= t' < acc.Length ==> acc[t'] == if t' < t then a0[t'] + v[b + t'] * w[b + t'] else a0[t']
    {
      acc[t] := acc[t] + v[b + t] * w[b + t];
    }
  }

  /** Lanes that each gained one product of the chunk at `b` gained its dot product in total. */
  lemma {:induction false} SumAdded(a0: seq<int>, a1: seq<int>, v: seq<int>, w: seq<int>, b: nat)
    requires |a1| == |a0| && b + |a0| <= |v| && b + |a0| <= |w|
    requires forall t :: 0 <= t < |a0| ==> a1[t] == a0[t] + v[b + t] * w[b + t]
    ensures Sum(a1) == Sum(a0) + Dot(v[b..b + |a0|], w[b..b + |a0|])
    decreases |a0|
  {
    var n := |a0|;
    if n > 0 {
      SumAdded(a0[..n - 1], a1[..n - 1], v, w, b);
      DotSnoc(v, w, b, b + n);
      var p := v[b + n - 1] * w[b + n - 1];
      assert a1[n - 1] == a0[n - 1] + p;
      assert Sum(a1) == Sum(a1[..n - 1]) + a1[n - 1];
      assert Sum(a0) == Sum(a0[..n - 1]) + a0[n - 1];
    } else {
      assert v[b..b] == [] && w[b..b] == [];
    }
  }

  /**
   * `to_const_slice::<N>`: the first chunk of `v`.  Its unchecked chunking
   * demands a non-zero `N` that divides the length, and a first chunk to
   * exist.
   */
  function ToConstSlice(v: seq<int>, n: nat): (c: seq<int>)
    requires n > 0 && |v| >= n && |v| % n == 0
    ensures |c| == n && forall k :: 0 <= k < n ==> c[k] == v[k]
    ensures c + v[n..] == v
    ensures |v| == n ==> c == v
  {
    v[..n]
  }

  /**
   * The fill of `rand_vec::<N>` with its random buffer `randbuf` (of `N`
   * entries) as a parameter: every whole chunk of the `n` zeros becomes a copy
   * of the buffer, and the remainder a prefix of it.
   */
  method RandVecFill(n: nat, randbuf: seq<int>) returns (r: seq<int>)
    requires |randbuf| > 0
    ensures |r| == n && forall k :: 0 <= k < n ==> r[k] == randbuf[k % |randbuf|]
  {
    var size := |randbuf|;
    var buf := ToConstSlice(randbuf, size);
    var v := new int[n](_ => 0);
    DivMod(n, size);
    var chunks := n / size;
    for c := 0 to chunks
      invariant Mul(size, c) <= n
      invariant forall k :: 0 <= k < Mul(size, c) ==> v[k] == randbuf[k % size]
    {
      MulMonotone(size, c + 1, chunks);
      var b := Mul(size, c);
      forall t | 0 <= t < size {
        v[b + t] := buf[t];
      }
      forall k | b <= k < b + size
        ensures v[k] == randbuf[k % size]
      {
        DivModUnique(size, c, k - b);
      }
    }
    var b := Mul(size, chunks);
    for t := 0 to n - b
      invariant forall k :: 0 <= k < b + t ==> v[k] == randbuf[k % size]
    {
      v[b + t] := buf[t];
      DivModUnique(size, chunks, t);
    }
    r := v[..];
  }
}
