/**
 * `colatz.rs`: rounds of the Collatz-style step over a slice of integers,
 * with a running elementwise maximum.  Slices are modelled as index ranges
 * `lo .. hi` of an array; `i64` is modelled as `int`.
 */
module Colatz {

  /** Rust's `/` on integers rounds toward zero. */
  function TruncDiv(a: int, b: int): (q: int)
    requires b != 0
    ensures b > 0 ==> (a >= 0 ==> 0 <= a - q * b < b) && (a < 0 ==> -b < a - q * b <= 0)
    ensures b < 0 ==> (a >= 0 ==> 0 <= a - q * b < -b) && (a < 0 ==> b < a - q * b <= 0)
  {
    if a >= 0 then a / b else -((-a) / b)
  }

  /**
   * Rust's `%` on integers: `a == (a / b) * b + a % b`, the remainder takes
   * the sign of `a` and is smaller than `|b|`, and it is 0 exactly when `b`
   * divides `a`.
   */
  function TruncRem(a: int, b: int): (r: int)
    requires b != 0
    ensures a == TruncDiv(a, b) * b + r
    ensures a >= 0 ==> 0 <= r && (b > 0 ==> r < b) && (b < 0 ==> r < -b)
    ensures a < 0 ==> r <= 0 && (b > 0 ==> -b < r) && (b < 0 ==> b < r)
    ensures r == 0 <==> a % b == 0
  {
    RemZero(a, b);
    a - TruncDiv(a, b) * b
  }

  /** A non-zero multiple of `b` is at least `|b|` away from 0. */
  lemma {:induction false} MultipleFar(b: int, d: int)
    requires b != 0 && d != 0
    ensures b * d >= (if b > 0 then b else -b) || b * d <= -(if b > 0 then b else -b)
  {
    if d > 0 {
      assert b * d == b + b * (d - 1);
      if b > 0 { assert b * (d - 1) >= 0; } else { assert b * (d - 1) <= 0; }
    } else {
      assert b * d == -b + b * (d + 1);
      if b > 0 { assert b * (d + 1) <= 0; } else { assert b * (d + 1) >= 0; }
    }
  }

  /** Dafny's Euclidean `%` is the unique remainder in `0 .. |b|`. */
  lemma {:induction false} ModUnique(x: int, b: int, q: int, t: int)
    requires b != 0 && x == b * q + t && 0 <= t < (if b > 0 then b else -b)
    ensures x % b == t
  {
    var q', t' := x / b, x % b;
    assert x == b * q' + t';
    if q != q' {
      assert b * (q - q') == t' - t;
      MultipleFar(b, q - q');
    }
  }

  /** The truncated remainder is 0 exactly when the Euclidean one is. */
  lemma {:induction false} RemZero(a: int, b: int)
    requires b != 0
    ensures a - TruncDiv(a, b) * b == 0 <==> a % b == 0
  {
    var bb := if b > 0 then b else -b;
    if a >= 0 {
      assert a == b * (a / b) + a % b;
    } else {
      var m, t := (-a) / b, (-a) % b;
      assert -a == b * m + t;
      assert a - TruncDiv(a, b) * b == -t;
      if t == 0 {
        ModUnique(a, b, -m, 0);
      } else if b > 0 {
        ModUnique(a, b, -m - 1, bb - t);
      } else {
        ModUnique(a, b, -m + 1, bb - t);
      }
    }
  }

  /** The update of `do_colatz`: `x / 2` for even `x`, `(3x + 1) / 2` otherwise. */
  function Step(x: int): int
  {
    TruncDiv(if TruncRem(x, 2) == 0 then x else 3 * x + 1, 2)
  }

  /** The division in `Step` is always exact, so rounding never matters. */
  lemma {:induction false} StepExact(x: int)
    ensures x % 2 == 0 ==> 2 * Step(x) == x
    ensures x % 2 != 0 ==> 2 * Step(x) == 3 * x + 1
    ensures x > 0 ==> Step(x) > 0
  {
  }

  function Max(a: int, b: int): (m: int)
    ensures m >= a && m >= b && (m == a || m == b)
  {
    if a >= b then a else b
  }

  /** `x` after `n` steps. */
  function StepN(x: int, n: nat): int
    decreases n
  {
    if n == 0 then x else StepN(Step(x), n - 1)
  }

  /** The running maximum `m` after `n` rounds started from `x`. */
  function MaxN(x: int, m: int, n: nat): int
    decreases n
  {
    if n == 0 then m else MaxN(Step(x), Max(Step(x), m), n - 1)
  }

  lemma {:induction false} StepNNext(x: int, n: nat)
    ensures StepN(x, n + 1) == Step(StepN(x, n))
    decreases n
  {
    if n > 0 {
      StepNNext(Step(x), n - 1);
    }
  }

  /** One more round takes the maximum with the new value: the maximum never decreases. */
  lemma {:induction false} MaxNNext(x: int, m: int, n: nat)
    ensures MaxN(x, m, n + 1) == Max(StepN(x, n + 1), MaxN(x, m, n))
    ensures MaxN(x, m, n + 1) >= MaxN(x, m, n)
    decreases n
  {
    if n > 0 {
      MaxNNext(Step(x), Max(Step(x), m), n - 1);
    }
  }

  /**
   * The running maximum is the largest of the start value and the values
   * after rounds `1 .. n`.
   */
  lemma {:induction false} MaxNIsMax(x: int, m: int, n: nat)
    ensures MaxN(x, m, n) >= m
    ensures forall r :: 1 <= r <= n ==> MaxN(x, m, n) >= StepN(x, r)
    ensures MaxN(x, m, n) == m || exists r :: 1 <= r <= n && MaxN(x, m, n) == StepN(x, r)
    decreases n
  {
    if n > 0 {
      MaxNIsMax(x, m, n - 1);
      MaxNNext(x, m, n - 1);
    }
  }

  /** `do_colatz` on the slice `xs[lo..hi]`. */
  method DoColatz(xs: array<int>, lo: nat, hi: nat)
    requires lo <= hi <= xs.Length
    modifies xs
    ensures forall k :: lo <= k < hi ==> xs[k] == Step(old(xs[k]))
    ensures forall k :: 0 <= k < xs.Length && !(lo <= k < hi) ==> xs[k] == old(xs[k])
  {
    for p := lo to hi
      invariant forall k :: lo <= k < p ==> xs[k] == Step(old(xs[k]))
      invariant forall k :: 0 <= k < xs.Length && !(lo <= k < p) ==> xs[k] == old(xs[k])
    {
      xs[p] := Step(xs[p]);
    }
  }

  /**
   * `update_max` of `xs[ilo..ihi]` into `maxs[mlo..mhi]`: the zip stops at the
   * shorter slice.
   */
  method UpdateMax(xs: array<int>, ilo: nat, ihi: nat, maxs: array<int>, mlo: nat, mhi: nat)
    requires ilo <= ihi <= xs.Length && mlo <= mhi <= maxs.Length && xs != maxs
    modifies maxs
    ensures forall k :: mlo <= k < mhi && k - mlo < ihi - ilo ==> maxs[k] == Max(xs[ilo + (k - mlo)], old(maxs[k]))
    ensures forall k :: 0 <= k < maxs.Length && !(mlo <= k < mhi && k - mlo < ihi - ilo) ==> maxs[k] == old(maxs[k])
  {
    var len := if ihi - ilo < mhi - mlo then ihi - ilo else mhi - mlo;
    for p := 0 to len
      invariant forall k :: mlo <= k < mlo + p ==> maxs[k] == Max(xs[ilo + (k - mlo)], old(maxs[k]))
      invariant forall k :: 0 <= k < maxs.Length && !(mlo <= k < mlo + p) ==> maxs[k] == old(maxs[k])
    {
      maxs[mlo + p] := Max(xs[ilo + p], maxs[mlo + p]);
    }
  }

  /** `get_amt_done`: how many entries have reached 4 or less. */
  function AmtDone(xs: seq<int>): (c: nat)
    ensures c <= |xs|
    ensures c == |xs| <==> forall k :: 0 <= k < |xs| ==> xs[k] <= 4
    ensures c == 0 <==> forall k :: 0 <= k < |xs| ==> xs[k] > 4
  {
    if |xs| == 0 then 0
    else (if xs[0] <= 4 then 1 else 0) + AmtDone(xs[1..])
  }

  /** `do_n_colatz`: `n` rounds of `do_colatz` and `update_max` over the whole slices. */
  method DoNColatz(xs: array<int>, maxs: array<int>, n: nat)
    requires xs != maxs
    modifies xs, maxs
    ensures forall k :: 0 <= k < xs.Length ==> xs[k] == StepN(old(xs[k]), n)
    ensures forall k :: 0 <= k < maxs.Length ==>
      maxs[k] == if k < xs.Length then MaxN(old(xs[k]), old(maxs[k]), n) else old(maxs[k])
  {
    Rounds(xs, 0, xs.Length, maxs, 0, maxs.Length, n);
  }

  /**
   * The loop of `do_n_colatz`: `n` rounds of `do_colatz` on `xs[ilo..ihi]` and
   * `update_max` of it into `maxs[mlo..mhi]`.
   */
  method Rounds(xs: array<int>, ilo: nat, ihi: nat, maxs: array<int>, mlo: nat, mhi: nat, n: nat)
    requires ilo <= ihi <= xs.Length && mlo <= mhi <= maxs.Length && xs != maxs
    modifies xs, maxs
    ensures forall k :: 0 <= k < xs.Length ==> xs[k] == if ilo <= k < ihi then StepN(old(xs[k]), n) else old(xs[k])
    ensures forall k :: 0 <= k < maxs.Length ==>
      maxs[k] == if mlo <= k < mhi && k - mlo < ihi - ilo then MaxN(old(xs[ilo + (k - mlo)]), old(maxs[k]), n) else old(maxs[k])
  {
    ghost var xs0, maxs0 := xs[..], maxs[..];
    for r := 0 to n
      invariant forall k :: 0 <= k < xs.Length ==> xs[k] == if ilo <= k < ihi then StepN(xs0[k], r) else xs0[k]
      invariant forall k :: 0 <= k < maxs.Length ==>
        maxs[k] == if mlo <= k < mhi && k - mlo < ihi - ilo then MaxN(xs0[ilo + (k - mlo)], maxs0[k], r) else maxs0[k]
    {
      Round(xs0, ilo, ihi, maxs0, mlo, mhi, r);
      DoColatz(xs, ilo, ihi);
      UpdateMax(xs, ilo, ihi, maxs, mlo, mhi);
    }
  }

  /** `do_colatz_const::<N>` on the chunk `xs[lo..lo + n]`. */
  method DoColatzConst(xs: array<int>, lo: nat, n: nat)
    requires lo + n <= xs.Length
    modifies xs
    ensures forall k :: lo <= k < lo + n ==> xs[k] == Step(old(xs[k]))
    ensures forall k :: 0 <= k < xs.Length && !(lo <= k < lo + n) ==> xs[k] == old(xs[k])
  {
    for p := 0 to n
      invariant forall k :: lo <= k < lo + p ==> xs[k] == Step(old(xs[k]))
      invariant forall k :: 0 <= k < xs.Length && !(lo <= k < lo + p) ==> xs[k] == old(xs[k])
    {
      xs[lo + p] := Step(xs[lo + p]);
    }
  }

  /** `update_max_const::<N>` of the chunk `xs[lo..lo + n]` into `maxs[lo..lo + n]`. */
  method UpdateMaxConst(xs: array<int>, maxs: array<int>, lo: nat, n: nat)
    requires lo + n <= xs.Length && lo + n <= maxs.Length && xs != maxs
    modifies maxs
    ensures forall k :: lo <= k < lo + n ==> maxs[k] == Max(xs[k], old(maxs[k]))
    ensures forall k :: 0 <= k < maxs.Length && !(lo <= k < lo + n) ==> maxs[k] == old(maxs[k])
  {
    for p := 0 to n
      invariant forall k :: lo <= k < lo + p ==> maxs[k] == Max(xs[k], old(maxs[k]))
      invariant forall k :: 0 <= k < maxs.Length && !(lo <= k < lo + p) ==> maxs[k] == old(maxs[k])
    {
      maxs[lo + p] := Max(xs[lo + p], maxs[lo + p]);
    }
  }

  const ChunkSize: nat := 1024

  /**
   * `do_n_colatz_chunked`: `n` rounds on every pair of whole chunks (as many as
   * the shorter slice has), then `n` rounds on the two remainders.  For slices
   * of one length this is `do_n_colatz`; for slices of different lengths the
   * whole chunks past the shorter slice's last one are not touched, and the
   * remainders are paired with each other.
   */
  method DoNColatzChunked(xs: array<int>, maxs: array<int>, n: nat)
    requires xs != maxs
    modifies xs, maxs
    ensures var b := ChunkSize * Min(xs.Length / ChunkSize, maxs.Length / ChunkSize);
            var ir := ChunkSize * (xs.Length / ChunkSize);
            var mr := ChunkSize * (maxs.Length / ChunkSize);
            (forall k :: 0 <= k < b ==> xs[k] == StepN(old(xs[k]), n) && maxs[k] == MaxN(old(xs[k]), old(maxs[k]), n)) &&
            (forall k :: b <= k < xs.Length ==> xs[k] == if k < ir then old(xs[k]) else StepN(old(xs[k]), n)) &&
            (forall k :: b <= k < maxs.Length ==>
               maxs[k] == if mr <= k && k - mr < xs.Length - ir then MaxN(old(xs[ir + (k - mr)]), old(maxs[k]), n) else old(maxs[k]))
    ensures xs.Length == maxs.Length ==>
      (forall k :: 0 <= k < xs.Length ==> xs[k] == StepN(old(xs[k]), n)) &&
      (forall k :: 0 <= k < maxs.Length ==> maxs[k] == MaxN(old(xs[k]), old(maxs[k]), n))
  {
    var chunks := Min(xs.Length / ChunkSize, maxs.Length / ChunkSize);
    ghost var xs0, maxs0 := xs[..], maxs[..];
    AllChunkRounds(xs, maxs, chunks, n);
    ghost var xs1, maxs1 := xs[..], maxs[..];
    var ir, mr := ChunkSize * (xs.Length / ChunkSize), ChunkSize * (maxs.Length / ChunkSize);
    ghost var b := ChunkSize * chunks;
    assert b <= ir && b <= mr;
    Rounds(xs, ir, xs.Length, maxs, mr, maxs.Length, n);
    forall k | 0 <= k < b
      ensures xs[k] == StepN(xs0[k], n) && maxs[k] == MaxN(xs0[k], maxs0[k], n)
    {
      assert xs[k] == xs1[k] && maxs[k] == maxs1[k];
    }
    forall k | b <= k < maxs.Length
      ensures maxs[k] == if mr <= k && k - mr < xs.Length - ir then MaxN(xs0[ir + (k - mr)], maxs0[k], n) else maxs0[k]
    {
      assert maxs1[k] == maxs0[k];
      if mr <= k && k - mr < xs.Length - ir {
        assert xs1[ir + (k - mr)] == xs0[ir + (k - mr)];
      }
    }
  }

  /** The outer loop of `do_n_colatz_chunked`: `n` rounds on each of the first `chunks` chunk pairs. */
  method AllChunkRounds(xs: array<int>, maxs: array<int>, chunks: nat, n: nat)
    requires ChunkSize * chunks <= xs.Length && ChunkSize * chunks <= maxs.Length && xs != maxs
    modifies xs, maxs
    ensures forall k :: 0 <= k < ChunkSize * chunks ==>
      xs[k] == StepN(old(xs[k]), n) && maxs[k] == MaxN(old(xs[k]), old(maxs[k]), n)
    ensures forall k :: ChunkSize * chunks <= k < xs.Length ==> xs[k] == old(xs[k])
    ensures forall k :: ChunkSize * chunks <= k < maxs.Length ==> maxs[k] == old(maxs[k])
  {
    for c := 0 to chunks
      invariant forall k :: 0 <= k < ChunkSize * c ==>
        xs[k] == StepN(old(xs[k]), n) && maxs[k] == MaxN(old(xs[k]), old(maxs[k]), n)
      invariant forall k :: ChunkSize * c <= k < xs.Length ==> xs[k] == old(xs[k])
      invariant forall k :: ChunkSize * c <= k < maxs.Length ==> maxs[k] == old(maxs[k])
    {
      ChunkRounds(xs, maxs, ChunkSize * c, n);
    }
  }

  /** The inner loop of `do_n_colatz_chunked`: `n` rounds on the chunks at `lo`. */
  method ChunkRounds(xs: array<int>, maxs: array<int>, lo: nat, n: nat)
    requires lo + ChunkSize <= xs.Length && lo + ChunkSize <= maxs.Length && xs != maxs
    modifies xs, maxs
    ensures forall k :: 0 <= k < xs.Length ==> xs[k] == if lo <= k < lo + ChunkSize then StepN(old(xs[k]), n) else old(xs[k])
    ensures forall k :: 0 <= k < maxs.Length ==>
      maxs[k] == if lo <= k < lo + ChunkSize then MaxN(old(xs[k]), old(maxs[k]), n) else old(maxs[k])
  {
    ghost var xs0, maxs0 := xs[..], maxs[..];
    for r := 0 to n
      invariant forall k :: 0 <= k < xs.Length ==> xs[k] == if lo <= k < lo + ChunkSize then StepN(xs0[k], r) else xs0[k]
      invariant forall k :: 0 <= k < maxs.Length ==>
        maxs[k] == if lo <= k < lo + ChunkSize then MaxN(xs0[k], maxs0[k], r) else maxs0[k]
    {
      Round(xs0, lo, lo + ChunkSize, maxs0, lo, lo + ChunkSize, r);
      DoColatzConst(xs, lo, ChunkSize);
      UpdateMaxConst(xs, maxs, lo, ChunkSize);
    }
  }

  function Min(a: int, b: int): (m: int)
    ensures m <= a && m <= b && (m == a || m == b)
  {
    if a <= b then a else b
  }

  /** The facts one more round needs, for the entries of `xs[ilo..ihi]` and `maxs[mlo..mhi]`. */
  lemma {:induction false} Round(xs: seq<int>, ilo: nat, ihi: nat, maxs: seq<int>, mlo: nat, mhi: nat, r: nat)
    requires ilo <= ihi <= |xs| && mlo <= mhi <= |maxs|
    ensures forall k :: ilo <= k < ihi ==> StepN(xs[k], r + 1) == Step(StepN(xs[k], r))
    ensures forall k :: mlo <= k < mhi && k - mlo < ihi - ilo ==>
      MaxN(xs[ilo + (k - mlo)], maxs[k], r + 1) ==
      Max(StepN(xs[ilo + (k - mlo)], r + 1), MaxN(xs[ilo + (k - mlo)], maxs[k], r))
  {
    forall k | ilo <= k < ihi
      ensures StepN(xs[k], r + 1) == Step(StepN(xs[k], r))
    {
      StepNNext(xs[k], r);
    }
    forall k | mlo <= k < mhi && k - mlo < ihi - ilo
      ensures MaxN(xs[ilo + (k - mlo)], maxs[k], r + 1) ==
        Max(StepN(xs[ilo + (k - mlo)], r + 1), MaxN(xs[ilo + (k - mlo)], maxs[k], r))
    {
      MaxNNext(xs[ilo + (k - mlo)], maxs[k], r);
    }
  }
}
