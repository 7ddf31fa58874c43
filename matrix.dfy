/**
 * `linalg/matrix.rs`: a row-major matrix of `h` rows of `w` entries, its
 * element-wise add-assign, and three matrix products that overwrite a
 * destination matrix.  `PrimNum` is modelled as `int`.  A failed
 * `assert_eq!` (or a `chunks_exact(0)`) is the result `ok == false`, with the
 * state in which the panic happens.
 */
module LinalgMatrix {
  import opened Arith

  /** Two data of an `h` by `w` matrix that agree on every entry are equal. */
  lemma {:induction false} EntriesDetermine(d1: seq<int>, d2: seq<int>, w: nat, h: nat)
    requires |d1| == Mul(w, h) && |d2| == Mul(w, h)
    requires forall i: nat, j: nat :: i < h && j < w ==> Flat(w, i, j) < |d1| && d1[Flat(w, i, j)] == d2[Flat(w, i, j)]
    ensures d1 == d2
  {
    forall p | 0 <= p < |d1|
      ensures d1[p] == d2[p]
    {
      FlatOnto(w, h, p);
    }
  }

  /** Entry `p` of `s`, or 0 outside it. */
  function At(s: seq<int>, p: nat): int
  {
    if p < |s| then s[p] else 0
  }

  /** Which entries of the right-hand side a product pairs with row `i` of the left one. */
  datatype Kind = Plain | Transposed

  /** The entry of the right-hand side (of width `n`, or `l` when transposed) paired with `(i, k)` for column `j`. */
  function RhsAt(kind: Kind, b: seq<int>, l: nat, n: nat, k: nat, j: nat): int
  {
    match kind
    case Plain => At(b, Flat(n, k, j))
    case Transposed => At(b, Flat(l, j, k))
  }

  /**
   * The first `k` terms of entry `(i, j)` of the product of `a` (width `l`)
   * and `b`: `a[i, k'] * b[k', j]` for `mul_naive`, `a[i, k'] * b[j, k']` for
   * `mul_t_naive`, for `k' < k`, in increasing `k'`.
   */
  function Terms(kind: Kind, a: seq<int>, l: nat, b: seq<int>, n: nat, i: nat, j: nat, k: nat): int
  {
    if k == 0 then 0
    else Terms(kind, a, l, b, n, i, j, k - 1) + At(a, Flat(l, i, k - 1)) * RhsAt(kind, b, l, n, k - 1, j)
  }

  /** `d` holds the `h` by `n` product (all `l` terms of every entry). */
  ghost predicate IsProduct(kind: Kind, d: seq<int>, a: seq<int>, l: nat, b: seq<int>, n: nat, h: nat)
  {
    |d| == Mul(n, h) &&
    forall i: nat, j: nat {:trigger Flat(n, i, j)} :: i < h && j < n ==>
      Flat(n, i, j) < |d| && d[Flat(n, i, j)] == Terms(kind, a, l, b, n, i, j, l)
  }

  /** Two destinations that both hold the product are equal. */
  lemma {:induction false} ProductUnique(kind: Kind, d1: seq<int>, d2: seq<int>, a: seq<int>, l: nat, b: seq<int>, n: nat, h: nat)
    requires IsProduct(kind, d1, a, l, b, n, h) && IsProduct(kind, d2, a, l, b, n, h)
    ensures d1 == d2
  {
    EntriesDetermine(d1, d2, n, h);
  }

  /** The `w` by `h` transpose of `b`, the data of an `h` by `w` matrix (`h` rows of `w`). */
  function Transpose(b: seq<int>, w: nat, h: nat): (t: seq<int>)
    requires |b| == Mul(w, h)
    ensures |t| == Mul(h, w)
  {
    MulIsTimes(w, h);
    MulIsTimes(h, w);
    seq(Mul(h, w), p requires 0 <= p < Mul(h, w) =>
      FlatOnto(h, w, p);
      FlatInRange(w, h, p % h, p / h);
      b[Flat(w, p % h, p / h)])
  }

  lemma {:induction false} TransposeAt(b: seq<int>, w: nat, h: nat, k: nat, j: nat)
    requires |b| == Mul(w, h) && k < w && j < h
    ensures Flat(h, k, j) < Mul(h, w) && Flat(w, j, k) < |b|
    ensures Transpose(b, w, h)[Flat(h, k, j)] == b[Flat(w, j, k)]
  {
    FlatInRange(h, w, k, j);
    FlatInRange(w, h, j, k);
    DivModUnique(h, k, j);
  }

  /**
   * The transposed product of `a` and `b` is the plain product of `a` and the
   * transpose of `b`: `mul_t_naive(a, b)` computes `mul_naive(a, bᵀ)`.
   */
  lemma {:induction false} TransposedIsPlain(a: seq<int>, l: nat, b: seq<int>, n: nat, i: nat, j: nat, k: nat)
    requires |b| == Mul(l, n) && j < n && k <= l
    ensures Terms(Transposed, a, l, b, n, i, j, k) == Terms(Plain, a, l, Transpose(b, l, n), n, i, j, k)
    decreases k
  {
    if k > 0 {
      TransposedIsPlain(a, l, b, n, i, j, k - 1);
      TransposeAt(b, l, n, k - 1, j);
    }
  }

  /**
   * The state of `d` in the `i, j, k` loops of `mul_naive` and `mul_t_naive`:
   * entries before `(i, j)` (in row-major order) are complete, `(i, j)` has
   * its first `k` terms, the others are still zero.
   */
  ghost predicate NaiveProgress(kind: Kind, d: seq<int>, a: seq<int>, l: nat, b: seq<int>, n: nat, h: nat, i: nat, j: nat, k: nat)
  {
    |d| == Mul(n, h) &&
    forall i': nat, j': nat {:trigger Flat(n, i', j')} :: i' < h && j' < n ==>
      Flat(n, i', j') < |d| && d[Flat(n, i', j')] ==
        if i' < i || (i' == i && j' < j) then Terms(kind, a, l, b, n, i', j', l)
        else if i' == i && j' == j then Terms(kind, a, l, b, n, i, j, k)
        else 0
  }

  lemma {:induction false} NaiveStart(kind: Kind, a: seq<int>, l: nat, b: seq<int>, n: nat, h: nat)
    ensures NaiveProgress(kind, seq(Mul(n, h), _ => 0), a, l, b, n, h, 0, 0, 0)
  {
    forall i': nat, j': nat | i' < h && j' < n
      ensures Flat(n, i', j') < Mul(n, h)
    {
      FlatInRange(n, h, i', j');
    }
  }

  /** One more term of entry `(i, j)`. */
  lemma {:induction false} NaiveStep(kind: Kind, d: seq<int>, a: seq<int>, l: nat, b: seq<int>, n: nat, h: nat, i: nat, j: nat, k: nat)
    requires NaiveProgress(kind, d, a, l, b, n, h, i, j, k) && i < h && j < n
    ensures Flat(n, i, j) < |d|
    ensures NaiveProgress(kind,
      d[Flat(n, i, j) := d[Flat(n, i, j)] + At(a, Flat(l, i, k)) * RhsAt(kind, b, l, n, k, j)],
      a, l, b, n, h, i, j, k + 1)
  {
    FlatInRange(n, h, i, j);
    forall i': nat, j': nat | i' < h && j' < n && Flat(n, i', j') == Flat(n, i, j)
      ensures i' == i && j' == j
    {
      FlatInjective(n, i', j', i, j);
    }
  }

  /** Entry `(i, j)` is complete: the next entry, with no terms yet, is current. */
  lemma {:induction false} NaiveNext(kind: Kind, d: seq<int>, a: seq<int>, l: nat, b: seq<int>, n: nat, h: nat, i: nat, j: nat)
    requires NaiveProgress(kind, d, a, l, b, n, h, i, j, l)
    ensures NaiveProgress(kind, d, a, l, b, n, h, i, j + 1, 0)
  {
  }

  /** Row `i` is complete: the first entry of the next row is current. */
  lemma {:induction false} NaiveNextRow(kind: Kind, d: seq<int>, a: seq<int>, l: nat, b: seq<int>, n: nat, h: nat, i: nat)
    requires NaiveProgress(kind, d, a, l, b, n, h, i, n, 0)
    ensures NaiveProgress(kind, d, a, l, b, n, h, i + 1, 0, 0)
  {
  }

  lemma {:induction false} NaiveDone(kind: Kind, d: seq<int>, a: seq<int>, l: nat, b: seq<int>, n: nat, h: nat)
    requires NaiveProgress(kind, d, a, l, b, n, h, h, 0, 0)
    ensures IsProduct(kind, d, a, l, b, n, h)
  {
  }

  /**
   * The state of `d` in the loops of `mul_simd`: rows before `i` are
   * complete, the entries of row `i` before column `c` have `k + 1` terms and
   * the rest of the row `k` terms, later rows are still zero.
   */
  ghost predicate SimdProgress(d: seq<int>, a: seq<int>, l: nat, b: seq<int>, n: nat, h: nat, i: nat, k: nat, c: nat)
  {
    |d| == Mul(n, h) &&
    forall i': nat, j': nat {:trigger Flat(n, i', j')} :: i' < h && j' < n ==>
      Flat(n, i', j') < |d| && d[Flat(n, i', j')] ==
        if i' < i then Terms(Plain, a, l, b, n, i', j', l)
        else if i' == i then Terms(Plain, a, l, b, n, i, j', if j' < c then k + 1 else k)
        else 0
  }

  /** `d[p..p + len] += x * b[q..q + len]`: one `cs += axs * bs` on `len` lanes. */
  function Axpy(d: seq<int>, p: nat, len: nat, x: int, b: seq<int>, q: nat): (r: seq<int>)
    requires p + len <= |d| && q + len <= |b|
    ensures |r| == |d|
  {
    seq(|d|, r requires 0 <= r < |d| => if p <= r < p + len then d[r] + x * b[q + (r - p)] else d[r])
  }

  /** On one lane `Axpy` is the update of one entry. */
  lemma {:induction false} AxpyOne(d: seq<int>, p: nat, x: int, b: seq<int>, q: nat)
    requires p < |d| && q < |b|
    ensures d[p := d[p] + x * b[q]] == Axpy(d, p, 1, x, b, q)
  {
  }

  /** The lanes `c .. c + len` of row `i` gain their term `k`. */
  lemma {:induction false} SimdStep(d: seq<int>, a: seq<int>, l: nat, b: seq<int>, n: nat, h: nat, i: nat, k: nat, c: nat, len: nat)
    requires SimdProgress(d, a, l, b, n, h, i, k, c) && n > 0 && i < h && k < l && c + len <= n
    requires Flat(l, i, k) < |a| && Flat(n, k, c) + len <= |b|
    ensures Flat(n, i, c) + len <= |d|
    ensures SimdProgress(Axpy(d, Flat(n, i, c), len, a[Flat(l, i, k)], b, Flat(n, k, c)), a, l, b, n, h, i, k, c + len)
  {
    var p, q, x := Flat(n, i, c), Flat(n, k, c), a[Flat(l, i, k)];
    MulStrict(n, i, h);
    var r := Axpy(d, p, len, x, b, q);
    forall i': nat, j': nat | i' < h && j' < n
      ensures Flat(n, i', j') < |r|
      ensures r[Flat(n, i', j')] ==
        if i' < i then Terms(Plain, a, l, b, n, i', j', l)
        else if i' == i then Terms(Plain, a, l, b, n, i, j', if j' < c + len then k + 1 else k)
        else 0
    {
      var f := Flat(n, i', j');
      FlatInRange(n, h, i', j');
      if i' == i && c <= j' < c + len {
        assert f == p + (j' - c) && Flat(n, k, j') == q + (j' - c);
      } else if p <= f < p + len {
        FlatInjective(n, i', j', i, c + (f - p));
      }
    }
  }

  /** Row `i` has term `k` in every entry: the next term is current. */
  lemma {:induction false} SimdNextTerm(d: seq<int>, a: seq<int>, l: nat, b: seq<int>, n: nat, h: nat, i: nat, k: nat)
    requires SimdProgress(d, a, l, b, n, h, i, k, n)
    ensures SimdProgress(d, a, l, b, n, h, i, k + 1, 0)
  {
  }

  lemma {:induction false} SimdNextRow(d: seq<int>, a: seq<int>, l: nat, b: seq<int>, n: nat, h: nat, i: nat)
    requires SimdProgress(d, a, l, b, n, h, i, l, 0)
    ensures SimdProgress(d, a, l, b, n, h, i + 1, 0, 0)
  {
  }

  lemma {:induction false} SimdStart(a: seq<int>, l: nat, b: seq<int>, n: nat, h: nat)
    ensures SimdProgress(seq(Mul(n, h), _ => 0), a, l, b, n, h, 0, 0, 0)
  {
    forall i': nat, j': nat | i' < h && j' < n
      ensures Flat(n, i', j') < Mul(n, h)
    {
      FlatInRange(n, h, i', j');
    }
  }

  lemma {:induction false} SimdDone(d: seq<int>, a: seq<int>, l: nat, b: seq<int>, n: nat, h: nat)
    requires SimdProgress(d, a, l, b, n, h, h, 0, 0)
    ensures IsProduct(Plain, d, a, l, b, n, h)
  {
  }

  class Matrix {
    var data: seq<int>
    var w: nat
    var h: nat

    /** The data holds `h` rows of `w` entries. */
    predicate Valid()
      reads this
    {
      |data| == Mul(w, h)
    }

    /** `zeros(w, h)`: `w * h` zeros. */
    constructor Zeros(w: nat, h: nat)
      ensures this.w == w && this.h == h && Valid()
      ensures |data| == w * h && forall k :: 0 <= k < |data| ==> data[k] == 0
    {
      MulIsTimes(w, h);
      this.data := seq(Mul(w, h), _ => 0);
      this.w := w;
      this.h := h;
    }

    /** `m[(i, j)]`: the data at `i * w + j` (which Rust bounds-checks). */
    function Get(i: nat, j: nat): (x: int)
      reads this
      requires Flat(w, i, j) < |data|
    {
      data[Flat(w, i, j)]
    }

    /** Writing through `&mut m[(i, j)]`. */
    method Set(i: nat, j: nat, x: int)
      requires Flat(w, i, j) < |data|
      modifies this
      ensures w == old(w) && h == old(h) && data == old(data)[Flat(w, i, j) := x]
    {
      data := data[Flat(w, i, j) := x];
    }

    /**
     * `add_assign_naive`: with equal shapes, every entry gains the entry of
     * `rhs` at the same position (the zip stops at the shorter data).
     */
    method AddAssignNaive(rhs: Matrix) returns (ok: bool)
      requires rhs != this
      modifies this
      ensures ok <==> old(w) == rhs.w && old(h) == rhs.h
      ensures w == old(w) && h == old(h) && |data| == |old(data)|
      ensures !ok ==> data == old(data)
      ensures ok ==> forall k :: 0 <= k < |data| ==> data[k] == if k < |rhs.data| then old(data)[k] + rhs.data[k] else old(data)[k]
      ensures ok && old(Valid()) && rhs.Valid() ==>
        Valid() && (forall i: nat, j: nat :: i < h && j < w ==>
          Flat(w, i, j) < |data| && Get(i, j) == old(Get(i, j)) + rhs.Get(i, j))
    {
      ok := w == rhs.w && h == rhs.h;
      if !ok {
        return;
      }
      var b := rhs.data;
      var len := if |data| <= |b| then |data| else |b|;
      ghost var d0 := data;
      for k := 0 to len
        invariant |data| == |d0| && w == old(w) && h == old(h)
        invariant forall k' :: 0 <= k' < |data| ==> data[k'] == if k' < k then d0[k'] + b[k'] else d0[k']
      {
        data := data[k := data[k] + b[k]];
      }
      if Valid() && rhs.Valid() {
        forall i: nat, j: nat | i < h && j < w
          ensures Flat(w, i, j) < |data|
        {
          FlatInRange(w, h, i, j);
        }
      }
    }

    /** `+=`: `add_assign_naive`. */
    method AddAssign(rhs: Matrix) returns (ok: bool)
      requires rhs != this
      modifies this
      ensures ok <==> old(w) == rhs.w && old(h) == rhs.h
      ensures w == old(w) && h == old(h) && |data| == |old(data)|
      ensures !ok ==> data == old(data)
      ensures ok ==> forall k :: 0 <= k < |data| ==> data[k] == if k < |rhs.data| then old(data)[k] + rhs.data[k] else old(data)[k]
    {
      ok := AddAssignNaive(rhs);
    }

    /**
     * `mul_naive`: with `w == rhs.h`, `h == dest.h` and `dest.w == rhs.w`, dest
     * becomes the product; otherwise nothing changes (the assertion fails).
     */
    method MulNaive(rhs: Matrix, dest: Matrix) returns (ok: bool)
      requires dest != this && dest != rhs && Valid() && rhs.Valid() && dest.Valid()
      modifies dest
      ensures ok <==> w == rhs.h && h == old(dest.h) && old(dest.w) == rhs.w
      ensures dest.w == old(dest.w) && dest.h == old(dest.h) && dest.Valid()
      ensures !ok ==> dest.data == old(dest.data)
      ensures ok ==> IsProduct(Plain, dest.data, data, w, rhs.data, rhs.w, h)
    {
      ok := w == rhs.h && h == dest.h && dest.w == rhs.w;
      if !ok {
        return;
      }
      var d := NaiveLoops(Plain, data, w, rhs.data, rhs.w, dest.h);
      dest.data := d;
    }

    /**
     * `mul_t_naive`: with `w == rhs.w`, `h == dest.h` and `dest.w == rhs.h`,
     * dest becomes the product of this matrix and the transpose of `rhs`.
     */
    method MulTNaive(rhs: Matrix, dest: Matrix) returns (ok: bool)
      requires dest != this && dest != rhs && Valid() && rhs.Valid() && dest.Valid()
      modifies dest
      ensures ok <==> w == rhs.w && h == old(dest.h) && old(dest.w) == rhs.h
      ensures dest.w == old(dest.w) && dest.h == old(dest.h) && dest.Valid()
      ensures !ok ==> dest.data == old(dest.data)
      ensures ok ==> IsProduct(Transposed, dest.data, data, w, rhs.data, rhs.h, h)
      ensures ok ==> IsProduct(Plain, dest.data, data, w, Transpose(rhs.data, rhs.w, rhs.h), rhs.h, h)
    {
      ok := w == rhs.w && h == dest.h && dest.w == rhs.h;
      if !ok {
        return;
      }
      var d := NaiveLoops(Transposed, data, w, rhs.data, rhs.h, dest.h);
      dest.data := d;
      forall i: nat, j: nat | i < h && j < rhs.h
        ensures Terms(Transposed, data, w, rhs.data, rhs.h, i, j, w) == Terms(Plain, data, w, Transpose(rhs.data, rhs.w, rhs.h), rhs.h, i, j, w)
      {
        TransposedIsPlain(data, w, rhs.data, rhs.h, i, j, w);
      }
    }

    /**
     * `mul_simd::<N>` (`lanes` is `N`): the same check as `mul_naive`; after
     * zeroing dest it cuts the data into rows, which panics when `w` or
     * `rhs.w` is 0.  Otherwise every row of dest gains, for each `k` in turn,
     * `self[i, k]` times row `k` of `rhs`, chunk by chunk of `lanes` entries
     * and then the tail; dest becomes the product.
     */
    method MulSimd(rhs: Matrix, dest: Matrix, lanes: nat) returns (ok: bool)
      requires lanes > 0
      requires dest != this && dest != rhs && Valid() && rhs.Valid() && dest.Valid()
      modifies dest
      ensures ok <==> w == rhs.h && h == old(dest.h) && old(dest.w) == rhs.w && w > 0 && rhs.w > 0
      ensures dest.w == old(dest.w) && dest.h == old(dest.h) && dest.Valid()
      ensures !(w == rhs.h && h == old(dest.h) && old(dest.w) == rhs.w) ==> dest.data == old(dest.data)
      ensures !ok && w == rhs.h && h == old(dest.h) && old(dest.w) == rhs.w ==>
        forall k :: 0 <= k < |dest.data| ==> dest.data[k] == 0
      ensures ok ==> IsProduct(Plain, dest.data, data, w, rhs.data, rhs.w, h)
    {
      if !(w == rhs.h && h == dest.h && dest.w == rhs.w) {
        return false;
      }
      var n := rhs.w;
      var l := w;
      dest.data := seq(|dest.data|, _ => 0);
      if l == 0 || n == 0 {
        return false;
      }
      ok := true;
      var d := SimdLoops(data, l, rhs.data, n, h, lanes);
      dest.data := d;
    }
  }

  /**
   * The `i, j, k` loops of `mul_naive` (and, with `Transposed`, of
   * `mul_t_naive`) on zeroed `h` by `n` data, `a` being `h` by `l`.
   */
  method NaiveLoops(kind: Kind, a: seq<int>, l: nat, b: seq<int>, n: nat, h: nat) returns (d: seq<int>)
    requires |a| == Mul(l, h) && (kind == Plain ==> |b| == Mul(n, l)) && (kind == Transposed ==> |b| == Mul(l, n))
    ensures IsProduct(kind, d, a, l, b, n, h)
  {
    d := seq(Mul(n, h), _ => 0);
    NaiveStart(kind, a, l, b, n, h);
    for i := 0 to h
      invariant NaiveProgress(kind, d, a, l, b, n, h, i, 0, 0)
    {
      for j := 0 to n
        invariant NaiveProgress(kind, d, a, l, b, n, h, i, j, 0)
      {
        for k := 0 to l
          invariant NaiveProgress(kind, d, a, l, b, n, h, i, j, k)
        {
          FlatInRange(l, h, i, k);
          var p := Flat(n, i, j);
          var y: int;
          if kind == Plain {
            FlatInRange(n, l, k, j);
            y := b[Flat(n, k, j)];
          } else {
            FlatInRange(l, n, j, k);
            y := b[Flat(l, j, k)];
          }
          NaiveStep(kind, d, a, l, b, n, h, i, j, k);
          d := d[p := d[p] + a[Flat(l, i, k)] * y];
        }
        NaiveNext(kind, d, a, l, b, n, h, i, j);
      }
      NaiveNextRow(kind, d, a, l, b, n, h, i);
    }
    NaiveDone(kind, d, a, l, b, n, h);
  }

  /** The row and `k` loops of `mul_simd` on zeroed `h` by `n` data. */
  method SimdLoops(a: seq<int>, l: nat, b: seq<int>, n: nat, h: nat, lanes: nat) returns (d: seq<int>)
    requires lanes > 0 && l > 0 && n > 0 && |a| == Mul(l, h) && |b| == Mul(n, l)
    ensures IsProduct(Plain, d, a, l, b, n, h)
  {
    d := seq(Mul(n, h), _ => 0);
    SimdStart(a, l, b, n, h);
    for i := 0 to h
      invariant SimdProgress(d, a, l, b, n, h, i, 0, 0)
    {
      for k := 0 to l
        invariant SimdProgress(d, a, l, b, n, h, i, k, 0)
      {
        FlatInRange(l, h, i, k);
        d := SimdRowTerm(d, a, l, b, n, h, i, k, lanes);
        SimdNextTerm(d, a, l, b, n, h, i, k);
      }
      SimdNextRow(d, a, l, b, n, h, i);
    }
    SimdDone(d, a, l, b, n, h);
  }

  /**
   * One `ax, b_row` step of `mul_simd`: row `i` of `d` gains `a[i, k]` times
   * row `k` of `b`, `lanes` entries at a time and then entry by entry on the tail.
   */
  method SimdRowTerm(d0: seq<int>, a: seq<int>, l: nat, b: seq<int>, n: nat, h: nat, i: nat, k: nat, lanes: nat)
      returns (d: seq<int>)
    requires lanes > 0 && n > 0 && |b| == Mul(n, l) && i < h && k < l && Flat(l, i, k) < |a|
    requires SimdProgress(d0, a, l, b, n, h, i, k, 0)
    ensures SimdProgress(d, a, l, b, n, h, i, k, n)
  {
    var x := a[Flat(l, i, k)];
    DivMod(n, lanes);
    var chunks := n / lanes;
    d := SimdChunks(d0, a, l, b, n, h, i, k, lanes, chunks);
    for t := Mul(lanes, chunks) to n
      invariant SimdProgress(d, a, l, b, n, h, i, k, t)
    {
      FlatInRange(n, l, k, t);
      SimdStep(d, a, l, b, n, h, i, k, t, 1);
      var p := Flat(n, i, t);
      AxpyOne(d, p, x, b, Flat(n, k, t));
      d := d[p := d[p] + x * b[Flat(n, k, t)]];
    }
  }

  /** The chunk loop of one `ax, b_row` step: `chunks` chunks of `lanes` entries. */
  method SimdChunks(d0: seq<int>, a: seq<int>, l: nat, b: seq<int>, n: nat, h: nat, i: nat, k: nat, lanes: nat, chunks: nat)
      returns (d: seq<int>)
    requires lanes > 0 && n > 0 && Mul(lanes, chunks) <= n && |b| == Mul(n, l) && i < h && k < l && Flat(l, i, k) < |a|
    requires SimdProgress(d0, a, l, b, n, h, i, k, 0)
    ensures SimdProgress(d, a, l, b, n, h, i, k, Mul(lanes, chunks))
  {
    d := d0;
    var x := a[Flat(l, i, k)];
    for c := 0 to chunks
      invariant SimdProgress(d, a, l, b, n, h, i, k, Mul(lanes, c))
    {
      MulMonotone(lanes, c + 1, chunks);
      var j := Mul(lanes, c);
      FlatInRange(n, l, k, j + lanes - 1);
      SimdStep(d, a, l, b, n, h, i, k, j, lanes);
      d := Axpy(d, Flat(n, i, j), lanes, x, b, Flat(n, k, j));
    }
  }
}
