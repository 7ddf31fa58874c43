/**
 * Natural-number facts shared by the index arithmetic of the other modules.
 * `Mul` is multiplication written as repeated addition: proofs that only need
 * `Mul(a, b + 1) == Mul(a, b) + a` stay in linear arithmetic, and `MulIsTimes`
 * turns it back into `*` where one factor is a constant.
 */
module Arith {

  function Mul(a: nat, b: nat): nat
  {
    if b == 0 then 0 else Mul(a, b - 1) + a
  }

  lemma {:induction false} MulIsTimes(a: nat, b: nat)
    ensures Mul(a, b) == a * b
  {
    if b > 0 {
      MulIsTimes(a, b - 1);
    }
  }

  lemma {:induction false} MulMonotone(a: nat, b: nat, c: nat)
    requires b <= c
    ensures Mul(a, b) <= Mul(a, c)
    decreases c
  {
    if b < c {
      MulMonotone(a, b, c - 1);
    }
  }

  /** `Mul(a, c)` grows by at least `a` per step of `c` once `a > 0`. */
  lemma {:induction false} MulStrict(a: nat, b: nat, c: nat)
    requires b < c && a > 0
    ensures Mul(a, b) + a <= Mul(a, c)
    decreases c
  {
    if b + 1 < c {
      MulStrict(a, b, c - 1);
    }
  }

  /** Euclidean division by `n` in terms of `Mul`. */
  lemma {:induction false} DivMod(k: nat, n: nat)
    requires n > 0
    ensures k == Mul(n, k / n) + k % n && k % n < n
    ensures Mul(n, k / n) <= k
  {
    MulIsTimes(n, k / n);
  }

  /** The quotient and remainder of `Mul(n, c) + t` by `n`, for `t < n`. */
  lemma {:induction false} DivModUnique(n: nat, c: nat, t: nat)
    requires t < n
    ensures (Mul(n, c) + t) / n == c && (Mul(n, c) + t) % n == t
  {
    var k := Mul(n, c) + t;
    DivMod(k, n);
    var q := k / n;
    if q < c {
      MulStrict(n, q, c);
    } else if q > c {
      MulStrict(n, c, q);
    }
  }

  /** The position of entry `(i, j)` in row-major data of width `w`: `i * w + j`. */
  function Flat(w: nat, i: nat, j: nat): nat
  {
    Mul(w, i) + j
  }

  /** Different entries of a matrix of width `w` sit at different positions. */
  lemma {:induction false} FlatInjective(w: nat, i: nat, j: nat, i': nat, j': nat)
    requires j < w && j' < w && Flat(w, i, j) == Flat(w, i', j')
    ensures i == i' && j == j'
  {
    if i < i' {
      MulStrict(w, i, i');
    } else if i' < i {
      MulStrict(w, i', i);
    }
  }

  /** Every entry of an `h` by `w` matrix sits inside its `w * h` data. */
  lemma {:induction false} FlatInRange(w: nat, h: nat, i: nat, j: nat)
    requires i < h && j < w
    ensures Flat(w, i, j) < Mul(w, h)
  {
    MulStrict(w, i, h);
  }

  /** Every position of the data is the entry of one row and one column. */
  lemma {:induction false} FlatOnto(w: nat, h: nat, p: nat)
    requires p < Mul(w, h)
    ensures w > 0 && p / w < h && p % w < w && Flat(w, p / w, p % w) == p
  {
    if w == 0 {
      MulIsTimes(w, h);
    }
    DivMod(p, w);
    if p / w >= h {
      MulMonotone(w, h, p / w);
    }
  }

  /** Where the whole chunks of width `w` of `0 .. n` end: `w * floor(n / w)`. */
  function ChunkEnd(n: nat, w: nat): (b: nat)
    requires w > 0
    ensures b <= n < b + w && b == Mul(w, n / w)
  {
    DivMod(n, w);
    Mul(w, n / w)
  }
}
