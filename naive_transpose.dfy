/**
 * `naive::trans`: the reference byte transpose.  The input is `N` rows of
 * `M` bytes (`[[u8; M]; N]`), the output `M` rows of `N` bytes, and byte
 * `j` of input row `i` becomes byte `i` of output row `j`.
 */
module NaiveTranspose {
  import opened SimdU8

  /** `a` holds `rows` rows of `cols` bytes each. */
  predicate IsGrid(a: seq<seq<Byte>>, rows: nat, cols: nat)
  {
    |a| == rows && forall i :: 0 <= i < rows ==> |a[i]| == cols
  }

  /** Every row of a grid has the grid's width. */
  lemma {:induction false} GridUniform(a: seq<seq<Byte>>, rows: nat, cols: nat)
    requires IsGrid(a, rows, cols)
    ensures Uniform(a, cols)
  {
  }

  /** Two grids of the same shape with the same bytes are equal. */
  lemma {:induction false} GridEqual(g: seq<seq<Byte>>, h: seq<seq<Byte>>, rows: nat, cols: nat)
    requires IsGrid(g, rows, cols) && IsGrid(h, rows, cols)
    requires forall i, j :: 0 <= i < rows && 0 <= j < cols ==> g[i][j] == h[i][j]
    ensures g == h
  {
    forall i | 0 <= i < rows
      ensures g[i] == h[i]
    {
      assert forall j :: 0 <= j < cols ==> g[i][j] == h[i][j];
    }
  }

  /** The transpose of a grid of `rows` rows of `cols` bytes. */
  function Transposed(a: seq<seq<Byte>>, rows: nat, cols: nat): (t: seq<seq<Byte>>)
    requires IsGrid(a, rows, cols)
    ensures IsGrid(t, cols, rows)
    ensures forall j, i :: 0 <= j < cols && 0 <= i < rows ==> t[j][i] == a[i][j]
  {
    seq(cols, j requires 0 <= j < cols => seq(rows, i requires 0 <= i < rows => a[i][j]))
  }

  /** Transposing twice gives the grid back. */
  lemma {:induction false} TransposedTwice(a: seq<seq<Byte>>, rows: nat, cols: nat)
    requires IsGrid(a, rows, cols)
    ensures Transposed(Transposed(a, rows, cols), cols, rows) == a
  {
    GridEqual(Transposed(Transposed(a, rows, cols), cols, rows), a, rows, cols);
  }

  /** The rows of a `[[u8; cols]; rows]` held in `b`. */
  function Contents(b: array2<Byte>): (g: seq<seq<Byte>>)
    reads b
    ensures IsGrid(g, b.Length0, b.Length1)
    ensures forall j, i :: 0 <= j < b.Length0 && 0 <= i < b.Length1 ==> g[j][i] == b[j, i]
  {
    seq(b.Length0, j requires 0 <= j < b.Length0 reads b =>
      seq(b.Length1, i requires 0 <= i < b.Length1 reads b => b[j, i]))
  }

  /** Writes the transpose of `a` into `b`, one byte at a time. */
  method Trans(a: seq<seq<Byte>>, b: array2<Byte>)
    requires IsGrid(a, b.Length1, b.Length0)
    modifies b
    ensures forall j, i :: 0 <= j < b.Length0 && 0 <= i < b.Length1 ==> b[j, i] == a[i][j]
    ensures Contents(b) == Transposed(a, b.Length1, b.Length0)
  {
    var m, n := b.Length0, b.Length1;
    for i := 0 to n
      invariant forall j, k :: 0 <= j < m && 0 <= k < i ==> b[j, k] == a[k][j]
    {
      for j := 0 to m
        invariant forall j', k :: 0 <= j' < m && 0 <= k < i ==> b[j', k] == a[k][j']
        invariant forall j' :: 0 <= j' < j ==> b[j', i] == a[i][j']
      {
        b[j, i] := a[i][j];
      }
    }
    GridEqual(Contents(b), Transposed(a, n, m), m, n);
  }
}
