/** Rectangular two-dimensional sequences, the `Vec<Vec<T>>` storage shared
    by both matrix types. */
module Grids {

  /** `d` has exactly `rows` rows, each of exactly `cols` entries. */
  predicate Shaped<T>(d: seq<seq<T>>, rows: nat, cols: nat)
  {
    |d| == rows && forall i :: 0 <= i < rows ==> |d[i]| == cols
  }

  /** `vec![vec![x; cols]; rows]`. */
  function Filled<T>(rows: nat, cols: nat, x: T): (d: seq<seq<T>>)
    ensures Shaped(d, rows, cols)
    ensures forall i, j :: 0 <= i < rows && 0 <= j < cols ==> d[i][j] == x
  {
    seq(rows, _ => seq(cols, _ => x))
  }

  /** The `cols` x `rows` grid whose entry (j, i) is entry (i, j) of `d`. */
  function Transposed<T>(d: seq<seq<T>>, rows: nat, cols: nat): (t: seq<seq<T>>)
    requires Shaped(d, rows, cols)
    ensures Shaped(t, cols, rows)
    ensures forall i, j :: 0 <= i < rows && 0 <= j < cols ==> t[j][i] == d[i][j]
  {
    seq(cols, j requires 0 <= j < cols => seq(rows, i requires 0 <= i < rows => d[i][j]))
  }

  /** Two grids of one shape that agree at every entry are equal. */
  lemma {:induction false} ShapedExtensional<T>(d: seq<seq<T>>, e: seq<seq<T>>, rows: nat, cols: nat)
    requires Shaped(d, rows, cols) && Shaped(e, rows, cols)
    requires forall i, j :: 0 <= i < rows && 0 <= j < cols ==> d[i][j] == e[i][j]
    ensures d == e
  {
    forall i | 0 <= i < rows
      ensures d[i] == e[i]
    {
      assert forall j :: 0 <= j < cols ==> d[i][j] == e[i][j];
    }
  }

  /** Transposing twice gives back the original grid. */
  lemma {:induction false} TransposeInvolution<T>(d: seq<seq<T>>, rows: nat, cols: nat)
    requires Shaped(d, rows, cols)
    ensures Transposed(Transposed(d, rows, cols), cols, rows) == d
  {
    var t := Transposed(d, rows, cols);
    ShapedExtensional(Transposed(t, cols, rows), d, rows, cols);
  }
}
