/** The f64 `Matrix` of src/matrix.rs, with cells modelled as reals. */
module Matrices {
  import opened Failures
  import opened Grids

  /** Cellwise sum of two `rows` x `cols` grids. */
  function Sum(a: seq<seq<real>>, b: seq<seq<real>>, rows: nat, cols: nat): (s: seq<seq<real>>)
    requires Shaped(a, rows, cols) && Shaped(b, rows, cols)
    ensures Shaped(s, rows, cols)
  {
    seq(rows, i requires 0 <= i < rows => seq(cols, j requires 0 <= j < cols => a[i][j] + b[i][j]))
  }

  /** Adding the zero-filled matrix that `new` builds changes nothing. */
  lemma {:induction false} SumWithZeros(a: seq<seq<real>>, rows: nat, cols: nat)
    requires Shaped(a, rows, cols)
    ensures Sum(a, Filled(rows, cols, 0.0), rows, cols) == a
  {
    ShapedExtensional(Sum(a, Filled(rows, cols, 0.0), rows, cols), a, rows, cols);
  }

  /** The order of the operands of an addition does not matter. */
  lemma {:induction false} SumCommutes(a: seq<seq<real>>, b: seq<seq<real>>, rows: nat, cols: nat)
    requires Shaped(a, rows, cols) && Shaped(b, rows, cols)
    ensures Sum(a, b, rows, cols) == Sum(b, a, rows, cols)
  {
    ShapedExtensional(Sum(a, b, rows, cols), Sum(b, a, rows, cols), rows, cols);
  }

  class Matrix {
    /** Number of rows and of columns, fixed at construction. */
    const rows: nat
    const cols: nat
    /** The backing storage, one sequence per row. */
    var data: seq<seq<real>>

    /** The storage is `rows` rows of `cols` cells each. */
    predicate Valid()
      reads this
    {
      Shaped(data, rows, cols)
    }

    /** `new(rows, cols)`: every cell is 0.0. */
    constructor New(rows: nat, cols: nat)
      ensures Valid() && this.rows == rows && this.cols == cols
      ensures forall i, j :: 0 <= i < rows && 0 <= j < cols ==> data[i][j] == 0.0
    {
      this.rows := rows;
      this.cols := cols;
      data := Filled(rows, cols, 0.0);
    }

    /** The struct literal `Matrix { rows, cols, data }`: no check at all. */
    constructor Literal(rows: nat, cols: nat, data: seq<seq<real>>)
      ensures this.rows == rows && this.cols == cols && this.data == data
    {
      this.rows := rows;
      this.cols := cols;
      this.data := data;
    }

    /** `from_vec(data)`: the dimensions are read off the outer list and its
        first row, so an empty list fails; ragged rows are not checked, and
        the result is then not Valid(). */
    static method FromVec(data: seq<seq<real>>) returns (r: Result<Matrix>)
      ensures |data| == 0 ==> r == Err(IndexOutOfRange)
      ensures |data| > 0 ==>
        && r.Ok? && fresh(r.value)
        && r.value.rows == |data| && r.value.cols == |data[0]| && r.value.data == data
        && (r.value.Valid() <==> forall i :: 0 <= i < |data| ==> |data[i]| == |data[0]|)
    {
      if |data| == 0 {
        return Err(IndexOutOfRange);
      }
      var m := new Matrix.Literal(|data|, |data[0]|, data);
      return Ok(m);
    }

    /** `self[(i, j)]`: cell (i, j), or IndexOutOfRange outside the storage. */
    function Get(i: nat, j: nat): (r: Result<real>)
      reads this
      ensures Valid() ==> (r.Ok? <==> i < rows && j < cols)
      ensures r.Ok? <==> i < |data| && j < |data[i]|
      ensures r.Ok? ==> r.value == data[i][j]
      ensures r.Err? ==> r.error == IndexOutOfRange
    {
      if i < |data| && j < |data[i]| then Ok(data[i][j]) else Err(IndexOutOfRange)
    }

    /** `self[(i, j)] = v`: replaces cell (i, j) and nothing else; outside
        the storage it fails and changes nothing. */
    method Set(i: nat, j: nat, v: real) returns (r: Outcome)
      modifies this
      ensures r.Pass? <==> i < |old(data)| && j < |old(data)[i]|
      ensures r.Fail? ==> r.error == IndexOutOfRange
      ensures data == if r.Pass? then old(data)[i := old(data)[i][j := v]] else old(data)
      ensures old(Valid()) ==> Valid()
    {
      if i < |data| && j < |data[i]| {
        data := data[i := data[i][j := v]];
        r := Pass;
      } else {
        r := Fail(IndexOutOfRange);
      }
    }

    /** `self + other`: a fresh matrix of cellwise sums; SizeMismatch unless
        the dimensions agree.  Neither operand changes. */
    method Add(other: Matrix) returns (r: Result<Matrix>)
      requires Valid() && other.Valid()
      ensures (rows != other.rows || cols != other.cols) ==> r == Err(SizeMismatch)
      ensures rows == other.rows && cols == other.cols ==>
        && r.Ok? && fresh(r.value) && r.value.Valid()
        && r.value.rows == rows && r.value.cols == cols
        && r.value.data == Sum(data, other.data, rows, cols)
    {
      if rows != other.rows || cols != other.cols {
        return Err(SizeMismatch);
      }
      var result := new Matrix.New(rows, cols);
      for i := 0 to rows
        invariant result.Valid()
        invariant forall r, c :: 0 <= r < i && 0 <= c < cols ==> result.data[r][c] == data[r][c] + other.data[r][c]
      {
        for j := 0 to cols
          invariant result.Valid()
          invariant forall r, c :: 0 <= r < i && 0 <= c < cols ==> result.data[r][c] == data[r][c] + other.data[r][c]
          invariant forall c :: 0 <= c < j ==> result.data[i][c] == data[i][c] + other.data[i][c]
        {
          var _ := result.Set(i, j, Get(i, j).value + other.Get(i, j).value);
        }
      }
      ShapedExtensional(result.data, Sum(data, other.data, rows, cols), rows, cols);
      return Ok(result);
    }
  }
}
