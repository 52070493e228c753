/** The generic `Matrix<T>` of st_func_core/src/matrix.rs, instantiated at
    the integers (a ring whose default value is 0). */
module CoreMatrices {
  import opened Failures
  import opened Grids

  /** Cellwise sum of two `rows` x `cols` grids. */
  function SumCells(a: seq<seq<int>>, b: seq<seq<int>>, rows: nat, cols: nat): (s: seq<seq<int>>)
    requires Shaped(a, rows, cols) && Shaped(b, rows, cols)
    ensures Shaped(s, rows, cols)
  {
    seq(rows, i requires 0 <= i < rows => seq(cols, j requires 0 <= j < cols => a[i][j] + b[i][j]))
  }

  /** Cellwise difference of two `rows` x `cols` grids. */
  function DifferenceCells(a: seq<seq<int>>, b: seq<seq<int>>, rows: nat, cols: nat): (s: seq<seq<int>>)
    requires Shaped(a, rows, cols) && Shaped(b, rows, cols)
    ensures Shaped(s, rows, cols)
  {
    seq(rows, i requires 0 <= i < rows => seq(cols, j requires 0 <= j < cols => a[i][j] - b[i][j]))
  }

  /** The first `k` terms of row `i` of `a` times column `j` of `b`, added
      from 0 in increasing `k`. */
  function Dot(a: seq<seq<int>>, b: seq<seq<int>>, n: nat, m: nat, p: nat, i: nat, j: nat, k: nat): int
    requires Shaped(a, n, m) && Shaped(b, m, p) && i < n && j < p && k <= m
  {
    if k == 0 then 0 else Dot(a, b, n, m, p, i, j, k - 1) + a[i][k - 1] * b[k - 1][j]
  }

  /** The matrix product of an `n` x `m` grid and an `m` x `p` grid. */
  function Product(a: seq<seq<int>>, b: seq<seq<int>>, n: nat, m: nat, p: nat): (c: seq<seq<int>>)
    requires Shaped(a, n, m) && Shaped(b, m, p)
    ensures Shaped(c, n, p)
  {
    seq(n, i requires 0 <= i < n => seq(p, j requires 0 <= j < p => Dot(a, b, n, m, p, i, j, m)))
  }

  /** Subtracting what was added gives back the first operand. */
  lemma {:induction false} SubUndoesAdd(a: seq<seq<int>>, b: seq<seq<int>>, rows: nat, cols: nat)
    requires Shaped(a, rows, cols) && Shaped(b, rows, cols)
    ensures DifferenceCells(SumCells(a, b, rows, cols), b, rows, cols) == a
  {
    ShapedExtensional(DifferenceCells(SumCells(a, b, rows, cols), b, rows, cols), a, rows, cols);
  }

  /** The order of the operands of an addition does not matter. */
  lemma {:induction false} AddCommutes(a: seq<seq<int>>, b: seq<seq<int>>, rows: nat, cols: nat)
    requires Shaped(a, rows, cols) && Shaped(b, rows, cols)
    ensures SumCells(a, b, rows, cols) == SumCells(b, a, rows, cols)
  {
    ShapedExtensional(SumCells(a, b, rows, cols), SumCells(b, a, rows, cols), rows, cols);
  }

  /** Transposition distributes over addition. */
  lemma {:induction false} TransposeOfSum(a: seq<seq<int>>, b: seq<seq<int>>, rows: nat, cols: nat)
    requires Shaped(a, rows, cols) && Shaped(b, rows, cols)
    ensures Transposed(SumCells(a, b, rows, cols), rows, cols)
         == SumCells(Transposed(a, rows, cols), Transposed(b, rows, cols), cols, rows)
  {
    ShapedExtensional(Transposed(SumCells(a, b, rows, cols), rows, cols),
                      SumCells(Transposed(a, rows, cols), Transposed(b, rows, cols), cols, rows), cols, rows);
  }

  /** A partial dot product read through the transposes is the same sum. */
  lemma {:induction false} DotOfTransposes(a: seq<seq<int>>, b: seq<seq<int>>, n: nat, m: nat, p: nat, i: nat, j: nat, k: nat)
    requires Shaped(a, n, m) && Shaped(b, m, p) && i < n && j < p && k <= m
    ensures Dot(Transposed(b, m, p), Transposed(a, n, m), p, m, n, j, i, k) == Dot(a, b, n, m, p, i, j, k)
  {
    if k > 0 {
      DotOfTransposes(a, b, n, m, p, i, j, k - 1);
    }
  }

  /** The transpose of a product is the product of the transposes, in the
      other order. */
  lemma {:induction false} TransposeOfProduct(a: seq<seq<int>>, b: seq<seq<int>>, n: nat, m: nat, p: nat)
    requires Shaped(a, n, m) && Shaped(b, m, p)
    ensures Transposed(Product(a, b, n, m, p), n, p)
         == Product(Transposed(b, m, p), Transposed(a, n, m), p, m, n)
  {
    forall j, i | 0 <= j < p && 0 <= i < n
      ensures Transposed(Product(a, b, n, m, p), n, p)[j][i]
           == Product(Transposed(b, m, p), Transposed(a, n, m), p, m, n)[j][i]
    {
      DotOfTransposes(a, b, n, m, p, i, j, m);
    }
    ShapedExtensional(Transposed(Product(a, b, n, m, p), n, p),
                      Product(Transposed(b, m, p), Transposed(a, n, m), p, m, n), p, n);
  }

  /** The worked multiplication of the unit tests: [[1, 2], [3, 4]] times
      [[2, 0], [1, 2]] is [[4, 4], [10, 8]]. */
  lemma ProductExample()
    ensures Product([[1, 2], [3, 4]], [[2, 0], [1, 2]], 2, 2, 2) == [[4, 4], [10, 8]]
  {
    var a, b := [[1, 2], [3, 4]], [[2, 0], [1, 2]];
    assert Dot(a, b, 2, 2, 2, 0, 0, 2) == 4 && Dot(a, b, 2, 2, 2, 0, 1, 2) == 4;
    assert Dot(a, b, 2, 2, 2, 1, 0, 2) == 10 && Dot(a, b, 2, 2, 2, 1, 1, 2) == 8;
    var c := Product(a, b, 2, 2, 2);
    assert c[0] == [4, 4] && c[1] == [10, 8];
  }

  /** The worked transposition of the unit tests. */
  lemma TransposeExample()
    ensures Transposed([[1, 2], [3, 4]], 2, 2) == [[1, 3], [2, 4]]
  {
    var t := Transposed([[1, 2], [3, 4]], 2, 2);
    assert t[0] == [1, 3] && t[1] == [2, 4];
  }

  class Matrix {
    /** Number of rows and of columns, fixed at construction. */
    const rows: nat
    const cols: nat
    /** The backing storage, one sequence per row. */
    var data: seq<seq<int>>

    /** The storage is `rows` rows of `cols` cells each. */
    predicate Valid()
      reads this
    {
      Shaped(data, rows, cols)
    }

    /** `new(rows, cols)`: every cell holds the default value. */
    constructor New(rows: nat, cols: nat)
      ensures Valid() && this.rows == rows && this.cols == cols
      ensures forall i, j :: 0 <= i < rows && 0 <= j < cols ==> data[i][j] == 0
    {
      this.rows := rows;
      this.cols := cols;
      data := Filled(rows, cols, 0);
    }

    /** The struct literal `Matrix { rows, cols, data }`: no check at all. */
    constructor Literal(rows: nat, cols: nat, data: seq<seq<int>>)
      ensures this.rows == rows && this.cols == cols && this.data == data
    {
      this.rows := rows;
      this.cols := cols;
      this.data := data;
    }

    /** `new_square(size)`: the same as `new(size, size)`. */
    static method NewSquare(size: nat) returns (m: Matrix)
      ensures fresh(m) && m.Valid() && m.rows == size && m.cols == size
      ensures forall i, j :: 0 <= i < size && 0 <= j < size ==> m.data[i][j] == 0
    {
      m := new Matrix.New(size, size);
    }

    /** `from_vec(data)`: the dimensions are read off the outer list and its
        first row, so an empty list fails; ragged rows are not checked, and
        the result is then not Valid(). */
    static method FromVec(data: seq<seq<int>>) returns (r: Result<Matrix>)
      ensures |data| == 0 ==> r == Err(IndexOutOfRange)
      ensures |data| > 0 ==>
        && r.Ok? && fresh(r.value)
        && r.value.rows == |data| && r.value.cols == |data[0]| && r.value.data == data
        && (r.value.Valid() <==> forall i :: 0 <= i < |data| ==> |data[i]| == |data[0]|)
    {
      if |data| == 0 {
        return Err(IndexOutOfRange);
      }
      var m := new Matrix.Literal(|data|, |data[0]|, data);
      return Ok(m);
    }

    /** `from_array(data)` of an R x C array: an R x C matrix holding the
        array's cells; R may be 0. */
    constructor FromArray(a: array2<int>)
      ensures Valid() && rows == a.Length0 && cols == a.Length1
      ensures forall i, j :: 0 <= i < rows && 0 <= j < cols ==> data[i][j] == a[i, j]
    {
      rows := a.Length0;
      cols := a.Length1;
      data := seq(a.Length0, i requires 0 <= i < a.Length0 reads a =>
                seq(a.Length1, j requires 0 <= j < a.Length1 reads a => a[i, j]));
    }

    /** `self[(i, j)]`: cell (i, j), or IndexOutOfRange outside the storage. */
    function Get(i: nat, j: nat): (r: Result<int>)
      reads this
      ensures Valid() ==> (r.Ok? <==> i < rows && j < cols)
      ensures r.Ok? <==> i < |data| && j < |data[i]|
      ensures r.Ok? ==> r.value == data[i][j]
      ensures r.Err? ==> r.error == IndexOutOfRange
    {
      if i < |data| && j < |data[i]| then Ok(data[i][j]) else Err(IndexOutOfRange)
    }

    /** `self[(i, j)] = v`: replaces cell (i, j) and nothing else; outside
        the storage it fails and changes nothing. */
    method Set(i: nat, j: nat, v: int) returns (r: Outcome)
      modifies this
      ensures r.Pass? <==> i < |old(data)| && j < |old(data)[i]|
      ensures r.Fail? ==> r.error == IndexOutOfRange
      ensures data == if r.Pass? then old(data)[i := old(data)[i][j := v]] else old(data)
      ensures old(Valid()) ==> Valid()
    {
      if i < |data| && j < |data[i]| {
        data := data[i := data[i][j := v]];
        r := Pass;
      } else {
        r := Fail(IndexOutOfRange);
      }
    }

    /** `transpose()`: a fresh `cols` x `rows` matrix with cell (j, i) equal
        to cell (i, j) of this one. */
    method Transpose() returns (t: Matrix)
      requires Valid()
      ensures fresh(t) && t.Valid() && t.rows == cols && t.cols == rows
      ensures t.data == Transposed(data, rows, cols)
    {
      var transposed := Filled(cols, rows, 0);
      for i := 0 to rows
        invariant Shaped(transposed, cols, rows)
        invariant forall r, c :: 0 <= r < i && 0 <= c < cols ==> transposed[c][r] == data[r][c]
      {
        for j := 0 to cols
          invariant Shaped(transposed, cols, rows)
          invariant forall r, c :: 0 <= r < i && 0 <= c < cols ==> transposed[c][r] == data[r][c]
          invariant forall c :: 0 <= c < j ==> transposed[c][i] == data[i][c]
        {
          transposed := transposed[j := transposed[j][i := data[i][j]]];
        }
      }
      ShapedExtensional(transposed, Transposed(data, rows, cols), cols, rows);
      t := new Matrix.Literal(cols, rows, transposed);
    }

    /** `self + other`: a fresh matrix of cellwise sums; SizeMismatch unless
        the dimensions agree.  Neither operand changes. */
    method Add(other: Matrix) returns (r: Result<Matrix>)
      requires Valid() && other.Valid()
      ensures (rows != other.rows || cols != other.cols) ==> r == Err(SizeMismatch)
      ensures rows == other.rows && cols == other.cols ==>
        && r.Ok? && fresh(r.value) && r.value.Valid()
        && r.value.rows == rows && r.value.cols == cols
        && r.value.data == SumCells(data, other.data, rows, cols)
    {
      if rows != other.rows || cols != other.cols {
        return Err(SizeMismatch);
      }
      var result := new Matrix.New(rows, cols);
      for i := 0 to rows
        invariant result.Valid()
        invariant forall r, c :: 0 <= r < i && 0 <= c < cols ==> result.data[r][c] == data[r][c] + other.data[r][c]
      {
        for j := 0 to cols
          invariant result.Valid()
          invariant forall r, c :: 0 <= r < i && 0 <= c < cols ==> result.data[r][c] == data[r][c] + other.data[r][c]
          invariant forall c :: 0 <= c < j ==> result.data[i][c] == data[i][c] + other.data[i][c]
        {
          var _ := result.Set(i, j, Get(i, j).value + other.Get(i, j).value);
        }
      }
      ShapedExtensional(result.data, SumCells(data, other.data, rows, cols), rows, cols);
      return Ok(result);
    }

    /** `self - other`: a fresh matrix of cellwise differences; SizeMismatch
        unless the dimensions agree.  Neither operand changes. */
    method Sub(other: Matrix) returns (r: Result<Matrix>)
      requires Valid() && other.Valid()
      ensures (rows != other.rows || cols != other.cols) ==> r == Err(SizeMismatch)
      ensures rows == other.rows && cols == other.cols ==>
        && r.Ok? && fresh(r.value) && r.value.Valid()
        && r.value.rows == rows && r.value.cols == cols
        && r.value.data == DifferenceCells(data, other.data, rows, cols)
    {
      if rows != other.rows || cols != other.cols {
        return Err(SizeMismatch);
      }
      var result := new Matrix.New(rows, cols);
      for i := 0 to rows
        invariant result.Valid()
        invariant forall r, c :: 0 <= r < i && 0 <= c < cols ==> result.data[r][c] == data[r][c] - other.data[r][c]
      {
        for j := 0 to cols
          invariant result.Valid()
          invariant forall r, c :: 0 <= r < i && 0 <= c < cols ==> result.data[r][c] == data[r][c] - other.data[r][c]
          invariant forall c :: 0 <= c < j ==> result.data[i][c] == data[i][c] - other.data[i][c]
        {
          var _ := result.Set(i, j, Get(i, j).value - other.Get(i, j).value);
        }
      }
      ShapedExtensional(result.data, DifferenceCells(data, other.data, rows, cols), rows, cols);
      return Ok(result);
    }

    /** `self * other`: a fresh `rows` x `other.cols` matrix whose cell (i, j)
        accumulates row i times column j into the default value; SizeMismatch
        unless `cols == other.rows`.  Neither operand changes. */
    method Mul(other: Matrix) returns (r: Result<Matrix>)
      requires Valid() && other.Valid()
      ensures cols != other.rows ==> r == Err(SizeMismatch)
      ensures cols == other.rows ==>
        && r.Ok? && fresh(r.value) && r.value.Valid()
        && r.value.rows == rows && r.value.cols == other.cols
        && r.value.data == Product(data, other.data, rows, cols, other.cols)
    {
      if cols != other.rows {
        return Err(SizeMismatch);
      }
      var p := other.cols;
      var result := new Matrix.New(rows, p);
      for i := 0 to rows
        invariant result.Valid()
        invariant forall r, c :: 0 <= r < i && 0 <= c < p ==> result.data[r][c] == Dot(data, other.data, rows, cols, p, r, c, cols)
        invariant forall r, c :: i <= r < rows && 0 <= c < p ==> result.data[r][c] == 0
      {
        for j := 0 to p
          invariant result.Valid()
          invariant forall r, c :: 0 <= r < i && 0 <= c < p ==> result.data[r][c] == Dot(data, other.data, rows, cols, p, r, c, cols)
          invariant forall c :: 0 <= c < j ==> result.data[i][c] == Dot(data, other.data, rows, cols, p, i, c, cols)
          invariant forall c :: j <= c < p ==> result.data[i][c] == 0
          invariant forall r, c :: i < r < rows && 0 <= c < p ==> result.data[r][c] == 0
        {
          ghost var before := result.data;
          for k := 0 to cols
            invariant result.Valid()
            invariant result.data[i][j] == Dot(data, other.data, rows, cols, p, i, j, k)
            invariant forall r, c :: 0 <= r < rows && 0 <= c < p && (r != i || c != j) ==> result.data[r][c] == before[r][c]
          {
            var _ := result.Set(i, j, result.Get(i, j).value + Get(i, k).value * other.Get(k, j).value);
          }
        }
      }
      ShapedExtensional(result.data, Product(data, other.data, rows, cols, p), rows, p);
      return Ok(result);
    }
  }
}
