/** The fixed-length numeric sequence of src/vector.rs, with f64 samples
    modelled as reals. */
module Vectors {
  import opened Failures

  /** Elementwise sum of two sequences of equal length. */
  function Plus(a: seq<real>, b: seq<real>): (s: seq<real>)
    requires |a| == |b|
    ensures |s| == |a|
  {
    seq(|a|, i requires 0 <= i < |a| => a[i] + b[i])
  }

  /** Elementwise difference of two sequences of equal length. */
  function Minus(a: seq<real>, b: seq<real>): (s: seq<real>)
    requires |a| == |b|
    ensures |s| == |a|
  {
    seq(|a|, i requires 0 <= i < |a| => a[i] - b[i])
  }

  /** Subtracting what was added gives back the first operand. */
  lemma MinusUndoesPlus(a: seq<real>, b: seq<real>)
    requires |a| == |b|
    ensures Minus(Plus(a, b), b) == a
  {
  }

  /** The order of the operands of an addition does not matter. */
  lemma PlusCommutes(a: seq<real>, b: seq<real>)
    requires |a| == |b|
    ensures Plus(a, b) == Plus(b, a)
  {
  }

  /** The worked addition and subtraction of the unit tests. */
  lemma PlusMinusExample()
    ensures Plus([1.0, 2.0, 3.0], [4.0, 5.0, 6.0]) == [5.0, 7.0, 9.0]
    ensures Minus([4.0, 5.0, 6.0], [1.0, 2.0, 3.0]) == [3.0, 3.0, 3.0]
  {
  }

  class Vector {
    /** Number of elements, fixed at construction. */
    const size: nat
    /** The backing storage. */
    var data: seq<real>

    /** The size field always describes the backing storage. */
    predicate Valid()
      reads this
    {
      size == |data|
    }

    /** `new(size)`: `size` zeros (the default f64). */
    constructor New(size: nat)
      ensures Valid() && this.size == size
      ensures forall i :: 0 <= i < size ==> data[i] == 0.0
    {
      this.size := size;
      data := seq(size, _ => 0.0);
    }

    /** `from_vec(data)`: takes over the given values, in order. */
    constructor FromVec(data: seq<real>)
      ensures Valid() && size == |data| && this.data == data
    {
      size := |data|;
      this.data := data;
    }

    /** Number of elements, as the response engine asks for it. */
    function Len(): (n: nat)
      reads this
      requires Valid()
      ensures n == |data|
    {
      size
    }

    /** `self[i]`: element i, or IndexOutOfRange past the end. */
    function Get(i: nat): (r: Result<real>)
      reads this
      requires Valid()
      ensures r.Ok? <==> i < size
      ensures r.Ok? ==> r.value == data[i]
      ensures r.Err? ==> r.error == IndexOutOfRange
    {
      if i < |data| then Ok(data[i]) else Err(IndexOutOfRange)
    }

    /** `self[i] = v`: replaces element i and nothing else; past the end it
        fails and changes nothing. */
    method Set(i: nat, v: real) returns (r: Outcome)
      requires Valid()
      modifies this
      ensures Valid()
      ensures r.Pass? <==> i < size
      ensures r.Fail? ==> r.error == IndexOutOfRange
      ensures data == if i < size then old(data)[i := v] else old(data)
    {
      if i < |data| {
        data := data[i := v];
        r := Pass;
      } else {
        r := Fail(IndexOutOfRange);
      }
    }

    /** `self + other`: a fresh vector of elementwise sums; SizeMismatch when
        the sizes differ.  Neither operand changes. */
    method Add(other: Vector) returns (r: Result<Vector>)
      requires Valid() && other.Valid()
      ensures size != other.size ==> r == Err(SizeMismatch)
      ensures size == other.size ==>
        && r.Ok? && fresh(r.value) && r.value.Valid()
        && r.value.size == size && r.value.data == Plus(data, other.data)
    {
      if size != other.size {
        return Err(SizeMismatch);
      }
      var result := new Vector.New(size);
      for i := 0 to size
        invariant result.Valid() && result.size == size
        invariant forall j :: 0 <= j < i ==> result.data[j] == data[j] + other.data[j]
      {
        var _ := result.Set(i, Get(i).value + other.Get(i).value);
      }
      return Ok(result);
    }

    /** `self - other`: a fresh vector of elementwise differences;
        SizeMismatch when the sizes differ.  Neither operand changes. */
    method Sub(other: Vector) returns (r: Result<Vector>)
      requires Valid() && other.Valid()
      ensures size != other.size ==> r == Err(SizeMismatch)
      ensures size == other.size ==>
        && r.Ok? && fresh(r.value) && r.value.Valid()
        && r.value.size == size && r.value.data == Minus(data, other.data)
    {
      if size != other.size {
        return Err(SizeMismatch);
      }
      var result := new Vector.New(size);
      for i := 0 to size
        invariant result.Valid() && result.size == size
        invariant forall j :: 0 <= j < i ==> result.data[j] == data[j] - other.data[j]
      {
        var _ := result.Set(i, Get(i).value - other.Get(i).value);
      }
      return Ok(result);
    }
  }
}
