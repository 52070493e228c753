# st-func-rs: Nigam–Jennings SDOF response and its containers, in Dafny

This project models the computational core of st-func-rs. The core computes how a
damped single-degree-of-freedom (SDOF) oscillator responds to a sampled
ground-acceleration record, using the Nigam–Jennings exact step recurrence.
It also models the containers that this computation and the rest of the
repository are built on.

- `failures.dfy` (module `Failures`): the failures the Rust code of st-func-rs
  raises as panics. They are `IndexOutOfRange` (an element access past the storage, which
  includes reading `data[0]` of an empty list) and `SizeMismatch` (an `assert!`
  on operand sizes). They are returned in `Result` / `Outcome` values.
- `vector.dfy` (module `Vectors`): `Vector` of src/vector.rs, with f64 samples
  modelled as `real`. It is a class with a constant `size` and a `data`
  sequence that index writes replace. `Valid()` states that `size` is the length
  of `data`. `Add` and `Sub` allocate a fresh vector and fill it in a `for` loop,
  as the source does. They are specified with the functions `Plus` and `Minus`.
- `grid.dfy` (module `Grids`): the `Vec<Vec<T>>` storage of both matrix types.
  It defines rectangular shape (`Shaped`), `vec![vec![x; c]; r]` (`Filled`) and
  the transpose (`Transposed`), generically in the element type.
- `core_matrix.dfy` (module `CoreMatrices`): the generic `Matrix<T>` of
  st_func_core/src/matrix.rs, instantiated at `int`, a ring whose default value
  is 0. The model covers construction, `from_vec`, `from_array`, indexing,
  `transpose` and cellwise `add`/`sub`. It also covers the triple-loop `mul`,
  which accumulates into the result cell from 0, one `k` at a time. That order
  is what `Dot` follows.
- `matrix.dfy` (module `Matrices`): the
  f64 `Matrix` of src/matrix.rs, with cells modelled as `real`. It has
  construction, `from_vec`, indexing and `add`.
- `sdof.dfy` (module `Sdof`): `nigam_jennings` as a method. It allocates three
  zero vectors, reads ground sample 0, and runs the `for i in 1..n` loop with the
  running values `y_pre`, `y_dot_pre` and `y0_ddot_pre`, writing each output by
  index. The method is proved against `IsResponse`, which states what the source
  promises: each output has the input's length, sample 0 is zero, and every
  later sample follows from the previous one. It is also proved against
  `Displacement`, `Velocity` and `AbsoluteAcceleration`, which are defined
  through `StateAt`. The lemmas prove the following about these functions:
  they are the only sequences satisfying the recurrence; a still ground leaves
  the oscillator at rest; the response is additive (superposition over the
  container's `add`); and it is causal (a prefix of the record gives the prefix
  of the response).

The eight transition coefficients `a11 … b22` are a `Coefficients` parameter of
`NigamJennings`. In the source they are computed once, before the loop, from
Δt, ω and h (st_func_core/src/dynamic/sdof.rs:39-75). Δt enters the model only
through them.

Four behaviours of the code worth noting:

- The absolute acceleration at sample 0 stays at its allocated 0. It is not
  g[0], because the loop starts at 1.
- An empty record fails with `IndexOutOfRange` when sample 0 is read. No
  separate empty-input error exists.
- ω, h and Δt are not validated.
- The reported absolute acceleration has the opposite sign of the physical
  one. The step-load test (st_func_core/src/dynamic/sdof.rs:118-170) fixes the
  equation of motion as ÿ + 2hωẏ + ω²y = −g. By that equation the physical
  absolute acceleration ÿ + g is −(2hωẏ + ω²y). Line 81 reports
  2hωẏ + ω²y instead, so an oscillator at rest under a constant g reports −g.
  `AccelerationOf` and the model follow the code.

## Model

| member | source | states |
|---|---|---|
| `Vectors.Plus` | src/vector.rs:91-98 | the elementwise sum has the operands' common length |
| `Vectors.Minus` | src/vector.rs:120-127 | the elementwise difference has the operands' common length |
| `Vectors.MinusUndoesPlus` | src/vector.rs:91-127 | subtracting b from a + b gives back a |
| `Vectors.PlusCommutes` | src/vector.rs:91-98 | a + b equals b + a |
| `Vectors.PlusMinusExample` | src/vector.rs:141-159 | [1,2,3] + [4,5,6] = [5,7,9] and [4,5,6] - [1,2,3] = [3,3,3], as in the unit tests |
| `Vectors.Vector.New` | src/vector.rs:20-23 | `new(size)` is valid, has length `size`, and every element is 0 |
| `Vectors.Vector.FromVec` | src/vector.rs:34-37 | `from_vec(data)` is valid, has size `data.len()`, and holds exactly `data` |
| `Vectors.Vector.Len` | st_func_core/src/dynamic/sdof.rs:29 | the length the engine reads is the length of the backing storage |
| `Vectors.Vector.Get` | src/vector.rs:52-54 | reading index i succeeds exactly when i < size and then gives element i; otherwise it is IndexOutOfRange |
| `Vectors.Vector.Set` | src/vector.rs:67-69 | writing index i < size replaces element i only and keeps size and validity; past the end it fails and changes nothing |
| `Vectors.Vector.Add` | src/vector.rs:91-98 | equal sizes give a fresh valid vector of that size with element i = a[i] + b[i]; differing sizes give SizeMismatch; operands unchanged |
| `Vectors.Vector.Sub` | src/vector.rs:120-127 | equal sizes give a fresh valid vector of that size with element i = a[i] - b[i]; differing sizes give SizeMismatch; operands unchanged |
| `Grids.Filled` | st_func_core/src/matrix.rs:23 | `vec![vec![x; cols]; rows]` is rows x cols with x in every cell |
| `Grids.Transposed` | st_func_core/src/matrix.rs:80-92 | the transpose is cols x rows and entry (j, i) equals entry (i, j) of the original |
| `Grids.TransposeInvolution` | st_func_core/src/matrix.rs:80-92 | transposing twice gives back the original grid |
| `CoreMatrices.SumCells` | st_func_core/src/matrix.rs:146-155 | the cellwise sum keeps the operands' shape |
| `CoreMatrices.DifferenceCells` | st_func_core/src/matrix.rs:177-186 | the cellwise difference keeps the operands' shape |
| `CoreMatrices.Product` | st_func_core/src/matrix.rs:208-219 | an n x m grid times an m x p grid is n x p |
| `CoreMatrices.SubUndoesAdd` | st_func_core/src/matrix.rs:146-186 | (A + B) - B = A |
| `CoreMatrices.AddCommutes` | st_func_core/src/matrix.rs:146-155 | A + B = B + A |
| `CoreMatrices.TransposeOfSum` | st_func_core/src/matrix.rs:80-155 | (A + B) transposed equals A transposed plus B transposed |
| `CoreMatrices.Dot` | st_func_core/src/matrix.rs:213-215 | defines the partial sum of row i times column j over the first k terms, accumulated from 0 in increasing k as the innermost loop does |
| `CoreMatrices.DotOfTransposes` | st_func_core/src/matrix.rs:213-215 | each partial accumulation of row i times column j is the same when read through the transposes |
| `CoreMatrices.TransposeOfProduct` | st_func_core/src/matrix.rs:80-219 | (A B) transposed equals B transposed times A transposed |
| `CoreMatrices.ProductExample` | st_func_core/src/matrix.rs:265-273 | [[1,2],[3,4]] times [[2,0],[1,2]] is [[4,4],[10,8]], as in the unit test |
| `CoreMatrices.TransposeExample` | st_func_core/src/matrix.rs:276-283 | the transpose of [[1,2],[3,4]] is [[1,3],[2,4]], as in the unit test |
| `CoreMatrices.Matrix.New` | st_func_core/src/matrix.rs:22-25 | `new(rows, cols)` is valid with those dimensions and every cell 0 |
| `CoreMatrices.Matrix.Literal` | st_func_core/src/matrix.rs:52 | the struct literal stores rows, cols and data unchecked |
| `CoreMatrices.Matrix.NewSquare` | st_func_core/src/matrix.rs:36-38 | `new_square(size)` is a fresh valid size x size matrix of zeros, the result of `new(size, size)` |
| `CoreMatrices.Matrix.FromVec` | st_func_core/src/matrix.rs:49-53 | an empty list fails with IndexOutOfRange; otherwise rows = data.len(), cols = data[0].len(), data unchanged; the result is valid exactly when every row has data[0]'s length |
| `CoreMatrices.Matrix.FromArray` | st_func_core/src/matrix.rs:64-71 | an R x C array gives a valid R x C matrix whose cell (i, j) is the array's cell (i, j) |
| `CoreMatrices.Matrix.Get` | st_func_core/src/matrix.rs:107-109 | reading (i, j) succeeds exactly when it lies inside the storage, and on a valid matrix that is i < rows and j < cols; it gives data[i][j]; otherwise it is IndexOutOfRange |
| `CoreMatrices.Matrix.Set` | st_func_core/src/matrix.rs:122-124 | writing (i, j) inside the storage replaces that cell only and keeps validity; outside it fails and changes nothing |
| `CoreMatrices.Matrix.Transpose` | st_func_core/src/matrix.rs:80-92 | a fresh valid cols x rows matrix holding the transpose |
| `CoreMatrices.Matrix.Add` | st_func_core/src/matrix.rs:146-155 | equal dimensions give a fresh valid matrix of the cellwise sums; otherwise SizeMismatch; operands unchanged |
| `CoreMatrices.Matrix.Sub` | st_func_core/src/matrix.rs:177-186 | equal dimensions give a fresh valid matrix of the cellwise differences; otherwise SizeMismatch; operands unchanged |
| `CoreMatrices.Matrix.Mul` | st_func_core/src/matrix.rs:208-219 | cols = other.rows gives a fresh valid rows x other.cols matrix with cell (i, j) = sum over k of a(i,k) * b(k,j), accumulated from 0; otherwise SizeMismatch |
| `Matrices.Sum` | src/matrix.rs:91-100 | the cellwise sum keeps the operands' shape |
| `Matrices.SumWithZeros` | src/matrix.rs:91-100 | adding the zero matrix that `new` builds changes nothing |
| `Matrices.SumCommutes` | src/matrix.rs:91-100 | A + B = B + A |
| `Matrices.Matrix.New` | src/matrix.rs:22-25 | `new(rows, cols)` is valid with those dimensions and every cell 0.0 |
| `Matrices.Matrix.Literal` | src/matrix.rs:39 | the struct literal stores rows, cols and data unchecked |
| `Matrices.Matrix.FromVec` | src/matrix.rs:36-40 | an empty list fails with IndexOutOfRange; otherwise rows = data.len(), cols = data[0].len(), data unchanged; the result is valid exactly when every row has data[0]'s length |
| `Matrices.Matrix.Get` | src/matrix.rs:55-57 | reading (i, j) succeeds exactly when it lies inside the storage, and on a valid matrix that is i < rows and j < cols; it gives data[i][j]; otherwise it is IndexOutOfRange |
| `Matrices.Matrix.Set` | src/matrix.rs:70-72 | writing (i, j) inside the storage replaces that cell only and keeps validity; outside it fails and changes nothing |
| `Matrices.Matrix.Add` | src/matrix.rs:91-100 | equal dimensions give a fresh valid matrix of the cellwise sums; otherwise SizeMismatch; both operands unchanged |
| `Sdof.Step` | st_func_core/src/dynamic/sdof.rs:79-80 | defines one step of the recurrence: the new displacement and velocity from the previous state and the previous and current ground samples, with the eight coefficients |
| `Sdof.AccelerationOf` | st_func_core/src/dynamic/sdof.rs:81 | defines the reported absolute acceleration of a state as 2hω·ẏ + ω²·y |
| `Sdof.StateAt` | st_func_core/src/dynamic/sdof.rs:35-36 | defines the state at sample i: at rest at sample 0, then one `Step` per sample, as the loop carries `y_pre` and `y_dot_pre` (lines 87-88) |
| `Sdof.IsResponse` | st_func_core/src/dynamic/sdof.rs:77-90 | defines what a run promises: three outputs of the input's length, sample 0 zero, every later sample one `Step` from the previous, and its acceleration by `AccelerationOf` |
| `Sdof.Displacement` | st_func_core/src/dynamic/sdof.rs:31 | the displacement history has the input's length |
| `Sdof.Velocity` | st_func_core/src/dynamic/sdof.rs:32 | the velocity history has the input's length |
| `Sdof.AbsoluteAcceleration` | st_func_core/src/dynamic/sdof.rs:33 | the absolute-acceleration history has the input's length |
| `Sdof.FollowsStateAt` | st_func_core/src/dynamic/sdof.rs:35-37 | outputs that follow the recurrence from rest agree with the step-by-step state at every sample |
| `Sdof.ResponseIsUnique` | st_func_core/src/dynamic/sdof.rs:77-90 | a triple of sequences satisfies the recurrence (lengths, zero sample 0, steps 79-81) exactly when it is the model's response; both directions |
| `Sdof.StillGroundStateAt` | st_func_core/src/dynamic/sdof.rs:35-37 | with every ground sample 0, the state stays at rest at every sample |
| `Sdof.ZeroInputZeroResponse` | st_func_core/src/dynamic/sdof.rs:77-90 | zero input gives zero displacement, velocity and absolute acceleration at every index |
| `Sdof.StepIsAdditive` | st_func_core/src/dynamic/sdof.rs:79-80 | one step applied to summed states and summed ground samples is the sum of the two steps |
| `Sdof.AccelerationIsAdditive` | st_func_core/src/dynamic/sdof.rs:81 | the reported acceleration of summed states is the sum of the accelerations |
| `Sdof.SuperposedStateAt` | st_func_core/src/dynamic/sdof.rs:77-90 | the state for the sum of two records is the sum of the two states, at every sample |
| `Sdof.SuperposedSample` | st_func_core/src/dynamic/sdof.rs:77-90 | at each sample, the displacement and velocity for the sum of two records are the sums of the two |
| `Sdof.SuperposedMotion` | st_func_core/src/dynamic/sdof.rs:77-90 | the displacement and velocity for the vector sum of two records are the sums of the two histories |
| `Sdof.Superposition` | st_func_core/src/dynamic/sdof.rs:77-90 | all three outputs for the vector sum of two records are the sums of the two sets of outputs |
| `Sdof.PrefixStateAt` | st_func_core/src/dynamic/sdof.rs:77-90 | the state at sample i is the same for the whole record and for any prefix containing sample i |
| `Sdof.Causality` | st_func_core/src/dynamic/sdof.rs:77-90 | the outputs for a prefix of the record are the prefixes of the outputs |
| `Sdof.NigamJennings` | st_func_core/src/dynamic/sdof.rs:28-97 | empty input fails when sample 0 is read (IndexOutOfRange); otherwise it returns three fresh, distinct, valid vectors of length n that satisfy the recurrence with sample 0 at 0 and equal the model's response; the input is only read |

## Left out

- The closed-form coefficient formulas (st_func_core/src/dynamic/sdof.rs:39-75) use exp, sin, cos and sqrt. The eight values are a parameter of `NigamJennings`, and Δt appears only through them.
- IEEE f64 arithmetic: rounding, drift, NaN and infinity. Samples are `real`. Nothing is claimed about bit-exactness.
- The step-load test against the analytic solution within 1e-4 (st_func_core/src/dynamic/sdof.rs:118-170). It is a floating-point tolerance check. Its CSV output, environment-variable reading and file creation are I/O.
- No result for |h| ≥ 1, ω ≤ 0 or Δt ≤ 0. The code does not reject these inputs. |h| ≥ 1, ω = 0 or Δt = 0 give NaN or infinite coefficients (a square root of 1 − h² ≤ 0, or a division by zero). ω < 0 or Δt < 0 with |h| < 1 give finite coefficients that have no physical meaning. Either way the coefficients are the parameter, so the model's results hold for whatever values they take.
- The response is proved additive (superposition), not homogeneous. Scaling a record by a constant is not an operation of the source's containers.
- `len()` comes from st_func_core's own vector file, which `nigam_jennings` imports. That file is not part of this model. The engine uses the `Vector` of src/vector.rs, and `Len` returns the size.
- Rust's operator traits (`Add`, `Sub`, `Mul`, `Index`, `IndexMut`) and the `Default`, `Copy`, `Clone` and `Debug` bounds and derives. The operations are named methods. The generic element type is `int` for st_func_core's `Matrix<T>` and `real` elsewhere.
- Panics: a failing access or size check returns an error value and changes nothing. It does not abort the program.
- `add`, `sub` and `mul` take their operands by value. The model leaves the operands in place and unchanged rather than moving them.
- CoreMatrices.Matrix.Add, CoreMatrices.Matrix.Sub, CoreMatrices.Matrix.Mul, CoreMatrices.Matrix.Transpose and Matrices.Matrix.Add require `Valid()` (rectangular storage of the stated dimensions). A matrix built by `from_vec` from ragged rows is not valid. The source indexes such a matrix by its real storage, and that may panic or ignore cells; these operations are not modelled on ragged storage.
