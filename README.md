# Strassen fast-multiplication engine of Jatrix, modelled in Dafny

Jatrix multiplies dense square matrices. Its engine, `StrassenProduct`, has three static
operations:

- `mul` hands operands of dimension at most 32 to the naive multiplier `Matrices.mul`.
  For larger operands it splits both into quadrants and forms the seven Strassen products
  by recursive calls. It then combines them into the four result quadrants and joins those.
- `split` copies the four quadrants of a matrix into four fresh matrices of dimension `n >> 1`.
- `join` copies four matrices of dimension `size` into the quadrants of a fresh matrix of
  dimension `size << 1`.

The model has three modules:

- `Matrices` (`matrices.dfy`): the collaborators the engine calls. A matrix is the
  sequence of its lines, `seq<seq<int>>`. `Add` and `Sub` are the element-wise
  operations. `MatMul` is the naive product, each entry a dot product accumulated from
  the left. The module also proves the linearity facts about these operations that the
  Strassen identity rests on.
- `StrassenProduct` (`strassen_product.dfy`): `Split`, `Join`, `Combine` and `Mul` as
  functions, with their round trips, the Strassen identity and the correctness of `Mul`.
  It also holds the guarded entry point `Multiply`.
- `StrassenArrays` (`strassen_arrays.dfy`): `split` and `join` as the source runs them.
  They allocate zero-filled `array2<int>` values and fill them line by line with
  `ArrayCopy`, which models `System.arraycopy`. Each method is proved to produce exactly
  `Split` or `Join` of the array contents.

`mul` is modelled as written, for every square dimension. When some dimension above 32
that halving reaches is odd, `n >> 1` drops the last line and the last column, and `mul`
returns a smaller matrix than the product. `OutDim` gives the dimension actually returned.
`Halvable` is the condition under which `mul` is correct: every dimension above 32 reached
by halving is even, for example `n = m * 2^k` with `m <= 32`.

A truncated matrix is not the product that `mul` documents returning (its `@return` at
`StrassenProduct.java:19`). The evident intent is to reject such dimensions with
`DimensionError`, but the code returns the truncated result without complaint. The model
follows the code in `Mul`. It records the discrepancy under Findings and gives the
intended behaviour as `Multiply`.

## Model

| member | source | states |
|---|---|---|
| `Matrices.Add` | src/main/java/com/jatrix/core/StrassenProduct.java:3 | `Matrices.add` as used by the engine: a new matrix of the same dimension whose entries are the entry-wise sums |
| `Matrices.Sub` | src/main/java/com/jatrix/core/StrassenProduct.java:4 | `Matrices.sub`: a new matrix of the same dimension whose entries are the entry-wise differences |
| `Matrices.MatMul` | src/main/java/com/jatrix/core/StrassenProduct.java:22-23 | the naive product the base case delegates to: same dimension, entry (i, j) is the sum over k of `a[i][k] * b[k][j]` |
| `Matrices.MulAddLeft` | src/main/java/com/jatrix/core/StrassenProduct.java:29-35 | `(a + b) * c` equals `a * c + b * c` at every entry, as the products of quadrant sums need |
| `Matrices.MulSubLeft` | src/main/java/com/jatrix/core/StrassenProduct.java:34-35 | `(a - b) * c` equals `a * c - b * c` at every entry |
| `Matrices.MulAddRight` | src/main/java/com/jatrix/core/StrassenProduct.java:29-35 | `a * (b + c)` equals `a * b + a * c` at every entry |
| `Matrices.MulSubRight` | src/main/java/com/jatrix/core/StrassenProduct.java:31-32 | `a * (b - c)` equals `a * b - a * c` at every entry |
| `StrassenProduct.Split` | src/main/java/com/jatrix/core/StrassenProduct.java:51-56 | `split` returns four square matrices, each of dimension `n >> 1`, for every square input (odd dimensions included) |
| `StrassenProduct.SplitEntries` | src/main/java/com/jatrix/core/StrassenProduct.java:58-63 | entry mapping of `split` for i, j below `size`: a11 = `A[i][j]`, a12 = `A[i][size+j]`, a21 = `A[size+i][j]`, a22 = `A[size+i][size+j]` |
| `StrassenProduct.Join` | src/main/java/com/jatrix/core/StrassenProduct.java:78-80 | `join` returns a square matrix of dimension `2 * size`, where `size` is the dimension of a11 |
| `StrassenProduct.JoinEntries` | src/main/java/com/jatrix/core/StrassenProduct.java:82-87 | entry mapping of `join`: its quadrants hold a11, a12, a21 and a22 at offsets 0 and `size`, so every entry of the result is one of the inputs' entries |
| `StrassenProduct.JoinSplit` | src/main/java/com/jatrix/core/StrassenProduct.java:51-90 | for even dimension, `join(split(A))` equals `A` |
| `StrassenProduct.SplitJoin` | src/main/java/com/jatrix/core/StrassenProduct.java:51-90 | for four inputs of one dimension, `split(join(a11, a12, a21, a22))` gives back the four inputs |
| `StrassenProduct.Combine` | src/main/java/com/jatrix/core/StrassenProduct.java:37-40 | c11 = p1+p4-p5+p7, c12 = p3+p5, c21 = p2+p4 and c22 = p1+p3-p2+p6 are four square matrices of the products' dimension |
| `StrassenProduct.SevenProductsEntry` | src/main/java/com/jatrix/core/StrassenProduct.java:29-35 | each of p1..p7, taken as an exact product, expands entry by entry into the eight quadrant products `a_xy * b_zw` |
| `StrassenProduct.StrassenCombine` | src/main/java/com/jatrix/core/StrassenProduct.java:29-40 | combining the seven products gives the block product: c11 = a11·b11 + a12·b21, c12 = a11·b12 + a12·b22, c21 = a21·b11 + a22·b21, c22 = a21·b12 + a22·b22 |
| `StrassenProduct.BlockOfProduct` | src/main/java/com/jatrix/core/StrassenProduct.java:26-27 | each quadrant of the product of two matrices of even dimension is the sum of the two half-size products of the operands' quadrants that meet there |
| `StrassenProduct.SplitProduct` | src/main/java/com/jatrix/core/StrassenProduct.java:26-27 | splitting the product of two matrices of even dimension gives the block product of their splits |
| `StrassenProduct.OutDimExact` | src/main/java/com/jatrix/core/StrassenProduct.java:22 | the dimension `mul` returns is never larger than the operands', and equals it exactly when the dimension is halvable down to the threshold |
| `StrassenProduct.Mul` | src/main/java/com/jatrix/core/StrassenProduct.java:21-43 | `mul` returns a square matrix of dimension `OutDim(n)`; it terminates because every recursive call is on operands of dimension `n >> 1 < n`, and the base case stops at 32 |
| `StrassenProduct.MulCorrect` | src/main/java/com/jatrix/core/StrassenProduct.java:21-43 | for halvable dimensions (all dimensions up to 32 among them), `mul(m1, m2)` equals the mathematical product of `m1` and `m2`, so its dimension is that of the inputs |
| `StrassenProduct.TruncatesOddDimension` | src/main/java/com/jatrix/core/StrassenProduct.java:52 | when some dimension above 32 reached by halving is odd, `mul` returns a strictly smaller matrix, which is not the product |
| `StrassenProduct.Multiply` | src/main/java/com/jatrix/core/StrassenProduct.java:21-43 | the guarded engine succeeds exactly when both operands are square of one halvable dimension, and then returns the mathematical product; otherwise it returns `DimensionError` |
| `Matrices.MatMulIdentity` | src/main/java/com/jatrix/core/StrassenProduct.java:22-23 | the naive product with the identity on either side returns the other operand |
| `Matrices.MatMulZero` | src/main/java/com/jatrix/core/StrassenProduct.java:22-23 | the naive product with the zero matrix on either side is the zero matrix |
| `StrassenProduct.MultiplyByIdentity` | src/main/java/com/jatrix/core/StrassenProduct.java:21-43 | for a halvable dimension, multiplying by the identity on either side returns the other operand unchanged |
| `StrassenProduct.MultiplyByZero` | src/main/java/com/jatrix/core/StrassenProduct.java:21-43 | for a halvable dimension, multiplying by the zero matrix on either side returns the zero matrix of that dimension |
| `StrassenProduct.WorkedExample` | src/main/java/com/jatrix/core/StrassenProduct.java:21-23 | `[[1, 2], [3, 4]]` times `[[5, 6], [7, 8]]` is `[[19, 22], [43, 50]]`, computed by the base case |
| `StrassenArrays.ArrayCopy` | src/main/java/com/jatrix/core/StrassenProduct.java:59 | `System.arraycopy` between lines: the `length` entries of the source line from `srcPos` land in the destination line from `dstPos`, and nothing else in the destination changes |
| `StrassenArrays.SplitArrays` | src/main/java/com/jatrix/core/StrassenProduct.java:51-66 | `split` allocates four fresh, distinct arrays holding exactly `Split` of the input's contents; the input array is not modified |
| `StrassenArrays.JoinArrays` | src/main/java/com/jatrix/core/StrassenProduct.java:78-90 | `join` allocates a fresh array holding exactly `Join` of the four inputs' contents, every entry written |

## Findings

| source | as written | input that shows it | evidently intended | confidence | as-written member | corrected member |
|---|---|---|---|---|---|---|
| src/main/java/com/jatrix/core/StrassenProduct.java:52 | `size = n >> 1` is taken without checking that `n` is even, and `mul` recurses on it for every `n > 32` | two 33x33 matrices: the quadrants are 16x16, the last line and column are dropped, and `mul` returns a 32x32 matrix | a dimension that cannot be halved evenly down to 32 is rejected with `DimensionError` | high; not executed | `StrassenProduct.TruncatesOddDimension` | `StrassenProduct.Multiply` |

## Left out

- Entries are mathematical integers, not `double`. Rounding and the order of floating-point summation are not modelled.
- The `Matrix` container and the bodies of `Matrices.add`, `Matrices.sub` and `Matrices.mul` are not part of this model. They are represented by their specifications (`Add`, `Sub`, `MatMul`). These require operands of equal dimension. The `DimensionError` the methods raise otherwise is not modelled.
- `Mul` requires both operands to be square of the same dimension, because the source reads only the first operand's dimension. Some unequal pairs reach `Matrices.add`, `Matrices.sub` or `Matrices.mul` with mismatched dimensions. Others, such as 33 and 32 or 65 and 64, halve to quadrants of one size and pass through silently with a truncated result. Neither case is modelled.
- `Mul` works on matrix values built by `Split` and `Join`. The allocation of the intermediate matrices inside `mul` is not modelled. It is captured only in `SplitArrays` and `JoinArrays`.
- `JoinArrays` requires all four inputs to have a11's dimension. The source reads only a11's dimension, and a smaller input would make `System.arraycopy` throw.
- `ArrayCopy` requires source and destination to be different arrays. `System.arraycopy` also handles overlapping copies, but `split` and `join` never copy within one array.
- Java `int` limits on `size << 1` and on dimensions are not modelled; dimensions are unbounded naturals.
- Parallel evaluation of p1..p7, the 32 threshold's performance rationale and the complexity bound are out of scope.
- `MatrixConversion.swapColumns`/`swapRows` (tested in `src/test/java/MatrixConversionTest.java`) are unrelated to the engine and not part of this model.
