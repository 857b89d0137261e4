# Upper-triangular matrix over an offset-indexed vector

A Dafny model of `include/utmatrix.h`. That header holds the two class
templates of a small teaching library:

- `TVector<ValType>` is an owned buffer of `Size` elements. Its first element
  has the logical index `StartIndex`. It supports bounds-checked access,
  equality, deep copy and assignment, scalar `+ - *`, and vector `+ -` and
  the dot product.
- `TMatrix<ValType>` is an upper-triangular matrix. It is a
  `TVector<TVector<ValType>>` whose row `i` has `N - i` elements and start
  index `i`. Equality, assignment, `+` and `-` are the vector-of-vectors
  operations, which recurse into the rows.

The model is functional:

- `Results` turns the header's three string exceptions into error kinds:
  `LargeIndex` ("large index"), `NegativeLength` ("negative length") and
  `DifferentSize` ("different size").
- `Vectors` defines `Vec<T> = Vec(start, elems)`. The size is `|elems|`, so
  "the buffer holds exactly `Size` elements" holds by construction.
- The element type stays generic because the matrix really is a
  `Vec<Vec<int>>`. Vector `+` and `-` are one function, `Vectors.Combine`,
  that takes the element operator as a parameter. For integer vectors that
  operator is integer `+`/`-`. For the matrix it is the row `+`/`-`, which can
  itself fail. This is how the template instantiation recurses into the rows.
- `Matrices` wraps the vector of rows. `Triangular` is the shape invariant:
  rows indexed from 0, and row `i` of length `Size - i` starting at `i`.

Value semantics replaces the header's manual buffers. A copy never shares
storage with its source, and destruction has nothing to release. The
unspecified contents of a fresh `new ValType[s]` buffer are a `fill` parameter.

Two behaviours of the header are modelled as written:

- The scalar operators update the receiver in place and return a copy of it.
  `Vectors.ScalarOperator` returns both the updated receiver and the returned
  value, and proves that they are equal.
- Vector `+` and `-` compare only the sizes, never the start indices. The
  result takes the left operand's start index.

The header throws three distinct strings, so the model has three error kinds.
The matrix constructor's oversize error is the same `LargeIndex`
(include/utmatrix.h:248-249).

The scalar operators take their scalar by const reference, so in `v + v[p]`
the scalar is one of the receiver's own slots. The loop then reads the
updated slot for every later element. `Vectors.ScalarOperatorAliased`
models that call.

Where the header's tests disagree with the header, the model follows the
header:

- `test/test_tvector.cpp:218-237` expects a mismatched addition to succeed.
- Several tests index `v[0]` on a vector whose start index is 2.

## Model

| member | source | states |
|---|---|---|
| Vectors.New | include/utmatrix.h:62-74 | A length above MAX_VECTOR_SIZE fails with LargeIndex; otherwise a negative length or start index fails with NegativeLength; it succeeds exactly on 0 <= s <= MAX_VECTOR_SIZE, si >= 0, and then has size s, start index si and s fresh elements |
| Vectors.Default | include/utmatrix.h:27 | The default-argument vector is what the constructor yields for s = 10, si = 0 |
| Vectors.NewThenGet | include/utmatrix.h:62-74 | A fresh vector is readable exactly at logical indices si .. si+s-1 (within the index maximum), and each read yields the fresh contents |
| Vectors.Copy | include/utmatrix.h:76-86 | The element-by-element copy has the source's start index, size and elements, so it equals the source |
| Vectors.Assign | include/utmatrix.h:126-142 | The target takes the source's size (even a smaller one), start index and elements; self-assignment leaves the vector unchanged |
| Vectors.SourceSlot | include/utmatrix.h:94-103 | The access guard as written: indices above MAX_VECTOR_SIZE, or with offset above Size, fail with LargeIndex; indices before the start fail with NegativeLength; it accepts exactly start <= pos <= start + Size, one index too many |
| Vectors.SourceSlotAdmitsEnd | include/utmatrix.h:97 | The as-written guard accepts the index start + Size, whose slot lies outside the buffer |
| Vectors.Slot | include/utmatrix.h:94-103 | The strict guard accepts exactly start <= pos < start + Size with pos <= MAX_VECTOR_SIZE, and every accepted slot lies inside the buffer |
| Vectors.SlotDiffersOnlyAtEnd | include/utmatrix.h:97 | The as-written and strict guards disagree exactly at pos = start + Size, which the strict guard rejects with LargeIndex |
| Vectors.Get | include/utmatrix.h:94-103 | A read succeeds exactly on the valid logical range and yields the element at slot pos - start; otherwise it fails with the guard's error |
| Vectors.Set | include/utmatrix.h:94-103 | A write succeeds exactly on the valid logical range, stores x at slot pos - start, and leaves every other element, the size and the start index unchanged |
| Vectors.GetAfterSet | include/utmatrix.h:94-103 | A written value is read back at its index, and reads at every other index are unaffected |
| Vectors.SameVecIsEquality | include/utmatrix.h:105-118 | The header's equality (same start index, same size, equal elements everywhere) coincides with equality of the values, and is reflexive and symmetric |
| Vectors.Equal | include/utmatrix.h:105-118 | Counting the equal positions and comparing the count with Size decides exactly "same start index, same size and all elements equal" |
| Vectors.NotEqual | include/utmatrix.h:120-124 | `!=` holds exactly when the vectors are not equal |
| Vectors.ScalarOperator | include/utmatrix.h:144-169 | For a scalar that is not one of the receiver's own slots, scalar +, - and * replace every element e by e op val and keep size and start index; the receiver afterwards equals the returned value |
| Vectors.ScaledPlusMinusInverse | include/utmatrix.h:144-160 | Subtracting a scalar undoes adding it |
| Vectors.ScaledTimesOne | include/utmatrix.h:162-169 | Multiplying by the scalar 1 leaves the vector unchanged |
| Vectors.ScalarOperatorAliased | include/utmatrix.h:144-169 | With the scalar passed as a reference to slot k of the receiver, slots up to k are combined with the slot's old value and later slots with its updated value; the receiver afterwards equals the returned value |
| Vectors.AliasedScaledAgrees | include/utmatrix.h:144-169 | The aliased call equals the scalar operator on the slot's value when the slot is the last one or the operation leaves the slot's value unchanged |
| Vectors.AliasedScaledDiffers | include/utmatrix.h:144-151 | In general it does not: for [1, 1, 1], v + v[0] gives [2, 3, 3] where adding the scalar 1 gives [2, 2, 2] |
| Vectors.CombineElems | include/utmatrix.h:179-180 | The pairwise loop succeeds exactly when every element operation succeeds, and then element k is op(a[k], b[k]); a failure is the failure of some element pair |
| Vectors.Combine | include/utmatrix.h:171-197 | Differing sizes fail with DifferentSize and start indices are not compared; a result has the left operand's size and start index, with element k equal to op(a[k], b[k]) |
| Vectors.Add | include/utmatrix.h:171-183 | Fails (DifferentSize) exactly when the sizes differ; otherwise has the left operand's size and start index and element k is a[k] + b[k] |
| Vectors.Sub | include/utmatrix.h:185-197 | Fails (DifferentSize) exactly when the sizes differ; otherwise has the left operand's size and start index and element k is a[k] - b[k] |
| Vectors.SubUndoesAdd | include/utmatrix.h:171-197 | (a + b) - b == a for equally long vectors |
| Vectors.AddCommutesUpToStart | include/utmatrix.h:171-183 | a + b and b + a have the same elements and differ at most in the start index, which comes from the left operand |
| Vectors.Dot | include/utmatrix.h:199-213 | Fails (DifferentSize) exactly when the sizes differ; otherwise is the sum from 0 of the element products in index order |
| Vectors.DotSumCommutes | include/utmatrix.h:199-213 | For integers the dot product does not depend on the order of its operands |
| Matrices.New | include/utmatrix.h:245-255 | A negative size fails with NegativeLength and a size above MAX_MATRIX_SIZE with LargeIndex; otherwise the matrix has s rows, is triangular (start 0, row i of length s - i starting at i) and holds the fresh contents |
| Matrices.Default | include/utmatrix.h:221 | The default-argument matrix TMatrix() is triangular with ten rows |
| Matrices.Copy | include/utmatrix.h:257-266 | The copy equals the source and so keeps the triangular shape |
| Matrices.FromVector | include/utmatrix.h:268-271 | For every vector of rows, with no shape condition, the conversion adopts it unchanged |
| Matrices.ConversionAdoptsAnyShape | include/utmatrix.h:268-271 | One particular vector of rows, with a single row of length 0, is not triangular; since the conversion adopts any vector of rows, its result need not be triangular |
| Matrices.Equal | include/utmatrix.h:273-283 | Matrix equality holds exactly when the row counts and row start indices agree and every pair of rows is equal under the vector equality |
| Matrices.NotEqual | include/utmatrix.h:285-289 | `!=` holds exactly when the matrices are not equal |
| Matrices.Assign | include/utmatrix.h:291-303 | The target becomes the source, taking its row count even when smaller, and stays triangular when the source is |
| Matrices.Add | include/utmatrix.h:305-318 | Fails with DifferentSize when the row counts differ, or when two corresponding rows differ in length; otherwise row i is the row sum a[i] + b[i] |
| Matrices.Sub | include/utmatrix.h:320-334 | Fails with DifferentSize when the row counts differ, or when two corresponding rows differ in length; otherwise row i is the row difference a[i] - b[i] |
| Matrices.TriangularAdd | include/utmatrix.h:305-318 | For triangular operands, + fails exactly when the row counts differ; the sum is triangular and each stored cell is the sum of the cells |
| Matrices.TriangularSub | include/utmatrix.h:320-334 | For triangular operands, - fails exactly when the row counts differ; the difference is triangular and each stored cell is the difference of the cells |
| Matrices.SubUndoesAdd | include/utmatrix.h:305-334 | (a + b) - b == a for same-size triangular matrices |
| Matrices.Get | include/utmatrix.h:94-103 | m[i][j] succeeds exactly when i is in the logical range of the rows and j in the logical range of row i (both within the index maximum), and then yields the stored cell; a row index before the rows fails with NegativeLength, one past them or above the maximum with LargeIndex; in an existing row a bad column fails with that row's guard error (NegativeLength before its start, LargeIndex past its end) |
| Matrices.TriangularRows | include/utmatrix.h:94-103 | In a triangular matrix, m[i][j] with i < 0 fails with NegativeLength and with i >= Size fails with LargeIndex, whatever j |
| Matrices.Set | include/utmatrix.h:94-103 | m[i][j] = x succeeds exactly where m[i][j] can be read, is read back afterwards, and changes no other cell, row count or row start; a failed write reports the same error as the read of that cell |
| Matrices.TriangularCells | include/utmatrix.h:245-255 | In a triangular matrix whose size is within the index maximum, cell (i, j) of an existing row is addressable exactly when i <= j < Size; j < i fails with NegativeLength and j >= Size with LargeIndex |
| Matrices.SetKeepsTriangular | include/utmatrix.h:94-103 | Writing a cell keeps the matrix triangular |

## Left out

- Stream input and output (`operator>>` and `operator<<` at include/utmatrix.h:48-59 and 231-242) are I/O over `iostream`.
- The destructor (include/utmatrix.h:88-92) and `new[]`/`delete[]` are not modelled. Value semantics makes deep copy and independent storage hold by construction.
- The `this != &v` identity test in assignment is not modelled. Under value semantics, assigning a vector to itself yields the same value. `Vectors.Assign` states this.
- The element type is generic for construction, access, equality, copy and the shared shape of vector `+`/`-` (`Vectors.Combine`, which takes the element operator as a parameter). Scalar arithmetic and the dot product are modelled for `int` elements only. Vector `+`/`-` is instantiated for `int` elements and, in the matrix, for `Vec<int>` rows.
- 32-bit overflow is not modelled. This covers the elements, `pos - StartIndex` in access and the dot-product accumulator. All integers are mathematical.
- The contents of a freshly allocated buffer are indeterminate in the header. The model uses the single `fill` parameter for them.
- The members a matrix inherits but never uses as a matrix are not modelled: scalar operators, the dot product and `GetStartIndex` on the vector of rows.
- The matrix constructor's own `s < 0` test (include/utmatrix.h:250-251) is not a separate branch. It can never fire, because the base constructor has already thrown `NegativeLength`.

## Findings

| source | as written | input that shows it | evidently intended | confidence | as-written member | corrected member |
|---|---|---|---|---|---|---|
| include/utmatrix.h:97 | the upper access test is `pos - StartIndex > Size` | a vector with Size 3 and StartIndex 0, accessed at pos 3: the test passes and slot 3 of a 3-element buffer is read | `pos - StartIndex >= Size`, rejecting the index with LargeIndex | high (not executed) | Vectors.SourceSlot, Vectors.SourceSlotAdmitsEnd | Vectors.Slot, Vectors.SlotDiffersOnlyAtEnd |

`Vectors.Get`, `Vectors.Set` and the matrix cell access use the corrected
guard `Vectors.Slot`.
