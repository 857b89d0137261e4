/**
  The upper-triangular matrix TMatrix<ValType> of utmatrix.h. The header
  derives it from TVector<TVector<ValType>>; here a matrix holds that vector
  of rows and forwards equality, assignment, addition and subtraction to the
  vector operations, which recurse into the rows through the element
  operator. Row i of an N-matrix stores the columns i .. N-1: it has N - i
  elements and start index i, so the cell (i, j) lives at rows[i][j] and the
  lower triangle has no storage at all.
*/
module Matrices {
  import opened Results
  import V = Vectors

  /** Largest number of rows a matrix may be created with. */
  const MAX_MATRIX_SIZE: int := 10000

  /** The default argument of the constructor, TMatrix(int s = 10). */
  const DEFAULT_SIZE: nat := 10

  /** A matrix: its vector of rows. */
  datatype Matrix = Matrix(rows: V.Vec<V.Vec<int>>)
  {
    /** GetSize(): the number of rows. */
    function Size(): nat
    {
      rows.Size()
    }
  }

  /** Row i of an n-row upper-triangular matrix. */
  predicate TriangularRow(row: V.Vec<int>, n: int, i: int)
  {
    row.start == i && row.Size() == n - i
  }

  /** The shape every constructed matrix has: rows indexed from 0, and row i
      of length Size - i starting at index i. */
  predicate Triangular(m: Matrix)
  {
    && m.rows.start == 0
    && forall i :: 0 <= i < m.Size() ==> TriangularRow(m.rows.elems[i], m.Size(), i)
  }

  // ---------------------------------------------------------------------
  // Construction
  // ---------------------------------------------------------------------

  /** TMatrix(s). The base constructor first builds a vector of s default
      rows and throws for a negative or oversized length; the matrix then
      throws LargeIndex above MAX_MATRIX_SIZE (its own `s < 0` test can never
      fire, the base has already rejected that) and replaces row i by a
      fresh vector of s - i elements starting at i. `fill` stands for the
      unspecified contents of the fresh row buffers. */
  method New(s: int, fill: int) returns (r: Result<Matrix>)
    ensures s < 0 ==> r == Err(NegativeLength)
    ensures s > MAX_MATRIX_SIZE ==> r == Err(LargeIndex)
    ensures r.Ok? <==> 0 <= s <= MAX_MATRIX_SIZE
    ensures r.Ok? ==> r.value.Size() == s && Triangular(r.value)
    ensures r.Ok? ==> forall i, k :: 0 <= i < s && 0 <= k < s - i ==> r.value.rows.elems[i].elems[k] == fill
  {
    var base := V.New(s, 0, V.Default(fill));
    if base.Err? {
      return Err(base.error);
    }
    if s > MAX_MATRIX_SIZE {
      return Err(LargeIndex);
    }
    var rows := base.value;
    for i := 0 to s
      invariant rows.start == 0 && rows.Size() == s
      invariant forall k :: 0 <= k < i ==> TriangularRow(rows.elems[k], s, k)
      invariant forall k, c :: 0 <= k < i && 0 <= c < s - k ==> rows.elems[k].elems[c] == fill
    {
      var row := V.New(s - i, i, fill);
      rows := rows.(elems := rows.elems[i := row.value]);
    }
    r := Ok(Matrix(rows));
  }

  /** TMatrix() with its default argument s = 10: a triangular matrix of ten
      rows. */
  method Default(fill: int) returns (m: Matrix)
    ensures m.Size() == DEFAULT_SIZE && Triangular(m)
    ensures forall i, k :: 0 <= i < DEFAULT_SIZE && 0 <= k < DEFAULT_SIZE - i ==> m.rows.elems[i].elems[k] == fill
  {
    var r := New(DEFAULT_SIZE, fill);
    m := r.value;
  }

  /** The copy constructor TMatrix(const TMatrix&): the base copy, which
      copies every row in turn. */
  method Copy(m: Matrix) returns (c: Matrix)
    ensures c == m
    ensures c.Size() == m.Size()
    ensures Triangular(m) ==> Triangular(c)
  {
    var rows := V.Copy(m.rows);
    c := Matrix(rows);
  }

  /** The conversion constructor TMatrix(const TVector<TVector<ValType>>&):
      it adopts a copy of any vector of rows without checking its shape. */
  method FromVector(v: V.Vec<V.Vec<int>>) returns (m: Matrix)
    ensures m.rows == v
    ensures m.Size() == v.Size()
  {
    var rows := V.Copy(v);
    m := Matrix(rows);
  }

  /** Hence a converted matrix need not be triangular: one row of length 0
      is adopted as it is. */
  lemma ConversionAdoptsAnyShape()
    ensures !Triangular(Matrix(V.Vec(0, [V.Vec(0, [])])))
  {
    var m := Matrix(V.Vec(0, [V.Vec(0, [])]));
    assert !TriangularRow(m.rows.elems[0], m.Size(), 0);
  }

  // ---------------------------------------------------------------------
  // Equality and assignment
  // ---------------------------------------------------------------------

  /** operator==: the vector equality on the rows, whose element test is
      the row equality. */
  method Equal(a: Matrix, b: Matrix) returns (eq: bool)
    ensures eq <==> a == b
    ensures eq <==> && a.rows.start == b.rows.start
                    && a.Size() == b.Size()
                    && forall i :: 0 <= i < a.Size() ==> V.SameVec(a.rows.elems[i], b.rows.elems[i])
  {
    eq := V.Equal(a.rows, b.rows);
    forall i | 0 <= i < a.Size() && i < b.Size()
      ensures V.SameVec(a.rows.elems[i], b.rows.elems[i]) <==> a.rows.elems[i] == b.rows.elems[i]
    {
      V.SameVecIsEquality(a.rows.elems[i], b.rows.elems[i]);
    }
  }

  /** operator!=. */
  method NotEqual(a: Matrix, b: Matrix) returns (ne: bool)
    ensures ne <==> a != b
  {
    var eq := Equal(a, b);
    ne := !eq;
  }

  /** operator=: the vector assignment on the rows. The target takes the
      source's number of rows, even a smaller one, and a triangular source
      gives a triangular target. */
  method Assign(dst: Matrix, src: Matrix) returns (r: Matrix)
    ensures r == src
    ensures r.Size() == src.Size()
    ensures Triangular(src) ==> Triangular(r)
  {
    var rows := V.Assign(dst.rows, src.rows);
    r := Matrix(rows);
  }

  // ---------------------------------------------------------------------
  // Addition and subtraction
  // ---------------------------------------------------------------------

  /** operator+: the vector addition on the rows, whose element operator is
      the row addition. It fails when the row counts differ, and also when
      two corresponding rows differ in length. */
  function Add(a: Matrix, b: Matrix): (r: Result<Matrix>)
    ensures a.Size() != b.Size() ==> r == Err(DifferentSize)
    ensures r.Err? ==> r.error == DifferentSize
    ensures r.Ok? <==> && a.Size() == b.Size()
                       && forall i :: 0 <= i < a.Size() ==> a.rows.elems[i].Size() == b.rows.elems[i].Size()
    ensures r.Ok? ==> r.value.rows.start == a.rows.start && r.value.Size() == a.Size()
    ensures r.Ok? ==> forall i :: 0 <= i < a.Size() ==>
                        V.Add(a.rows.elems[i], b.rows.elems[i]) == Ok(r.value.rows.elems[i])
  {
    match V.Combine(a.rows, b.rows, V.Add)
    case Ok(rows) => Ok(Matrix(rows))
    case Err(e) => Err(e)
  }

  /** operator-: the vector subtraction on the rows. */
  function Sub(a: Matrix, b: Matrix): (r: Result<Matrix>)
    ensures a.Size() != b.Size() ==> r == Err(DifferentSize)
    ensures r.Err? ==> r.error == DifferentSize
    ensures r.Ok? <==> && a.Size() == b.Size()
                       && forall i :: 0 <= i < a.Size() ==> a.rows.elems[i].Size() == b.rows.elems[i].Size()
    ensures r.Ok? ==> r.value.rows.start == a.rows.start && r.value.Size() == a.Size()
    ensures r.Ok? ==> forall i :: 0 <= i < a.Size() ==>
                        V.Sub(a.rows.elems[i], b.rows.elems[i]) == Ok(r.value.rows.elems[i])
  {
    match V.Combine(a.rows, b.rows, V.Sub)
    case Ok(rows) => Ok(Matrix(rows))
    case Err(e) => Err(e)
  }

  /** On triangular matrices, + fails exactly when the row counts differ;
      otherwise the sum is triangular and each stored cell is the sum of
      the two cells. */
  lemma TriangularAdd(a: Matrix, b: Matrix)
    requires Triangular(a) && Triangular(b)
    ensures Add(a, b).Ok? <==> a.Size() == b.Size()
    ensures Add(a, b).Ok? ==> Triangular(Add(a, b).value)
    ensures Add(a, b).Ok? ==> forall i, k :: 0 <= i < a.Size() && 0 <= k < a.Size() - i ==>
              Add(a, b).value.rows.elems[i].elems[k] == a.rows.elems[i].elems[k] + b.rows.elems[i].elems[k]
  {
    if a.Size() == b.Size() {
      assert forall i :: 0 <= i < a.Size() ==> a.rows.elems[i].Size() == b.rows.elems[i].Size();
    }
  }

  /** On triangular matrices, - fails exactly when the row counts differ;
      otherwise the difference is triangular and each stored cell is the
      difference of the two cells. */
  lemma TriangularSub(a: Matrix, b: Matrix)
    requires Triangular(a) && Triangular(b)
    ensures Sub(a, b).Ok? <==> a.Size() == b.Size()
    ensures Sub(a, b).Ok? ==> Triangular(Sub(a, b).value)
    ensures Sub(a, b).Ok? ==> forall i, k :: 0 <= i < a.Size() && 0 <= k < a.Size() - i ==>
              Sub(a, b).value.rows.elems[i].elems[k] == a.rows.elems[i].elems[k] - b.rows.elems[i].elems[k]
  {
    if a.Size() == b.Size() {
      assert forall i :: 0 <= i < a.Size() ==> a.rows.elems[i].Size() == b.rows.elems[i].Size();
    }
  }

  /** Subtracting b undoes adding b, row by row. */
  lemma SubUndoesAdd(a: Matrix, b: Matrix)
    requires Triangular(a) && Triangular(b) && a.Size() == b.Size()
    ensures Add(a, b).Ok?
    ensures Sub(Add(a, b).value, b) == Ok(a)
  {
    TriangularAdd(a, b);
    var s := Add(a, b).value;
    TriangularSub(s, b);
    var d := Sub(s, b).value;
    forall i | 0 <= i < a.Size()
      ensures d.rows.elems[i] == a.rows.elems[i]
    {
      V.SubUndoesAdd(a.rows.elems[i], b.rows.elems[i]);
    }
    assert d.rows.elems == a.rows.elems;
  }

  // ---------------------------------------------------------------------
  // Cell access m[i][j]
  // ---------------------------------------------------------------------

  /** Reading m[i][j]: the row access, then the element access in that row. */
  function Get(m: Matrix, i: int, j: int): (r: Result<int>)
    ensures r.Ok? <==> && m.rows.start <= i < m.rows.start + m.Size() && i <= V.MAX_VECTOR_SIZE
                       && var row := m.rows.elems[i - m.rows.start];
                          row.start <= j < row.start + row.Size() && j <= V.MAX_VECTOR_SIZE
    ensures i > V.MAX_VECTOR_SIZE || i >= m.rows.start + m.Size() ==> r == Err(LargeIndex)
    ensures i <= V.MAX_VECTOR_SIZE && i < m.rows.start ==> r == Err(NegativeLength)
    ensures r.Err? && m.rows.start <= i < m.rows.start + m.Size() && i <= V.MAX_VECTOR_SIZE ==>
              r.error == V.Slot(m.rows.elems[i - m.rows.start], j).error
    ensures r.Ok? ==> m.rows.start <= i < m.rows.start + m.Size()
    ensures r.Ok? ==> var row := m.rows.elems[i - m.rows.start];
                      row.start <= j < row.start + row.Size() && r.value == row.elems[j - row.start]
  {
    match V.Get(m.rows, i)
    case Err(e) => Err(e)
    case Ok(row) => V.Get(row, j)
  }

  /** Writing m[i][j] = x: the row is updated and written back in place. */
  function Set(m: Matrix, i: int, j: int, x: int): (r: Result<Matrix>)
    ensures r.Ok? <==> Get(m, i, j).Ok?
    ensures r.Err? ==> Get(m, i, j) == Err(r.error)
    ensures r.Ok? ==> r.value.Size() == m.Size() && r.value.rows.start == m.rows.start
    ensures r.Ok? ==> Get(r.value, i, j) == Ok(x)
    ensures r.Ok? ==> forall p, q :: p != i || q != j ==> Get(r.value, p, q) == Get(m, p, q)
  {
    match V.Get(m.rows, i)
    case Err(e) => Err(e)
    case Ok(row) =>
      match V.Set(row, j, x)
      case Err(e) => Err(e)
      case Ok(row') => Ok(Matrix(m.rows.(elems := m.rows.elems[i - m.rows.start := row'])))
  }

  /** In a triangular matrix, a row index before the first row is rejected
      as NegativeLength and one past the last row as LargeIndex, whatever
      the column. */
  lemma TriangularRows(m: Matrix, i: int, j: int)
    requires Triangular(m)
    ensures i < 0 ==> Get(m, i, j) == Err(NegativeLength)
    ensures i >= m.Size() ==> Get(m, i, j) == Err(LargeIndex)
  {
  }

  /** In a triangular matrix whose columns stay within the index maximum,
      the cell (i, j) of an existing row i is addressable exactly when i <= j < Size; a column
      left of the diagonal is rejected as NegativeLength and one past the
      last column as LargeIndex. */
  lemma TriangularCells(m: Matrix, i: int, j: int)
    requires Triangular(m) && m.Size() <= V.MAX_VECTOR_SIZE
    requires 0 <= i < m.Size()
    ensures Get(m, i, j).Ok? <==> i <= j < m.Size()
    ensures j < i ==> Get(m, i, j) == Err(NegativeLength)
    ensures j >= m.Size() ==> Get(m, i, j) == Err(LargeIndex)
  {
  }

  /** Writing a cell keeps the triangular shape. */
  lemma SetKeepsTriangular(m: Matrix, i: int, j: int, x: int)
    requires Triangular(m) && Set(m, i, j, x).Ok?
    ensures Triangular(Set(m, i, j, x).value)
  {
  }
}
