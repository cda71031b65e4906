// Offsets of the elements of a real-valued matrix in its flat storage buffer
// (src/pmc/pla_matrix_types.h, lines 26-73).
//
// The default layout is row-major. A matrix whose transposed bit is set keeps
// its buffer and is read column-major against its swapped extents, so that a
// transpose never moves data. The macros check no bounds; their arguments are
// modelled as unbounded integers and the in-range conditions appear only in
// the lemmas that need them.

module MatrixLayout {
  import opened MatrixFlags

  /** INDEX_MIN: the smaller argument, the first one on a tie. */
  function IndexMin(a: int, b: int): (r: int)
    ensures r <= a && r <= b
    ensures r == a || r == b
  {
    if a <= b then a else b
  }

  /** INDEX_MAX: the larger argument, the first one on a tie. */
  function IndexMax(a: int, b: int): (r: int)
    ensures r >= a && r >= b
    ensures r == a || r == b
  {
    if a >= b then a else b
  }

  /** (row, col) addresses an element of a numRows x numCols matrix. */
  predicate InRange(numRows: int, numCols: int, row: int, col: int)
  {
    0 <= row < numRows && 0 <= col < numCols
  }

  // ---------------------------------------------------------------------------
  // Arithmetic facts the layout proofs rest on.

  lemma {:induction false} MulMonotone(a: int, b: int, n: int)
    requires a <= b && 0 <= n
    ensures a * n <= b * n
  {
    assert b * n - a * n == (b - a) * n;
  }

  /** A quotient and a remainder below the divisor determine the number uniquely. */
  lemma {:induction false} QuotientRemainderUnique(d: int, q1: int, m1: int, q2: int, m2: int)
    requires 0 <= m1 < d && 0 <= m2 < d
    requires q1 * d + m1 == q2 * d + m2
    ensures q1 == q2 && m1 == m2
  {
    if q1 < q2 {
      assert (q1 + 1) * d == q1 * d + d;
      MulMonotone(q1 + 1, q2, d);
    } else if q2 < q1 {
      assert (q2 + 1) * d == q2 * d + d;
      MulMonotone(q2 + 1, q1, d);
    }
  }

  /** q * d + m lies in [0, n * d) when q < n and m < d. */
  lemma {:induction false} QuotientRemainderBound(n: int, d: int, q: int, m: int)
    requires 0 <= q < n && 0 <= m < d
    ensures 0 <= q * d + m < n * d
  {
    MulMonotone(0, q, d);
    MulMonotone(q + 1, n, d);
    assert (q + 1) * d == q * d + d;
  }

  // ---------------------------------------------------------------------------
  // The index macros.

  /** INDEX_XY_ROWMAJOR: rows are contiguous, each numCols long. */
  function IndexXYRowMajor(numRows: int, numCols: int, row: int, col: int): int
  {
    row * numCols + col
  }

  /** INDEX_XY_COLMAJOR: columns are contiguous, each numRows long. */
  function IndexXYColMajor(numRows: int, numCols: int, row: int, col: int): int
  {
    col * numRows + row
  }

  /** INDEX_XY: column-major when the transposed bit is set, row-major otherwise. */
  function IndexXY(flags: Flags, rowSize: int, colSize: int, row: int, col: int): int
  {
    if IsTransposed(flags) != 0 then IndexXYColMajor(rowSize, colSize, row, col)
    else IndexXYRowMajor(rowSize, colSize, row, col)
  }

  /** An element of the matrix has a row-major offset inside a buffer of numRows * numCols slots. */
  lemma RowMajorBounds(numRows: int, numCols: int, row: int, col: int)
    ensures InRange(numRows, numCols, row, col) ==>
      0 <= IndexXYRowMajor(numRows, numCols, row, col) < numRows * numCols
  {
    if InRange(numRows, numCols, row, col) {
      QuotientRemainderBound(numRows, numCols, row, col);
    }
  }

  /** An element of the matrix has a column-major offset inside a buffer of numRows * numCols slots. */
  lemma ColMajorBounds(numRows: int, numCols: int, row: int, col: int)
    ensures InRange(numRows, numCols, row, col) ==>
      0 <= IndexXYColMajor(numRows, numCols, row, col) < numRows * numCols
  {
    if InRange(numRows, numCols, row, col) {
      QuotientRemainderBound(numCols, numRows, col, row);
      assert numCols * numRows == numRows * numCols;
    }
  }

  /** Distinct elements of a matrix have distinct row-major offsets. */
  lemma RowMajorInjective(numRows: int, numCols: int, r1: int, c1: int, r2: int, c2: int)
    requires InRange(numRows, numCols, r1, c1) && InRange(numRows, numCols, r2, c2)
    ensures IndexXYRowMajor(numRows, numCols, r1, c1) == IndexXYRowMajor(numRows, numCols, r2, c2)
      <==> r1 == r2 && c1 == c2
  {
    if IndexXYRowMajor(numRows, numCols, r1, c1) == IndexXYRowMajor(numRows, numCols, r2, c2) {
      QuotientRemainderUnique(numCols, r1, c1, r2, c2);
    }
  }

  /** Distinct elements of a matrix have distinct column-major offsets. */
  lemma ColMajorInjective(numRows: int, numCols: int, r1: int, c1: int, r2: int, c2: int)
    requires InRange(numRows, numCols, r1, c1) && InRange(numRows, numCols, r2, c2)
    ensures IndexXYColMajor(numRows, numCols, r1, c1) == IndexXYColMajor(numRows, numCols, r2, c2)
      <==> r1 == r2 && c1 == c2
  {
    if IndexXYColMajor(numRows, numCols, r1, c1) == IndexXYColMajor(numRows, numCols, r2, c2) {
      QuotientRemainderUnique(numRows, c1, r1, c2, r2);
    }
  }

  /** Every slot of a numRows * numCols buffer holds some element in row-major order. */
  lemma RowMajorOnto(numRows: int, numCols: int, k: int)
    requires 0 <= numRows && 0 <= numCols
    requires 0 <= k < numRows * numCols
    ensures exists r, c :: InRange(numRows, numCols, r, c) && IndexXYRowMajor(numRows, numCols, r, c) == k
  {
    assert 0 < numCols by {
      if numCols <= 0 { MulMonotone(numCols, 0, numRows); assert false; }
    }
    var r, c := k / numCols, k % numCols;
    if numRows <= r {
      MulMonotone(numRows, r, numCols);
      assert false;
    }
    assert IndexXYRowMajor(numRows, numCols, r, c) == k;
  }

  /** Every slot of a numRows * numCols buffer holds some element in column-major order. */
  lemma ColMajorOnto(numRows: int, numCols: int, k: int)
    requires 0 <= numRows && 0 <= numCols
    requires 0 <= k < numRows * numCols
    ensures exists r, c :: InRange(numRows, numCols, r, c) && IndexXYColMajor(numRows, numCols, r, c) == k
  {
    assert 0 < numRows by {
      if numRows <= 0 { MulMonotone(numRows, 0, numCols); assert false; }
    }
    var r, c := k % numRows, k / numRows;
    if numCols <= c {
      MulMonotone(numCols, c, numRows);
      assert false;
    }
    assert IndexXYColMajor(numRows, numCols, r, c) == k;
  }

  /** Reading a buffer column-major against swapped extents and coordinates is reading it row-major. */
  lemma ColMajorIsSwappedRowMajor(numRows: int, numCols: int, row: int, col: int)
    ensures IndexXYColMajor(numCols, numRows, col, row) == IndexXYRowMajor(numRows, numCols, row, col)
  {
  }

  /** Transpose equivalence: setting the transposed bit and swapping extents and coordinates keeps the slot. */
  lemma TransposedIndexXY(flags: Flags, numRows: int, numCols: int, row: int, col: int)
    ensures IndexXY(flags | FlagTransposed, numCols, numRows, col, row)
      == IndexXY(flags & !FlagTransposed, numRows, numCols, row, col)
  {
  }

  /** A 3 x 4 matrix keeps element (2, 3) in slot 11, and so does its transpose, a 4 x 3 matrix, for (3, 2). */
  lemma TransposedIndexXYExample()
    ensures IndexXY(0, 3, 4, 2, 3) == 11
    ensures IndexXY(FlagTransposed, 4, 3, 3, 2) == 11
  {
  }

  /** INDEX_XY reads no flag but the transposed bit. */
  lemma IndexXYOnlyReadsTransposedBit(f1: Flags, f2: Flags, rowSize: int, colSize: int, row: int, col: int)
    requires f1 & FlagTransposed == f2 & FlagTransposed
    ensures IndexXY(f1, rowSize, colSize, row, col) == IndexXY(f2, rowSize, colSize, row, col)
  {
  }

  // ---------------------------------------------------------------------------
  // The ITEM macros. Each is `(s)[offset]`, an lvalue: it is read through
  // Item and written through SetItem.

  /** Which ITEM_XY* macro is used: a fixed layout or the one the flags select. */
  datatype Layout = RowMajor | ColMajor | ByFlags(flags: Flags)

  /** Whether a layout resolves to the row-major formulas. */
  predicate IsRowMajor(layout: Layout)
  {
    layout.RowMajor? || (layout.ByFlags? && IsTransposed(layout.flags) == 0)
  }

  /** The offset the chosen macro computes. */
  function Index(layout: Layout, rowSize: int, colSize: int, row: int, col: int): (k: int)
    ensures InRange(rowSize, colSize, row, col) ==> 0 <= k < rowSize * colSize
  {
    RowMajorBounds(rowSize, colSize, row, col);
    ColMajorBounds(rowSize, colSize, row, col);
    match layout
    case RowMajor => IndexXYRowMajor(rowSize, colSize, row, col)
    case ColMajor => IndexXYColMajor(rowSize, colSize, row, col)
    case ByFlags(flags) => IndexXY(flags, rowSize, colSize, row, col)
  }

  /** Distinct elements have distinct offsets in every layout. */
  lemma IndexInjective(layout: Layout, rowSize: int, colSize: int, r1: int, c1: int, r2: int, c2: int)
    requires InRange(rowSize, colSize, r1, c1) && InRange(rowSize, colSize, r2, c2)
    ensures Index(layout, rowSize, colSize, r1, c1) == Index(layout, rowSize, colSize, r2, c2)
      <==> r1 == r2 && c1 == c2
  {
    if IsRowMajor(layout) {
      RowMajorInjective(rowSize, colSize, r1, c1, r2, c2);
    } else {
      ColMajorInjective(rowSize, colSize, r1, c1, r2, c2);
    }
  }

  /** ITEM_XY_ROWMAJOR, ITEM_XY_COLMAJOR and ITEM_XY read as an rvalue. */
  function Item<T>(s: seq<T>, layout: Layout, rowSize: int, colSize: int, row: int, col: int): T
    requires 0 <= Index(layout, rowSize, colSize, row, col) < |s|
  {
    s[Index(layout, rowSize, colSize, row, col)]
  }

  /** ITEM_XY_ROWMAJOR, ITEM_XY_COLMAJOR and ITEM_XY assigned to as an lvalue. */
  method SetItem<T>(a: array<T>, layout: Layout, rowSize: int, colSize: int, row: int, col: int, v: T)
    requires 0 <= Index(layout, rowSize, colSize, row, col) < a.Length
    modifies a
    ensures a[..] == old(a[..])[Index(layout, rowSize, colSize, row, col) := v]
    ensures Item(a[..], layout, rowSize, colSize, row, col) == v
  {
    a[Index(layout, rowSize, colSize, row, col)] := v;
  }

  /** Writing one element of a matrix changes that element and no other. */
  lemma ReadAfterWrite<T>(s: seq<T>, layout: Layout, rowSize: int, colSize: int,
                          row: int, col: int, v: T, r: int, c: int)
    requires rowSize * colSize <= |s|
    requires InRange(rowSize, colSize, row, col) && InRange(rowSize, colSize, r, c)
    ensures Item(s[Index(layout, rowSize, colSize, row, col) := v], layout, rowSize, colSize, r, c)
      == if r == row && c == col then v else Item(s, layout, rowSize, colSize, r, c)
  {
    IndexInjective(layout, rowSize, colSize, row, col, r, c);
  }
}
