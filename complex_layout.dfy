// Offsets of the real and imaginary parts of the elements of a complex-valued
// matrix in an interleaved storage buffer (src/pmc/pla_matrix_types.h,
// lines 75-134).
//
// The formulas are kept exactly as written: the outer index (the row in
// row-major, the column in column-major) is scaled by 2 but the inner one is
// not, so the real slot of one element is the imaginary slot of its
// neighbour, unlike the one private [RI] pair per element the header's
// comment draws. The lemmas ComplexRowMajorOverlap and ComplexColMajorOverlap
// say precisely which slots are shared.

module ComplexLayout {
  import opened MatrixFlags
  import opened MatrixLayout

  /** R_INDEX_XY_ROWMAJOR */
  function RIndexXYRowMajor(numRows: int, numCols: int, row: int, col: int): int
  {
    row * numCols * 2 + col
  }

  /** I_INDEX_XY_ROWMAJOR */
  function IIndexXYRowMajor(numRows: int, numCols: int, row: int, col: int): int
  {
    row * numCols * 2 + col + 1
  }

  /** R_INDEX_XY_COLMAJOR, grouped `(col) * (numrows) * 2`. */
  function RIndexXYColMajor(numRows: int, numCols: int, row: int, col: int): int
  {
    col * numRows * 2 + row
  }

  /** I_INDEX_XY_COLMAJOR, grouped `(col) * (numrows * 2)`. */
  function IIndexXYColMajor(numRows: int, numCols: int, row: int, col: int): int
  {
    col * (numRows * 2) + row + 1
  }

  /** R_INDEX_XY: column-major when the transposed bit is set, row-major otherwise. */
  function RIndexXY(flags: Flags, rowSize: int, colSize: int, row: int, col: int): int
  {
    if IsTransposed(flags) != 0 then RIndexXYColMajor(rowSize, colSize, row, col)
    else RIndexXYRowMajor(rowSize, colSize, row, col)
  }

  /** I_INDEX_XY: column-major when the transposed bit is set, row-major otherwise. */
  function IIndexXY(flags: Flags, rowSize: int, colSize: int, row: int, col: int): int
  {
    if IsTransposed(flags) != 0 then IIndexXYColMajor(rowSize, colSize, row, col)
    else IIndexXYRowMajor(rowSize, colSize, row, col)
  }

  /** Both halves of an element lie inside a row-major buffer of 2 * numRows * numCols slots. */
  lemma ComplexRowMajorBounds(numRows: int, numCols: int, row: int, col: int)
    ensures InRange(numRows, numCols, row, col) ==>
      0 <= RIndexXYRowMajor(numRows, numCols, row, col) < 2 * numRows * numCols &&
      0 <= IIndexXYRowMajor(numRows, numCols, row, col) < 2 * numRows * numCols
  {
    if InRange(numRows, numCols, row, col) {
      QuotientRemainderBound(numRows, numCols * 2, row, col + 1);
      assert row * numCols * 2 == row * (numCols * 2);
      assert numRows * (numCols * 2) == 2 * numRows * numCols;
    }
  }

  /** Both halves of an element lie inside a column-major buffer of 2 * numRows * numCols slots. */
  lemma ComplexColMajorBounds(numRows: int, numCols: int, row: int, col: int)
    ensures InRange(numRows, numCols, row, col) ==>
      0 <= RIndexXYColMajor(numRows, numCols, row, col) < 2 * numRows * numCols &&
      0 <= IIndexXYColMajor(numRows, numCols, row, col) < 2 * numRows * numCols
  {
    if InRange(numRows, numCols, row, col) {
      QuotientRemainderBound(numCols, numRows * 2, col, row + 1);
      assert col * numRows * 2 == col * (numRows * 2);
      assert numCols * (numRows * 2) == 2 * numRows * numCols;
    }
  }

  /** The real or the imaginary half of a complex element. */
  datatype Part = Re | Im

  /** The offset the chosen R_/I_ index macro computes. */
  function ComplexIndex(layout: Layout, part: Part, rowSize: int, colSize: int, row: int, col: int): (k: int)
    ensures InRange(rowSize, colSize, row, col) ==> 0 <= k < 2 * rowSize * colSize
  {
    ComplexRowMajorBounds(rowSize, colSize, row, col);
    ComplexColMajorBounds(rowSize, colSize, row, col);
    match (layout, part)
    case (RowMajor, Re) => RIndexXYRowMajor(rowSize, colSize, row, col)
    case (RowMajor, Im) => IIndexXYRowMajor(rowSize, colSize, row, col)
    case (ColMajor, Re) => RIndexXYColMajor(rowSize, colSize, row, col)
    case (ColMajor, Im) => IIndexXYColMajor(rowSize, colSize, row, col)
    case (ByFlags(flags), Re) => RIndexXY(flags, rowSize, colSize, row, col)
    case (ByFlags(flags), Im) => IIndexXY(flags, rowSize, colSize, row, col)
  }

  /** In every layout the imaginary part sits right after the real part, despite the two groupings. */
  lemma ImagFollowsReal(layout: Layout, rowSize: int, colSize: int, row: int, col: int)
    ensures ComplexIndex(layout, Im, rowSize, colSize, row, col)
      == ComplexIndex(layout, Re, rowSize, colSize, row, col) + 1
  {
    assert col * (rowSize * 2) == col * rowSize * 2;
  }

  lemma RIndexXYRowMajorInjective(numRows: int, numCols: int, r1: int, c1: int, r2: int, c2: int)
    requires InRange(numRows, numCols, r1, c1) && InRange(numRows, numCols, r2, c2)
    requires RIndexXYRowMajor(numRows, numCols, r1, c1) == RIndexXYRowMajor(numRows, numCols, r2, c2)
    ensures r1 == r2 && c1 == c2
  {
    var d := numCols * 2;
    assert RIndexXYRowMajor(numRows, numCols, r1, c1) == r1 * d + c1;
    assert RIndexXYRowMajor(numRows, numCols, r2, c2) == r2 * d + c2;
    QuotientRemainderUnique(d, r1, c1, r2, c2);
  }

  lemma RIndexXYColMajorInjective(numRows: int, numCols: int, r1: int, c1: int, r2: int, c2: int)
    requires InRange(numRows, numCols, r1, c1) && InRange(numRows, numCols, r2, c2)
    requires RIndexXYColMajor(numRows, numCols, r1, c1) == RIndexXYColMajor(numRows, numCols, r2, c2)
    ensures r1 == r2 && c1 == c2
  {
    var d := numRows * 2;
    assert RIndexXYColMajor(numRows, numCols, r1, c1) == c1 * d + r1;
    assert RIndexXYColMajor(numRows, numCols, r2, c2) == c2 * d + r2;
    QuotientRemainderUnique(d, c1, r1, c2, r2);
  }

  /** The real parts of distinct elements are stored in distinct slots, and so are the imaginary parts. */
  lemma ComplexIndexInjective(layout: Layout, part: Part, rowSize: int, colSize: int,
                              r1: int, c1: int, r2: int, c2: int)
    requires InRange(rowSize, colSize, r1, c1) && InRange(rowSize, colSize, r2, c2)
    ensures ComplexIndex(layout, part, rowSize, colSize, r1, c1) == ComplexIndex(layout, part, rowSize, colSize, r2, c2)
      <==> r1 == r2 && c1 == c2
  {
    ImagFollowsReal(layout, rowSize, colSize, r1, c1);
    ImagFollowsReal(layout, rowSize, colSize, r2, c2);
    var re1 := ComplexIndex(layout, Re, rowSize, colSize, r1, c1);
    var re2 := ComplexIndex(layout, Re, rowSize, colSize, r2, c2);
    if re1 == re2 {
      if IsRowMajor(layout) {
        assert re1 == RIndexXYRowMajor(rowSize, colSize, r1, c1) && re2 == RIndexXYRowMajor(rowSize, colSize, r2, c2);
        RIndexXYRowMajorInjective(rowSize, colSize, r1, c1, r2, c2);
      } else {
        assert re1 == RIndexXYColMajor(rowSize, colSize, r1, c1) && re2 == RIndexXYColMajor(rowSize, colSize, r2, c2);
        RIndexXYColMajorInjective(rowSize, colSize, r1, c1, r2, c2);
      }
    }
  }

  /**
   * Row-major: the real slot of (r1, c1) is the imaginary slot of (r2, c2)
   * exactly when they lie in the same row and c1 is the next column after c2.
   */
  lemma ComplexRowMajorOverlap(numRows: int, numCols: int, r1: int, c1: int, r2: int, c2: int)
    requires InRange(numRows, numCols, r1, c1) && InRange(numRows, numCols, r2, c2)
    ensures RIndexXYRowMajor(numRows, numCols, r1, c1) == IIndexXYRowMajor(numRows, numCols, r2, c2)
      <==> r1 == r2 && c1 == c2 + 1
  {
    var d := numCols * 2;
    assert RIndexXYRowMajor(numRows, numCols, r1, c1) == r1 * d + c1;
    assert IIndexXYRowMajor(numRows, numCols, r2, c2) == r2 * d + (c2 + 1);
    if r1 * d + c1 == r2 * d + (c2 + 1) {
      QuotientRemainderUnique(d, r1, c1, r2, c2 + 1);
    }
  }

  /**
   * Column-major: the real slot of (r1, c1) is the imaginary slot of (r2, c2)
   * exactly when they lie in the same column and r1 is the next row after r2.
   */
  lemma ComplexColMajorOverlap(numRows: int, numCols: int, r1: int, c1: int, r2: int, c2: int)
    requires InRange(numRows, numCols, r1, c1) && InRange(numRows, numCols, r2, c2)
    ensures RIndexXYColMajor(numRows, numCols, r1, c1) == IIndexXYColMajor(numRows, numCols, r2, c2)
      <==> c1 == c2 && r1 == r2 + 1
  {
    var d := numRows * 2;
    assert RIndexXYColMajor(numRows, numCols, r1, c1) == c1 * d + r1;
    assert IIndexXYColMajor(numRows, numCols, r2, c2) == c2 * d + (r2 + 1);
    if c1 * d + r1 == c2 * d + (r2 + 1) {
      QuotientRemainderUnique(d, c1, r1, c2, r2 + 1);
    }
  }

  /** A 2 x 2 row-major complex matrix keeps element (1, 1) in slots 5 and 6; slot 1 is both the real part of (0, 1) and the imaginary part of (0, 0). */
  lemma ComplexRowMajorExample()
    ensures RIndexXYRowMajor(2, 2, 1, 1) == 5 && IIndexXYRowMajor(2, 2, 1, 1) == 6
    ensures RIndexXYRowMajor(2, 2, 0, 1) == IIndexXYRowMajor(2, 2, 0, 0) == 1
  {
  }

  /** Transpose equivalence for both halves of a complex element. */
  lemma TransposedComplexIndexXY(flags: Flags, numRows: int, numCols: int, row: int, col: int)
    ensures RIndexXY(flags | FlagTransposed, numCols, numRows, col, row)
      == RIndexXY(flags & !FlagTransposed, numRows, numCols, row, col)
    ensures IIndexXY(flags | FlagTransposed, numCols, numRows, col, row)
      == IIndexXY(flags & !FlagTransposed, numRows, numCols, row, col)
  {
    assert IsTransposed(flags | FlagTransposed) != 0 && IsTransposed(flags & !FlagTransposed) == 0;
    ComplexColMajorIsSwappedRowMajor(numRows, numCols, row, col);
  }

  /** Column-major complex offsets against swapped extents and coordinates are the row-major ones. */
  lemma ComplexColMajorIsSwappedRowMajor(numRows: int, numCols: int, row: int, col: int)
    ensures RIndexXYColMajor(numCols, numRows, col, row) == RIndexXYRowMajor(numRows, numCols, row, col)
    ensures IIndexXYColMajor(numCols, numRows, col, row) == IIndexXYRowMajor(numRows, numCols, row, col)
  {
    assert row * (numCols * 2) == row * numCols * 2;
  }

  /** R_INDEX_XY and I_INDEX_XY read no flag but the transposed bit. */
  lemma ComplexIndexXYOnlyReadsTransposedBit(f1: Flags, f2: Flags, rowSize: int, colSize: int, row: int, col: int)
    requires f1 & FlagTransposed == f2 & FlagTransposed
    ensures RIndexXY(f1, rowSize, colSize, row, col) == RIndexXY(f2, rowSize, colSize, row, col)
    ensures IIndexXY(f1, rowSize, colSize, row, col) == IIndexXY(f2, rowSize, colSize, row, col)
  {
  }

  // ---------------------------------------------------------------------------
  // The R_/I_ITEM macros, `(s)[offset]` lvalues like their real counterparts.

  /** R_ITEM_XY* and I_ITEM_XY* read as an rvalue. */
  function ComplexItem<T>(s: seq<T>, layout: Layout, part: Part, rowSize: int, colSize: int, row: int, col: int): T
    requires 0 <= ComplexIndex(layout, part, rowSize, colSize, row, col) < |s|
  {
    s[ComplexIndex(layout, part, rowSize, colSize, row, col)]
  }

  /** R_ITEM_XY* and I_ITEM_XY* assigned to as an lvalue. */
  method SetComplexItem<T>(a: array<T>, layout: Layout, part: Part, rowSize: int, colSize: int,
                           row: int, col: int, v: T)
    requires 0 <= ComplexIndex(layout, part, rowSize, colSize, row, col) < a.Length
    modifies a
    ensures a[..] == old(a[..])[ComplexIndex(layout, part, rowSize, colSize, row, col) := v]
    ensures ComplexItem(a[..], layout, part, rowSize, colSize, row, col) == v
  {
    a[ComplexIndex(layout, part, rowSize, colSize, row, col)] := v;
  }

  /** The half of an element that is not `p`. */
  function OtherPart(p: Part): (q: Part)
    ensures q != p
  {
    match p
    case Re => Im
    case Im => Re
  }

  /**
   * The other half of element (r, c) is stored in the slot of half `part` of
   * element (row, col): in row-major order the two are neighbours in a row,
   * in column-major order neighbours in a column, the real half belonging to
   * the later one.
   */
  predicate SharesOtherHalf(layout: Layout, part: Part, row: int, col: int, r: int, c: int)
  {
    if IsRowMajor(layout) then
      r == row && (if part == Re then col == c + 1 else c == col + 1)
    else
      c == col && (if part == Re then row == r + 1 else r == row + 1)
  }

  /** Exactly the neighbour SharesOtherHalf names has its other half in a given slot. */
  lemma CrossSlot(layout: Layout, part: Part, rowSize: int, colSize: int, row: int, col: int, r: int, c: int)
    requires InRange(rowSize, colSize, row, col) && InRange(rowSize, colSize, r, c)
    ensures ComplexIndex(layout, OtherPart(part), rowSize, colSize, r, c)
        == ComplexIndex(layout, part, rowSize, colSize, row, col)
      <==> SharesOtherHalf(layout, part, row, col, r, c)
  {
    if IsRowMajor(layout) {
      assert ComplexIndex(layout, Re, rowSize, colSize, row, col) == RIndexXYRowMajor(rowSize, colSize, row, col);
      assert ComplexIndex(layout, Im, rowSize, colSize, row, col) == IIndexXYRowMajor(rowSize, colSize, row, col);
      assert ComplexIndex(layout, Re, rowSize, colSize, r, c) == RIndexXYRowMajor(rowSize, colSize, r, c);
      assert ComplexIndex(layout, Im, rowSize, colSize, r, c) == IIndexXYRowMajor(rowSize, colSize, r, c);
      if part == Re {
        ComplexRowMajorOverlap(rowSize, colSize, row, col, r, c);
      } else {
        ComplexRowMajorOverlap(rowSize, colSize, r, c, row, col);
      }
    } else {
      assert ComplexIndex(layout, Re, rowSize, colSize, row, col) == RIndexXYColMajor(rowSize, colSize, row, col);
      assert ComplexIndex(layout, Im, rowSize, colSize, row, col) == IIndexXYColMajor(rowSize, colSize, row, col);
      assert ComplexIndex(layout, Re, rowSize, colSize, r, c) == RIndexXYColMajor(rowSize, colSize, r, c);
      assert ComplexIndex(layout, Im, rowSize, colSize, r, c) == IIndexXYColMajor(rowSize, colSize, r, c);
      if part == Re {
        ComplexColMajorOverlap(rowSize, colSize, row, col, r, c);
      } else {
        ComplexColMajorOverlap(rowSize, colSize, r, c, row, col);
      }
    }
  }

  /**
   * Writing one half of an element leaves the same half of every other
   * element, and the other half of the element itself, unchanged; the other
   * half of an element changes exactly when it is the neighbour whose slot
   * the written half shares.
   */
  lemma ComplexReadAfterWrite<T>(s: seq<T>, layout: Layout, part: Part, rowSize: int, colSize: int,
                                 row: int, col: int, v: T, r: int, c: int)
    requires 2 * rowSize * colSize <= |s|
    requires InRange(rowSize, colSize, row, col) && InRange(rowSize, colSize, r, c)
    ensures ComplexItem(s[ComplexIndex(layout, part, rowSize, colSize, row, col) := v], layout, part, rowSize, colSize, r, c)
      == if r == row && c == col then v else ComplexItem(s, layout, part, rowSize, colSize, r, c)
    ensures ComplexItem(s[ComplexIndex(layout, Re, rowSize, colSize, row, col) := v], layout, Im, rowSize, colSize, row, col)
      == ComplexItem(s, layout, Im, rowSize, colSize, row, col)
    ensures ComplexItem(s[ComplexIndex(layout, Im, rowSize, colSize, row, col) := v], layout, Re, rowSize, colSize, row, col)
      == ComplexItem(s, layout, Re, rowSize, colSize, row, col)
    ensures ComplexItem(s[ComplexIndex(layout, part, rowSize, colSize, row, col) := v], layout, OtherPart(part), rowSize, colSize, r, c)
      == if SharesOtherHalf(layout, part, row, col, r, c) then v else ComplexItem(s, layout, OtherPart(part), rowSize, colSize, r, c)
  {
    ComplexIndexInjective(layout, part, rowSize, colSize, row, col, r, c);
    ImagFollowsReal(layout, rowSize, colSize, row, col);
    CrossSlot(layout, part, rowSize, colSize, row, col, r, c);
  }

  /**
   * In a 2 x 2 row-major complex matrix, writing the real half of (0, 1)
   * overwrites the imaginary half of (0, 0); in column-major order, writing
   * the real half of (1, 0) does.
   */
  lemma NeighbourOverwriteExample(s: seq<int>)
    requires |s| == 8
    ensures ComplexItem(s[ComplexIndex(RowMajor, Re, 2, 2, 0, 1) := 7], RowMajor, Im, 2, 2, 0, 0) == 7
    ensures ComplexItem(s[ComplexIndex(ColMajor, Re, 2, 2, 1, 0) := 7], ColMajor, Im, 2, 2, 0, 0) == 7
  {
  }
}
