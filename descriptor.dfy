// The matrix descriptor that the macros of src/pmc/pla_matrix_types.h work
// on: its extents, its flags and its storage buffer, with the in-place
// SWAP_XY (lines 6-10) and the key-reading GET_KEY_INDICES_* (lines 12-24).

module MatrixDescriptor {
  import opened MatrixFlags
  import opened MatrixLayout
  import opened ComplexLayout

  /** The value a descriptor holds apart from its buffer. */
  datatype Shape = Shape(rows: int, cols: int, flags: Flags)

  /** The shape SWAP_XY leaves behind: extents exchanged, flags as they were. */
  function Swapped(s: Shape): Shape
  {
    Shape(s.cols, s.rows, s.flags)
  }

  /** Swapping twice gives back the shape one started from. */
  lemma SwappedTwice(s: Shape)
    ensures Swapped(Swapped(s)) == s
  {
  }

  /** The flag update a transposing caller makes beside SWAP_XY: flip the transposed bit, keep the rest. */
  function ToggleTransposed(flags: Flags): (t: Flags)
    ensures Has(t, Transposed) <==> !Has(flags, Transposed)
    ensures forall u: Tag :: u != Transposed ==> (Has(t, u) <==> Has(flags, u))
    ensures t ^ FlagTransposed == flags
  {
    XorTransposedBit(flags);
    flags ^ FlagTransposed
  }

  lemma ShiftPastLowBit(flags: Flags, i: nat)
    requires 1 <= i < 64
    ensures ((flags ^ FlagTransposed) >> i) & 1 == (flags >> i) & 1
  {
  }

  lemma XorTransposedBit(flags: Flags)
    ensures Has(flags ^ FlagTransposed, Transposed) <==> !Has(flags, Transposed)
    ensures forall u: Tag :: u != Transposed ==> (Has(flags ^ FlagTransposed, u) <==> Has(flags, u))
  {
    forall u: Tag | u != Transposed
      ensures Has(flags ^ FlagTransposed, u) <==> Has(flags, u)
    {
      var i := BitOf(u);
      assert 1 <= i < 7;
      ShiftPastLowBit(flags, i);
    }
  }

  /** The flip of the transposed bit switches which formulas the flag-dispatched macros use. */
  lemma ToggleSwitchesLayout(flags: Flags)
    ensures (IsTransposed(ToggleTransposed(flags)) != 0) == (IsTransposed(flags) == 0)
  {
  }

  /**
   * Transposing is free: after SWAP_XY and the flip of the transposed bit,
   * element (col, row) of the new matrix lives where element (row, col) of the
   * old one did, for real and complex storage alike.
   */
  lemma TransposeKeepsSlots(s: Shape, row: int, col: int)
    ensures IndexXY(ToggleTransposed(s.flags), Swapped(s).rows, Swapped(s).cols, col, row)
      == IndexXY(s.flags, s.rows, s.cols, row, col)
    ensures RIndexXY(ToggleTransposed(s.flags), Swapped(s).rows, Swapped(s).cols, col, row)
      == RIndexXY(s.flags, s.rows, s.cols, row, col)
    ensures IIndexXY(ToggleTransposed(s.flags), Swapped(s).rows, Swapped(s).cols, col, row)
      == IIndexXY(s.flags, s.rows, s.cols, row, col)
  {
    ToggleSwitchesLayout(s.flags);
    ColMajorIsSwappedRowMajor(s.rows, s.cols, row, col);
    ColMajorIsSwappedRowMajor(s.cols, s.rows, col, row);
    ComplexColMajorIsSwappedRowMajor(s.rows, s.cols, row, col);
    ComplexColMajorIsSwappedRowMajor(s.cols, s.rows, col, row);
  }

  /** A matrix object's attributes: extents, flags and storage buffer. */
  class Matrix<T> {
    var rows: int
    var cols: int
    var flags: Flags
    var storage: array<T>

    constructor (rows: int, cols: int, flags: Flags, storage: array<T>)
      ensures this.rows == rows && this.cols == cols && this.flags == flags && this.storage == storage
    {
      this.rows := rows;
      this.cols := cols;
      this.flags := flags;
      this.storage := storage;
    }

    /** The descriptor's shape as a value. */
    function Snapshot(): Shape
      reads this
    {
      Shape(rows, cols, flags)
    }

    /** SWAP_XY: exchange rows and cols through a temporary; flags and storage are not touched. */
    method SwapXY()
      modifies this`rows, this`cols
      ensures rows == old(cols) && cols == old(rows)
      ensures flags == old(flags) && storage == old(storage) && unchanged(storage)
      ensures Snapshot() == Swapped(old(Snapshot()))
    {
      var temp := rows;
      rows := cols;
      cols := temp;
    }
  }

  /**
   * GET_KEY_INDICES_ROWMAJOR over a key given as its chain of integer
   * components: the first component is the row, the key advances by one and
   * its new first component is the column.
   */
  method GetKeyIndicesRowMajor(key: seq<int>) returns (row: int, col: int, rest: seq<int>)
    requires |key| >= 2
    ensures row == key[0] && col == key[1]
    ensures rest == key[1..]
  {
    row := key[0];
    rest := key[1..];
    col := rest[0];
  }

  /** GET_KEY_INDICES_COLMAJOR: as above with the roles of the two components exchanged. */
  method GetKeyIndicesColMajor(key: seq<int>) returns (row: int, col: int, rest: seq<int>)
    requires |key| >= 2
    ensures col == key[0] && row == key[1]
    ensures rest == key[1..]
  {
    col := key[0];
    rest := key[1..];
    row := rest[0];
  }
}
