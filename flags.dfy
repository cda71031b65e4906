// Structural flags of a dense matrix and the tests that interpret them
// (src/pmc/pla_matrix_types.h, lines 136-162).
//
// The host stores the flags in an INTVAL, a 64-bit integer; every macro only
// uses bitwise `&`, `|` and `!` on it, so the model works on the bit pattern.

module MatrixFlags {

  /** The bit pattern of a matrix's `flags` attribute. */
  type Flags = bv64

  const FlagTransposed: Flags := 0x01
  const FlagSymmetric: Flags := 0x02
  const FlagHermitian: Flags := 0x04
  const FlagUTriangle: Flags := 0x08
  const FlagLTriangle: Flags := 0x10
  const FlagTridiagonal: Flags := 0x20
  const FlagTiny: Flags := 0x40

  /** FLAG_TRIANGLE: either triangle bit. */
  const FlagTriangle: Flags := FlagUTriangle | FlagLTriangle

  /** FLAG_DIAGONAL: the five structural bits a diagonal matrix has at once. */
  const FlagDiagonal: Flags := FlagSymmetric | FlagHermitian | FlagLTriangle | FlagUTriangle | FlagTridiagonal

  /** The seven named flags, as an abstraction independent of the masks. */
  datatype Tag = Transposed | Symmetric | Hermitian | UTriangle | LTriangle | Tridiagonal | Tiny

  /** The position of a tag's bit in the flag word. */
  function BitOf(t: Tag): (i: nat)
    ensures i < 7
  {
    match t
    case Transposed => 0
    case Symmetric => 1
    case Hermitian => 2
    case UTriangle => 3
    case LTriangle => 4
    case Tridiagonal => 5
    case Tiny => 6
  }

  /** The FLAG_* constant for a tag. */
  function Mask(t: Tag): Flags
  {
    match t
    case Transposed => FlagTransposed
    case Symmetric => FlagSymmetric
    case Hermitian => FlagHermitian
    case UTriangle => FlagUTriangle
    case LTriangle => FlagLTriangle
    case Tridiagonal => FlagTridiagonal
    case Tiny => FlagTiny
  }

  /** Reference meaning of "tag t is set": bit BitOf(t) of the word is one. */
  predicate Has(flags: Flags, t: Tag)
  {
    (flags >> BitOf(t)) & 1 == 1
  }

  /** Each FLAG_* constant is exactly the single bit of its tag. */
  lemma MaskIsSingleBit(t: Tag)
    ensures Mask(t) == 1 << BitOf(t)
    ensures forall u: Tag :: Has(Mask(t), u) <==> u == t
  {
  }

  /** Distinct FLAG_* constants share no bit. */
  lemma MasksDisjoint(t: Tag, u: Tag)
    requires t != u
    ensures Mask(t) & Mask(u) == 0
  {
  }

  // ---------------------------------------------------------------------------
  // The IS_* macros, with the value the C expression yields. C reads a nonzero
  // value as true.

  /** IS_GENERAL: `!flags`, which is 1 for an empty word and 0 otherwise. */
  function IsGeneral(flags: Flags): (v: Flags)
    ensures v == 0 || v == 1
    ensures v != 0 <==> flags == 0
    ensures v != 0 ==> forall t: Tag :: !Has(flags, t)
    ensures (exists t: Tag :: Has(flags, t)) ==> v == 0
  {
    if flags == 0 then 1 else 0
  }

  /** An empty word is general; one holding only the transposed bit, or only a bit no tag names, is not. */
  lemma GeneralExamples()
    ensures IsGeneral(0) == 1
    ensures IsGeneral(FlagTransposed) == 0 && IsGeneral(FlagSymmetric) == 0
    ensures IsGeneral(0x80) == 0 && forall t: Tag :: !Has(0x80, t)
  {
  }

  /** IS_TRANSPOSED: the transposed bit, kept in place. */
  function IsTransposed(flags: Flags): (v: Flags)
    ensures v == 0 || v == FlagTransposed
    ensures v != 0 <==> Has(flags, Transposed)
  {
    flags & FlagTransposed
  }

  /** IS_SYMMETRIC */
  function IsSymmetric(flags: Flags): (v: Flags)
    ensures v == 0 || v == FlagSymmetric
    ensures v != 0 <==> Has(flags, Symmetric)
  {
    flags & FlagSymmetric
  }

  /** IS_HERMITIAN */
  function IsHermitian(flags: Flags): (v: Flags)
    ensures v == 0 || v == FlagHermitian
    ensures v != 0 <==> Has(flags, Hermitian)
  {
    flags & FlagHermitian
  }

  /** IS_UTRIANGLE */
  function IsUTriangle(flags: Flags): (v: Flags)
    ensures v == 0 || v == FlagUTriangle
    ensures v != 0 <==> Has(flags, UTriangle)
  {
    flags & FlagUTriangle
  }

  /** IS_LTRIANGLE */
  function IsLTriangle(flags: Flags): (v: Flags)
    ensures v == 0 || v == FlagLTriangle
    ensures v != 0 <==> Has(flags, LTriangle)
  {
    flags & FlagLTriangle
  }

  /** IS_TRIDIAGONAL */
  function IsTridiagonal(flags: Flags): (v: Flags)
    ensures v == 0 || v == FlagTridiagonal
    ensures v != 0 <==> Has(flags, Tridiagonal)
  {
    flags & FlagTridiagonal
  }

  /** IS_TINY */
  function IsTiny(flags: Flags): (v: Flags)
    ensures v == 0 || v == FlagTiny
    ensures v != 0 <==> Has(flags, Tiny)
  {
    flags & FlagTiny
  }

  /** IS_TRIANGLE: the triangle bits that are set, nonzero when either one is. */
  function IsTriangle(flags: Flags): (v: Flags)
    ensures v & !(FlagUTriangle | FlagLTriangle) == 0
    ensures forall t: Tag :: Has(v, t) <==> Has(flags, t) && (t == UTriangle || t == LTriangle)
    ensures v != 0 <==> Has(flags, UTriangle) || Has(flags, LTriangle)
  {
    flags & FlagTriangle
  }

  /**
   * IS_DIAGONAL as the preprocessor expands it. FLAG_DIAGONAL has no outer
   * parentheses, so its second use becomes `... == (0x02) | (0x04) | ...`, and
   * since `==` binds tighter than `|` the comparison is made against
   * FLAG_SYMMETRIC alone and the other four bits are or-ed into its 0/1 result.
   */
  function IsDiagonalAsWritten(flags: Flags): (v: Flags)
    ensures v != 0
    ensures v == 0x3C || v == 0x3D
    ensures v == 0x3D <==>
      Has(flags, Symmetric) && !Has(flags, Hermitian) && !Has(flags, UTriangle) &&
      !Has(flags, LTriangle) && !Has(flags, Tridiagonal)
  {
    (if flags & FlagDiagonal == FlagSymmetric then 1 else 0)
      | FlagHermitian | FlagLTriangle | FlagUTriangle | FlagTridiagonal
  }

  /** IS_DIAGONAL as intended: all five diagonal bits are set. */
  function IsDiagonal(flags: Flags): (b: bool)
    ensures b <==>
      Has(flags, Symmetric) && Has(flags, Hermitian) && Has(flags, UTriangle) &&
      Has(flags, LTriangle) && Has(flags, Tridiagonal)
  {
    flags & FlagDiagonal == FlagDiagonal
  }

  /** The literal IS_DIAGONAL reports "diagonal" where a bit is missing, and even for an empty word. */
  lemma DiagonalAsWrittenDisagrees()
    ensures IsDiagonalAsWritten(FlagSymmetric | FlagHermitian | FlagLTriangle | FlagUTriangle) != 0
    ensures !IsDiagonal(FlagSymmetric | FlagHermitian | FlagLTriangle | FlagUTriangle)
    ensures IsDiagonalAsWritten(0) != 0 && !IsDiagonal(0)
  {
  }

  /** The two CBLAS_TRANSPOSE enumerators the header hands to BLAS. */
  datatype BlasTranspose = CblasNoTrans | CblasTrans

  /** IS_TRANSPOSED_BLAS */
  function IsTransposedBlas(flags: Flags): (t: BlasTranspose)
    ensures t == CblasTrans <==> Has(flags, Transposed)
    ensures t == CblasNoTrans <==> IsTransposed(flags) == 0
  {
    if IsTransposed(flags) != 0 then CblasTrans else CblasNoTrans
  }

  /** The BLAS tag depends on the transposed bit alone. */
  lemma BlasTagOnlyReadsTransposedBit(f1: Flags, f2: Flags)
    requires f1 & FlagTransposed == f2 & FlagTransposed
    ensures IsTransposedBlas(f1) == IsTransposedBlas(f2)
  {
  }
}
