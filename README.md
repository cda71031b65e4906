# Dense-matrix layout and flags of parrot-linear-algebra, in Dafny

This project models `src/pmc/pla_matrix_types.h`. That header holds the addressing and flag logic
for the dense matrix types of parrot-linear-algebra. A matrix is a descriptor with `rows`, `cols`,
`flags` and a flat `storage` buffer. The header provides:

- index macros that turn a (row, col) pair and the extents into an offset into the buffer.
  There are real and interleaved-complex variants. Row-major is the default, and the buffer is
  read column-major when the transposed bit is set, so a transpose never moves data;
- `ITEM_*` lvalue accessors built on those offsets;
- seven single-bit `FLAG_*` constants, two composites, the `IS_*` tests and the
  `IS_TRANSPOSED_BLAS` mapping to the CBLAS transpose enumerators;
- `SWAP_XY`, which exchanges a descriptor's extents in place, the `GET_KEY_INDICES_*` key readers,
  and `INDEX_MIN`/`INDEX_MAX`.

Files:

- `flags.dfy`, module `MatrixFlags`: the flag word as a `bv64` (the host's 64-bit INTVAL), the
  constants, a `Tag` datatype with a reference bit test `Has`, every `IS_*` macro returning the
  value the C expression yields, and `IS_TRANSPOSED_BLAS`.
- `layout.dfy`, module `MatrixLayout`: `INDEX_MIN`/`INDEX_MAX`, the real index macros and the
  `ITEM_XY*` accessors. Each accessor has a read function `Item` and a write method `SetItem` on an
  `array`.
- `complex_layout.dfy`, module `ComplexLayout`: the `R_`/`I_` index macros and accessors.
- `descriptor.dfy`, module `MatrixDescriptor`: the descriptor as a class with `SwapXY`, the transpose
  protocol, and the key readers.

Index arguments are unbounded integers. The macros check no bounds, so the in-range conditions
(`0 <= row < rows`, `0 <= col < cols`) appear only in the lemmas and `ensures` clauses that need them.

Some of the usual description of this component differs from the code. The model follows the code:

- A transpose is usually described as swapping the extents and flipping the transposed bit.
  `SWAP_XY` (lines 6-10) only swaps the extents; the bit flip is the caller's job. The model keeps
  `SwapXY` as written and states the combined effect in `TransposeKeepsSlots`.
- `IS_DIAGONAL` is described as "all five diagonal bits set". As the preprocessor expands it, it is
  nonzero for every flag word (see Findings).
- The complex formulas scale the outer index by 2 (the row in row-major, the column in
  column-major) but not the inner one. The worked examples in the header's comment at lines 88-98
  use the same formulas, but the picture at lines 81-84 draws each row as `[RI][RI][RI]`, one
  private real/imaginary pair per element. The formulas do not produce that: the real half of an
  element shares its slot with the imaginary half of its inner neighbour, and about half of the
  2*rows*cols slots are never addressed. The model keeps the formulas literally.
  `ComplexRowMajorOverlap`, `ComplexColMajorOverlap` and `ComplexReadAfterWrite` say exactly which
  slots are shared and what a write does to the neighbour. Callers that pre-scale the inner index
  by 2, which would give the drawn layout, are not part of this model.

## Model

| member | source | states |
|---|---|---|
| `MatrixFlags.Mask` | src/pmc/pla_matrix_types.h:137-144 | the FLAG_* constant of each tag: 0x01 transposed, 0x02 symmetric, 0x04 hermitian, 0x08 upper triangle, 0x10 lower triangle, 0x20 tridiagonal, 0x40 tiny |
| `MatrixFlags.Has` | src/pmc/pla_matrix_types.h:137-144 | reference bit test against which every IS_* macro is stated: bit BitOf(t) of the word, shifted down, is 1 |
| `MatrixFlags.MaskIsSingleBit` | src/pmc/pla_matrix_types.h:137-144 | each FLAG_* constant is the single bit `1 << i` of its tag and carries no other tag's bit |
| `MatrixFlags.MasksDisjoint` | src/pmc/pla_matrix_types.h:137-144 | two distinct FLAG_* constants share no bit |
| `MatrixFlags.IsGeneral` | src/pmc/pla_matrix_types.h:152 | IS_GENERAL yields 0 or 1, nonzero exactly for the empty word; any set tag makes it 0 |
| `MatrixFlags.GeneralExamples` | src/pmc/pla_matrix_types.h:152 | 0 is general; a word with only the transposed bit, only Symmetric, or only an unnamed bit (0x80) is not |
| `MatrixFlags.IsTransposed` | src/pmc/pla_matrix_types.h:161 | yields 0 or FLAG_TRANSPOSED, nonzero iff bit 0 is set |
| `MatrixFlags.IsSymmetric` | src/pmc/pla_matrix_types.h:154 | yields 0 or FLAG_SYMMETRIC, nonzero iff bit 1 is set |
| `MatrixFlags.IsHermitian` | src/pmc/pla_matrix_types.h:155 | yields 0 or FLAG_HERMITIAN, nonzero iff bit 2 is set |
| `MatrixFlags.IsUTriangle` | src/pmc/pla_matrix_types.h:156 | yields 0 or FLAG_UTRIANGLE, nonzero iff bit 3 is set |
| `MatrixFlags.IsLTriangle` | src/pmc/pla_matrix_types.h:157 | yields 0 or FLAG_LTRIANGLE, nonzero iff bit 4 is set |
| `MatrixFlags.IsTridiagonal` | src/pmc/pla_matrix_types.h:160 | yields 0 or FLAG_TRIDIAGONAL, nonzero iff bit 5 is set |
| `MatrixFlags.IsTiny` | src/pmc/pla_matrix_types.h:153 | yields 0 or FLAG_TINY, nonzero iff bit 6 is set |
| `MatrixFlags.IsTriangle` | src/pmc/pla_matrix_types.h:158 | IS_TRIANGLE, masking with FLAG_TRIANGLE (line 142), keeps exactly the triangle bits that are set in flags and no other bit, and is nonzero iff the upper or the lower triangle bit is set |
| `MatrixFlags.IsDiagonalAsWritten` | src/pmc/pla_matrix_types.h:145-159 | the expanded IS_DIAGONAL is never 0: it is 0x3D when Symmetric is the only one of the five diagonal bits set, else 0x3C |
| `MatrixFlags.IsDiagonal` | src/pmc/pla_matrix_types.h:145-159 | intended IS_DIAGONAL: true iff Symmetric, Hermitian, both triangle bits and Tridiagonal are all set |
| `MatrixFlags.DiagonalAsWrittenDisagrees` | src/pmc/pla_matrix_types.h:159 | for 0x1E (Tridiagonal missing) and for 0 the expanded macro reports diagonal while the intended test does not |
| `MatrixFlags.IsTransposedBlas` | src/pmc/pla_matrix_types.h:162 | CblasTrans exactly when the transposed bit is set, CblasNoTrans exactly when IS_TRANSPOSED is 0 |
| `MatrixFlags.BlasTagOnlyReadsTransposedBit` | src/pmc/pla_matrix_types.h:161-162 | two words that agree on bit 0 get the same BLAS tag |
| `MatrixLayout.IndexMin` | src/pmc/pla_matrix_types.h:26 | INDEX_MIN returns one of its arguments and is at most both |
| `MatrixLayout.IndexMax` | src/pmc/pla_matrix_types.h:27 | INDEX_MAX returns one of its arguments and is at least both |
| `MatrixLayout.IndexXYRowMajor` | src/pmc/pla_matrix_types.h:55-56 | INDEX_XY_ROWMAJOR: row * numcols + col |
| `MatrixLayout.IndexXYColMajor` | src/pmc/pla_matrix_types.h:58-59 | INDEX_XY_COLMAJOR: col * numrows + row |
| `MatrixLayout.IndexXY` | src/pmc/pla_matrix_types.h:61-64 | INDEX_XY: the column-major offset when IS_TRANSPOSED(flags) is nonzero, the row-major one otherwise |
| `MatrixLayout.RowMajorBounds` | src/pmc/pla_matrix_types.h:55-56 | for an in-range (row, col) the INDEX_XY_ROWMAJOR offset lies in [0, rows*cols) |
| `MatrixLayout.ColMajorBounds` | src/pmc/pla_matrix_types.h:58-59 | for an in-range (row, col) the INDEX_XY_COLMAJOR offset lies in [0, rows*cols) |
| `MatrixLayout.RowMajorInjective` | src/pmc/pla_matrix_types.h:55-56 | two in-range elements share a row-major offset iff they are the same element |
| `MatrixLayout.ColMajorInjective` | src/pmc/pla_matrix_types.h:58-59 | two in-range elements share a column-major offset iff they are the same element |
| `MatrixLayout.RowMajorOnto` | src/pmc/pla_matrix_types.h:29-38 | every slot of a rows*cols buffer is the row-major offset of some in-range element |
| `MatrixLayout.ColMajorOnto` | src/pmc/pla_matrix_types.h:40-43 | every slot of a rows*cols buffer is the column-major offset of some in-range element |
| `MatrixLayout.ColMajorIsSwappedRowMajor` | src/pmc/pla_matrix_types.h:45-59 | INDEX_XY_COLMAJOR(C, R, c, r) equals INDEX_XY_ROWMAJOR(R, C, r, c) for all integers |
| `MatrixLayout.TransposedIndexXY` | src/pmc/pla_matrix_types.h:45-64 | INDEX_XY with the transposed bit set, swapped extents and swapped coordinates equals INDEX_XY with the bit cleared |
| `MatrixLayout.TransposedIndexXYExample` | src/pmc/pla_matrix_types.h:45-64 | element (2, 3) of a 3x4 matrix and element (3, 2) of its transposed 4x3 view are both at slot 11 |
| `MatrixLayout.IndexXYOnlyReadsTransposedBit` | src/pmc/pla_matrix_types.h:61-64 | INDEX_XY agrees on any two flag words that agree on bit 0 |
| `MatrixLayout.Index` | src/pmc/pla_matrix_types.h:61-73 | the offset used by INDEX_XY and by ITEM_XY_ROWMAJOR, ITEM_XY_COLMAJOR or ITEM_XY lies in [0, rows*cols) for an in-range element |
| `MatrixLayout.IndexInjective` | src/pmc/pla_matrix_types.h:66-73 | in each of the three ITEM layouts, distinct in-range elements get distinct slots |
| `MatrixLayout.Item` | src/pmc/pla_matrix_types.h:66-73 | ITEM_XY_ROWMAJOR, ITEM_XY_COLMAJOR and ITEM_XY read as rvalues: the buffer element at the offset the matching index macro gives |
| `MatrixLayout.SetItem` | src/pmc/pla_matrix_types.h:66-73 | assigning through an ITEM_XY* lvalue replaces exactly the slot its index names, and reading it back gives the value |
| `MatrixLayout.ReadAfterWrite` | src/pmc/pla_matrix_types.h:66-73 | after writing element (row, col) of a buffer of at least rows*cols slots, that element reads the new value and every other in-range element reads its old value |
| `ComplexLayout.RIndexXYRowMajor` | src/pmc/pla_matrix_types.h:102-103 | R_INDEX_XY_ROWMAJOR: row * numcols * 2 + col |
| `ComplexLayout.IIndexXYRowMajor` | src/pmc/pla_matrix_types.h:104-105 | I_INDEX_XY_ROWMAJOR: row * numcols * 2 + col + 1 |
| `ComplexLayout.RIndexXYColMajor` | src/pmc/pla_matrix_types.h:107-108 | R_INDEX_XY_COLMAJOR: col * numrows * 2 + row |
| `ComplexLayout.IIndexXYColMajor` | src/pmc/pla_matrix_types.h:109-110 | I_INDEX_XY_COLMAJOR: col * (numrows * 2) + row + 1 |
| `ComplexLayout.RIndexXY` | src/pmc/pla_matrix_types.h:112-115 | R_INDEX_XY: the column-major real offset when IS_TRANSPOSED(flags) is nonzero, the row-major one otherwise |
| `ComplexLayout.IIndexXY` | src/pmc/pla_matrix_types.h:116-119 | I_INDEX_XY: the column-major imaginary offset when IS_TRANSPOSED(flags) is nonzero, the row-major one otherwise |
| `ComplexLayout.ComplexRowMajorBounds` | src/pmc/pla_matrix_types.h:102-105 | for an in-range element both the real and the imaginary row-major offsets lie in [0, 2*rows*cols) |
| `ComplexLayout.ComplexColMajorBounds` | src/pmc/pla_matrix_types.h:107-110 | for an in-range element both the real and the imaginary column-major offsets lie in [0, 2*rows*cols) |
| `ComplexLayout.ComplexIndex` | src/pmc/pla_matrix_types.h:112-134 | the offset used by R_/I_INDEX_XY and by any R_/I_ITEM_XY* accessor lies in [0, 2*rows*cols) for an in-range element |
| `ComplexLayout.ImagFollowsReal` | src/pmc/pla_matrix_types.h:102-119 | in every layout the imaginary offset is the real offset plus 1, although lines 108 and 110 group the product differently |
| `ComplexLayout.ComplexIndexInjective` | src/pmc/pla_matrix_types.h:102-119 | the real parts of distinct in-range elements have distinct slots, and so do the imaginary parts |
| `ComplexLayout.ComplexRowMajorOverlap` | src/pmc/pla_matrix_types.h:102-105 | the row-major real slot of (r1, c1) is the imaginary slot of (r2, c2) iff r1 == r2 and c1 == c2 + 1 |
| `ComplexLayout.ComplexColMajorOverlap` | src/pmc/pla_matrix_types.h:107-110 | the column-major real slot of (r1, c1) is the imaginary slot of (r2, c2) iff c1 == c2 and r1 == r2 + 1 |
| `ComplexLayout.ComplexRowMajorExample` | src/pmc/pla_matrix_types.h:102-105 | element (1, 1) of a 2x2 complex matrix is at slots 5 and 6; slot 1 is the real part of (0, 1) and the imaginary part of (0, 0) |
| `ComplexLayout.ComplexColMajorIsSwappedRowMajor` | src/pmc/pla_matrix_types.h:102-110 | the column-major real and imaginary offsets against swapped extents and coordinates equal the row-major ones |
| `ComplexLayout.TransposedComplexIndexXY` | src/pmc/pla_matrix_types.h:102-119 | transpose equivalence for R_INDEX_XY and I_INDEX_XY: transposed bit set with swapped extents and coordinates equals the bit cleared |
| `ComplexLayout.ComplexIndexXYOnlyReadsTransposedBit` | src/pmc/pla_matrix_types.h:112-119 | R_INDEX_XY and I_INDEX_XY agree on any two flag words that agree on bit 0 |
| `ComplexLayout.ComplexItem` | src/pmc/pla_matrix_types.h:121-134 | R_/I_ITEM_XY_ROWMAJOR, _COLMAJOR and R_/I_ITEM_XY read as rvalues: the buffer element at the offset the matching R_/I_ index macro gives |
| `ComplexLayout.CrossSlot` | src/pmc/pla_matrix_types.h:102-119 | the other half of (r, c) lies in the slot of the given half of (row, col) iff (r, c) is the inner neighbour SharesOtherHalf names: same row (row-major) or column (column-major), the real half belonging to the later element |
| `ComplexLayout.SetComplexItem` | src/pmc/pla_matrix_types.h:121-134 | assigning through an R_/I_ITEM_XY* lvalue replaces exactly the slot its index names, and reading it back gives the value |
| `ComplexLayout.ComplexReadAfterWrite` | src/pmc/pla_matrix_types.h:121-134 | writing one half of an element leaves that half of every other in-range element and the other half of the element itself unchanged, and changes the other half of another element exactly when it is the neighbour whose slot is shared |
| `ComplexLayout.NeighbourOverwriteExample` | src/pmc/pla_matrix_types.h:102-110 | in a 2x2 complex matrix, writing the real half of (0, 1) row-major, or of (1, 0) column-major, overwrites the imaginary half of (0, 0) |
| `MatrixDescriptor.SwappedTwice` | src/pmc/pla_matrix_types.h:6-10 | swapping the extents twice restores the shape |
| `MatrixDescriptor.ToggleTransposed` | src/pmc/pla_matrix_types.h:45-51 | the caller's flip of the transposed bit inverts that bit, keeps every other tag and undoes itself |
| `MatrixDescriptor.TransposeKeepsSlots` | src/pmc/pla_matrix_types.h:45-64 | after SWAP_XY and the bit flip, element (col, row) sits where (row, col) was, for the real, complex-real and complex-imaginary offsets |
| `MatrixDescriptor.Matrix.SwapXY` | src/pmc/pla_matrix_types.h:6-10 | rows and cols are exchanged; flags and storage, buffer contents included, are unchanged |
| `MatrixDescriptor.GetKeyIndicesRowMajor` | src/pmc/pla_matrix_types.h:12-17 | the key's first component becomes the row, its second the column, and the key is advanced by one |
| `MatrixDescriptor.GetKeyIndicesColMajor` | src/pmc/pla_matrix_types.h:19-24 | the key's first component becomes the column, its second the row, and the key is advanced by one |

## Left out

- `#include <cblas.h>` (line 4): no BLAS routine is modelled. Only the two enumerators that
  `IS_TRANSPOSED_BLAS` yields appear, as the datatype `BlasTranspose`.
- GetKeyIndicesRowMajor: `VTABLE_get_integer` and `VTABLE_shift_pmc` are host-VM calls and are not
  part of this model. A key is modelled as the sequence of its integer components: get_integer reads
  the first one and shift drops it. A key with fewer than two components is excluded by a
  precondition, because its behaviour belongs to the host.
- GetKeyIndicesColMajor: the same abstraction of the host calls as the row-major reader.
- The element type of the storage buffer (floating point in the host): buffers are generic
  `seq<T>`/`array<T>`, and no numeric semantics are involved.
- INTVAL overflow: offsets are unbounded integers, so an offset beyond 2^63 - 1 does not wrap as it
  would in C.
- Macro hygiene with compound arguments is not modelled: arguments are values. This covers the
  unparenthesised `numrows * 2` at line 110, the missing outer parentheses of `FLAG_TRIANGLE` at
  line 142 (harmless in `IS_TRIANGLE`, which parenthesises it), and the double evaluation of
  arguments in `INDEX_MIN`/`INDEX_MAX`. The precedence effect of `FLAG_DIAGONAL` inside
  `IS_DIAGONAL` changes the result for plain arguments and is modelled.
- IndexMin: on a tie the macro returns its first argument. With integer values both arguments are
  then equal, so this is not distinguishable. The same holds for IndexMax.
- There is no concurrency or I/O in the header.

## Findings
| source | as written | input that shows it | evidently intended | confidence | as-written member | corrected member |
|---|---|---|---|---|---|---|
| src/pmc/pla_matrix_types.h:145-159 | `FLAG_DIAGONAL` has no outer parentheses, so `IS_DIAGONAL(flags)` expands to `((flags & 0x3E) == 0x02) \| 0x3C`, which is nonzero for every `flags` | flags = 0x1E (Symmetric, Hermitian, both triangles, no Tridiagonal) gives 0x3C, read as true; flags = 0 also gives 0x3C | nonzero iff all five of 0x02, 0x04, 0x08, 0x10, 0x20 are set | high; not executed | `MatrixFlags.IsDiagonalAsWritten` (exhibited by `MatrixFlags.DiagonalAsWrittenDisagrees`) | `MatrixFlags.IsDiagonal` |
