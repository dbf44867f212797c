# JNMatLib marshalling core in Dafny

JNMatLib lets Java read MATLAB arrays (`mxArray`s) through the closed-source
libmx library. The only logic on the Java side is the marshalling layer, and
that layer is what this project models:

- `MxArrayInfo`: the class-code table, the struct accessors and the
  `doomed`/`finalize` rule.
- `MxArray`: extraction of an array's stored elements into a Java array
  (`getData`, `getImagData`). This includes logical bytes becoming booleans,
  the unsigned classes being widened one size up, and uint64 being refused.
  It also covers the two-dimensional views (`getDataAsMatrix`,
  `getImagDataAsMatrix`) with their compressed-sparse-column decode and their
  dense reshape, and the class dispatch of `getValueAt`.
- `NativeLongArray`: reading n native `long`s starting at an offset, either
  as copies or narrowed to `int`.

Modules:

- `Outcomes`: `Option`, `Result`, and the exceptions as a `Failure` value.
- `JavaInts`: Java's `(int)` narrowing of a `long` (`ToInt`) and the widening
  masks `0xFF`/`0xFFFF`/`0xFFFFFFFFL` (`Mask`), written out over unbounded
  integers.
- `MxClasses`: the constants and tables of `MxArrayInfo.java`. It also holds
  `MxState`, the native array as libmx's queries report it: class code,
  dimension count, rows, columns, element count, the sparse and complex
  flags, the data pointers, `jc`/`ir`, and the field names. Its struct
  accessors and finalisation rule live here too.
- `NativeLongArrays`: the `NativeLongArray` class. Its pointer is an
  `array?<int>` field. `longValues`/`intValues` are methods with loops that
  are proved equal to the specification functions `LongValuesOf`/`IntValuesOf`.
- `MxExtract`: `getRawArrayFromNative`, `getArrayFromNative`, `getData`,
  `getImagData` and the `getValueAt` dispatch.
- `MxMatrix`: `getMatrixFromNative`, `getDataAsMatrix` and
  `getImagDataAsMatrix`. The sparse decode is a method over a zeroed `array2`
  with the running index `l`. The dense reshape is nested loops over an
  `array2`.

Native buffers are sequences of `Slot(word, float)`:

- `word` is the value that the class's integer reader of the stored width
  returns: a signed value, a byte for logical, or an unsigned UTF-16 code
  unit (0..65535) for char;
- `float` is what the floating reader returns, and its type `F` is opaque.

Double and single values are only ever copied, so nothing is computed on `F`.
The sparse double decode fills its matrix with a value `zero` that stands for
`0.0`.

Several facts are proved about the code as written rather than corrected:

- The dense branch of `getMatrixFromNative` reads `data[j*Nc + i]`.
  `MxMatrix.DenseInBoundsIff` proves those reads are all in bounds exactly
  when `Nr == 0 || Nc <= Nr`.
  `MxMatrix.DenseIndexIsColumnMajorIff` proves the index agrees with MATLAB's
  column-major `j*Nr + i` exactly when the matrix is square, has at most one
  column, or has no rows.
  The documentation describes the result as the matrix itself; the code is
  followed here.
- The dense branch ignores the pointer it is given and calls `getData()`.
  As a result, `getImagDataAsMatrix` of a dense complex matrix returns the
  real parts (`MxMatrix.DenseImagMatrixIsReal`).
- `getFieldName`'s bound check joins its two conditions with `&&`, so it
  never fires (`MxClasses.FieldNameCheckNeverFires`).
- `getData` narrows the element count with `(int)`. From 2^31 elements on,
  the returned length therefore differs from the count.
- `classtypes`, with its 16 entries, is only used as a range check. Function
  handles (code 16) are already rejected as non-numeric before that check,
  so the check never fires (`MxExtract.DataSucceedsExactly`). And int64
  extraction succeeds although its entry is null.

## Model

| member | source | states |
|---|---|---|
| JavaInts.ToInt | src/MxArray.java:153 | `(int)` of a long is the unique `int` congruent to it modulo 2^32, and is the long itself when that fits |
| JavaInts.Mask | src/MxArray.java:226-240 | masking a sign-extended value with 0xFF, 0xFFFF or 0xFFFFFFFFL gives the value in [0, 2^w) congruent to it. That is the value itself when non-negative, and 2^w above it when negative |
| MxClasses.Code | src/MxArrayInfo.java:52-68 | every class constant lies in 0..16 |
| MxClasses.FromCode | src/MxArrayInfo.java:52-68 | exactly the codes 0..16 name a class, and decoding inverts `Code` |
| MxClasses.FromCodeOfCode | src/MxArrayInfo.java:52-68 | decoding the code of any class gives back that class |
| MxClasses.CodesDistinct | src/MxArrayInfo.java:52-68 | no two classes share a code |
| MxClasses.ClassNamesNameTheirCodes | src/MxArrayInfo.java:71-75 | `classnames` has 17 entries, and entry `Code(c)` is the name of class c |
| MxClasses.FunctionClassFailsRangeCheck | src/MxArrayInfo.java:78-82 | `classtypes` has 16 entries: every code below 16 passes the range check, and FUNCTION_CLASS fails it |
| MxClasses.ClassTypesWithoutType | src/MxArrayInfo.java:78-82 | the entry is null exactly for unknown, cell, struct, void, int64 and uint64 |
| MxClasses.UnsignedClassTypesWiden | src/MxArrayInfo.java:78-82 | uint8, uint16 and uint32 map to Short, Integer and Long, one size above int8, int16 and int32 |
| MxClasses.NumberOfFields | src/MxArrayInfo.java:371-377 | fails with "not a struct" exactly on a non-struct; otherwise gives the field count |
| MxClasses.FieldNameCheckNeverFires | src/MxArrayInfo.java:390-391 | `index < 0 && index >= n` is false for every index when n >= 0 |
| MxClasses.FieldName | src/MxArrayInfo.java:385-393 | fails exactly on a non-struct; otherwise passes every index on, naming field `index` when in range and null outside |
| MxClasses.FieldNumber | src/MxArrayInfo.java:406 | the first position holding the name, or -1 exactly when the name is absent |
| MxClasses.FieldIndex | src/MxArrayInfo.java:401-407 | fails exactly on a non-struct; otherwise -1 exactly when the field is absent, else a position holding that name |
| MxClasses.FinalizeNeverDestroys | src/MxArrayInfo.java:414-417 | `doomed` keeps its default false, so finalize never destroys the native array |
| NativeLongArrays.LongValuesOf | src/main/java/edu/northwestern/rocs/jnmatlib/NativeLongArray.java:78-84 | n values, value i being slot off+i. A negative n throws NegativeArraySize, a null pointer with n > 0 throws NullPointer, and n = 0 never touches the pointer |
| NativeLongArrays.IntValuesOf | src/main/java/edu/northwestern/rocs/jnmatlib/NativeLongArray.java:103-109 | the same outcomes, value i being slot off+i narrowed to an `int`: within int range, congruent to it modulo 2^32, and equal to it when it fits |
| NativeLongArrays.ReadsOnlyWindow | src/main/java/edu/northwestern/rocs/jnmatlib/NativeLongArray.java:78-109 | two blocks that agree on slots off..off+n-1 give the same results to both readers |
| NativeLongArrays.IntValuesAgreeWithLongValues | src/main/java/edu/northwestern/rocs/jnmatlib/NativeLongArray.java:103-109 | when every slot read fits in an `int`, intValues returns what longValues returns |
| NativeLongArrays.NativeLongArray.constructor | src/main/java/edu/northwestern/rocs/jnmatlib/NativeLongArray.java:34 | the new object has no pointer |
| NativeLongArrays.NativeLongArray.Wrap | src/main/java/edu/northwestern/rocs/jnmatlib/NativeLongArray.java:35 | the new object wraps the given pointer |
| NativeLongArrays.NativeLongArray.FromLongs | src/main/java/edu/northwestern/rocs/jnmatlib/NativeLongArray.java:43-47 | a fresh block of ll.length slots holds ll[i] in slot i, yet the object's pointer stays unset |
| NativeLongArrays.NativeLongArray.FromInts | src/main/java/edu/northwestern/rocs/jnmatlib/NativeLongArray.java:55-59 | the same for an int[] |
| NativeLongArrays.NativeLongArray.LongValuesAt | src/main/java/edu/northwestern/rocs/jnmatlib/NativeLongArray.java:78-84 | the loop's result is `LongValuesOf` of the wrapped block |
| NativeLongArrays.NativeLongArray.LongValues | src/main/java/edu/northwestern/rocs/jnmatlib/NativeLongArray.java:68 | longValues(n) is longValues(n, 0) |
| NativeLongArrays.NativeLongArray.IntValuesAt | src/main/java/edu/northwestern/rocs/jnmatlib/NativeLongArray.java:103-109 | the loop's result is `IntValuesOf` of the wrapped block |
| NativeLongArrays.NativeLongArray.IntValues | src/main/java/edu/northwestern/rocs/jnmatlib/NativeLongArray.java:93 | intValues(n) is intValues(n, 0) |
| MxExtract.RawArrayFromNative | src/MxArray.java:200-217 | succeeds exactly on logical, char and the numeric classes, giving `length` elements; any other class throws "cannot handle data class". Double and single give a floating array and char a char[], each exactly for that class; element i of the result is stored element i |
| MxExtract.NonZeroBytes | src/MxArray.java:221-225 | boolean i is true exactly when stored byte i is nonzero |
| MxExtract.MaskedWords | src/MxArray.java:226-240 | element i is the stored element i masked to its unsigned value |
| MxExtract.GetArrayFromNative | src/MxArray.java:219-245 | the method's result is `ArrayFromNative`: booleans for logical, widened uint8/16/32, uint64 refused, the rest read raw |
| MxExtract.ArrayFromNativeSucceeds | src/MxArray.java:219-245 | succeeds exactly on logical, char and the numeric classes other than uint64, with one element per stored element |
| MxExtract.ArrayFromNativeRefuses | src/MxArray.java:200-245 | uint64 fails with "cannot return uint64" whatever the buffer holds; unknown, cell, struct, void and function handle fail with "cannot handle data class" |
| MxExtract.RawClassesCopied | src/MxArray.java:200-245 | getArrayFromNative of char, double, single, int8, int16, int32 and int64 succeeds, and element i is stored element i, read by the class's reader |
| MxExtract.ZeroBufferGivesZeros | src/MxArray.java:200-245 | a buffer whose stored integer values are all zero extracts, for every extractable class but double and single, to false (logical) or 0 in every element |
| MxExtract.LogicalIsNonZero | src/MxArray.java:221-225 | a logical array gives boolean[], element i true exactly when stored byte i is nonzero |
| MxExtract.UnsignedWidening | src/MxArray.java:226-240 | uint8/uint16/uint32 elements lie in [0, 2^w) and are congruent to the stored value modulo 2^w. They equal it when it is non-negative, and are 2^w above it when it is negative |
| MxExtract.ClassTypesMatchExtraction | src/MxArrayInfo.java:78-82 | every class that extracts is in range of `classtypes`, and its entry is the result's component type, except int64: its entry is null while it extracts as long[] |
| MxExtract.GetData | src/MxArray.java:141-157 | the method's result is `Data`: the guards in source order, then `getArrayFromNative` over the `(int)` element count |
| MxExtract.GetImagData | src/MxArray.java:182-198 | the method's result is `ImagData`: the same over the imaginary data, for complex numeric arrays |
| MxExtract.DataSucceedsExactly | src/MxArray.java:141-157 | getData succeeds exactly on a dense numeric or logical array other than uint64 with its pointer set and a count that does not narrow below zero; the `classtypes` check never decides the outcome |
| MxExtract.ImagDataSucceedsExactly | src/MxArray.java:182-198 | getImagData succeeds exactly on a dense complex numeric array other than uint64 with its imaginary pointer set and a count that does not narrow below zero |
| MxExtract.DataGuards | src/MxArray.java:144-147 | non-numeric non-logical arrays and sparse arrays are rejected by getData, and non-complex ones by getImagData, each with its own message; function handles and uint64 always fail |
| MxExtract.DataLength | src/MxArray.java:153-156 | the result's length is the `(int)` narrowing of the element count: the count itself below 2^31, never the count from 2^31 on |
| MxExtract.ValueAtKind | src/MxArray.java:75-97 | with the data pointer set, the Number getValueAt returns is a Byte exactly for logical and int8, a Short exactly for int16, an Integer exactly for int32, uint8 and uint16, a Long exactly for int64 and uint32, a Float exactly for single and a Double exactly for double; with it null, every such class throws NullPointer; only a set pointer yields a value; uint64 is refused, and every class neither numeric nor logical (char included) fails with "cannot handle" |
| MxExtract.ValueAtDispatch | src/MxArray.java:75-97 | getValueAt throws for uint64 and for the classes without numeric data, whatever the array holds, and returns a Number for every other numeric or logical class whose pointer is set |
| MxMatrix.SparseToDense | src/MxArray.java:321-338 | the decoded matrix has Nr rows of Nc cells |
| MxMatrix.LastEntryIsLastWrite | src/MxArray.java:328-330 | an entry that no later entry of its column overwrites is what its cell holds |
| MxMatrix.LastEntryAbsent | src/MxArray.java:326-330 | a row that no entry of the column names keeps the zero the array was created with |
| MxMatrix.SparseEntryLands | src/MxArray.java:328-330 | entry l of column j, jc[j] <= l < jc[j+1], lands in cell (ir[l], j) when no later entry of that column names the same row |
| MxMatrix.SparseCellStaysZero | src/MxArray.java:326-330 | every other cell stays zero |
| MxMatrix.DecodeSparse | src/MxArray.java:323-338 | the loops build exactly `SparseToDense`, and the running index ends at jc[Nc] |
| MxMatrix.DenseIndex | src/MxArray.java:348 | `j*Nc + i` evaluated in Java `int` arithmetic |
| MxMatrix.ReshapeAsWritten | src/MxArray.java:344-350 | succeeds exactly when every index `j*Nc + i` is in bounds (otherwise ArrayIndexOutOfBounds), cell (i, j) holding data[j*Nc + i] |
| MxMatrix.DenseIndexFits | src/MxArray.java:348 | with Nc <= Nr and no overflow, `j*Nc + i` lies inside the Nr*Nc elements |
| MxMatrix.DenseInBoundsIff | src/MxArray.java:348 | with Nr*Nc elements, the reshape stays in bounds exactly when Nr = 0 or Nc <= Nr |
| MxMatrix.DenseIndexIsColumnMajorIff | src/MxArray.java:348 | `j*Nc + i` equals the column-major `j*Nr + i` on every cell exactly when Nr = Nc, Nc <= 1 or Nr = 0 |
| MxMatrix.ReshapeIsColumnMajor | src/MxArray.java:343-350 | for square and single-column matrices the reshape is the column-major reading of the data |
| MxMatrix.ReshapedArray | src/MxArray.java:343-350 | the reshape of a Java array fails with ArrayIndexOutOfBounds exactly when an index is out of bounds, and otherwise has the array's element type |
| MxMatrix.ReshapeArray | src/MxArray.java:344-350 | the method's result is `ReshapedArray` |
| MxMatrix.SparseColumnStarts | src/MxArray.java:321 | `intValues(Nc + 1)` gives the first Nc+1 column pointers unchanged |
| MxMatrix.SortedEntryLands | src/MxArray.java:324-330 | in a layout whose rows increase within each column, every entry l of column j lands in cell (ir[l], j) |
| MxMatrix.SparseRowIndices | src/MxArray.java:322 | `intValues(jc[Nc])` gives the jc[Nc] row indices unchanged, forming with the column pointers a layout that satisfies `IsCsc` |
| MxMatrix.GetMatrixFromNative | src/MxArray.java:314-352 | the method's result is `MatrixFromNative`: count checks, then the sparse decode or the dense reshape of getData() |
| MxMatrix.GetDataAsMatrix | src/MxArray.java:279-290 | the method's result is `DataAsMatrix`: its guards, then getMatrixFromNative of the real data |
| MxMatrix.GetImagDataAsMatrix | src/MxArray.java:301-312 | the method's result is `ImagDataAsMatrix`: its guards, then getMatrixFromNative of the imaginary data |
| MxMatrix.DenseIgnoresPointer | src/MxArray.java:342-343 | for a dense array, getMatrixFromNative gives the same result whatever pointer it is handed |
| MxMatrix.DenseImagMatrixIsReal | src/MxArray.java:308-311 | for a dense complex matrix, getImagDataAsMatrix returns what getDataAsMatrix returns |
| MxMatrix.MatrixGuards | src/MxArray.java:282-285 | the matrix views reject arrays whose dimension count, narrowed by `intValue()`, is not 2; getDataAsMatrix also rejects non-numeric non-logical arrays, and getImagDataAsMatrix non-complex ones |
| MxMatrix.MatrixFromNativeGuards | src/MxArray.java:316-340 | negative narrowed row or column counts are rejected; a sparse matrix decodes exactly when it is double or logical, and is otherwise rejected as unsupported |
| MxMatrix.SparseDoubleCells | src/MxArray.java:325-331 | a sparse double matrix decodes to Nr x Nc. Cell (ir[l], j) holds nonzero l unless a later entry of that column names the same row, and each other cell holds zero |
| MxMatrix.SparseLogicalCells | src/MxArray.java:332-338 | a sparse logical matrix decodes to Nr x Nc. Cell (ir[l], j) is true exactly when stored byte l is nonzero, and each other cell is false |

## Left out

- The `MxLibrary.isLoaded()` checks at the head of every accessor are not
  modelled: library discovery and loading are outside the model, which
  takes the library as loaded.
- The native calls are not modelled. libmx's queries are read from
  `MxState`, and `mxIsNumeric`, `mxIsLogical` and `mxIsStruct` are taken as
  functions of the class code, as libmx documents them.
- JNA byte order and memory reads are not modelled: a buffer is the sequence
  of values its readers return.
- The Java arrays the accessors allocate are modelled by their contents.
  Their freshness is not modelled, nor the boxing in `Array.get`/`Array.set`.
- OutOfMemoryError and other resource limits are not modelled.
- `getValueAt` is modelled as its dispatch and failure cases only. The value
  it returns is not modelled. Neither is the linear index from
  `mxCalcSingleSubscript`, nor its single-byte uint16/uint32 reads.
- MxExtract.ValueAtDispatch: its "Ok exactly when" (likewise the results of
  `ValueAtKind`) leaves out the subscript marshalling that `getValueAt` does
  before its dispatch. `new NativeLongArray(subs)` allocates `Memory(0)` when
  there are no subscripts, which throws IllegalArgumentException. That
  constructor also never sets its pointer, so `mxCalcSingleSubscript` receives
  a null subscript array. Neither is modelled, so `getValueAt()` with no
  arguments throws where the model gives a value.
- `booleanValue` … `doubleValue` are conversions of `getValueAt`'s Number to
  boxed types, and are not modelled.
- `floatValues`, `doubleVector`, `doubleMatrix`, `floatVector` and
  `floatMatrix` are not modelled: they are floating-point conversions.
- `isEmpty`, `isLogicalScalarTrue`, `arrayToString`, `getChars`,
  `getString`, `getScalar` and `getNzmax` are not modelled: each is a single
  foreign call.
- `getCell`, `getField` and `getFieldByNumber` are not modelled: they are
  native child lookups.
- MatFile, MxLibrary and MatLibrary are not part of this model.
- The exception messages are the `Failure` constructors. Their text is not
  modelled, except the name of the native function reported as returning
  null.
- NativeLongArrays.NativeLongArray.LongValuesAt: requires off+n <= 2^28 slots.
  Above that bound the byte offset `(off+i)*NativeLong.SIZE` wraps in `int`,
  and that wrap is not modelled. A native long is taken to be 64 bits.
- NativeLongArrays.NativeLongArray.IntValuesAt: requires off+n <= 2^28 slots,
  for the same `int` wrap of `(off+i)*NativeLong.SIZE`, which is not modelled.
- NativeLongArrays.LongValuesOf: requires off+n <= 2^28 slots, for the same
  `int` wrap of the byte offset, which is not modelled.
- NativeLongArrays.IntValuesOf: requires off+n <= 2^28 slots, for the same
  `int` wrap of the byte offset, which is not modelled.
- NativeLongArrays.NativeLongArray.FromLongs: accepts every input. The Java
  constructor allocates `new Memory(length*SIZE)`, and JNA's `Memory` refuses
  a size of zero, so an empty input throws IllegalArgumentException there;
  that failure is not modelled. Nor is the `int` wrap of the size
  `length*SIZE` and of the offset `i*SIZE` from 2^28 elements on.
- NativeLongArrays.NativeLongArray.FromInts: accepts every input. The empty
  `int[]` makes `Memory(0)` throw IllegalArgumentException, and the size
  `length*SIZE` and offset `i*SIZE` wrap in `int` from 2^28 elements on;
  neither is modelled.
- MxMatrix.MatrixFromNative: for a sparse array it requires what libmx
  guarantees: a compressed-sparse-column layout (jc[0] = 0, jc
  nondecreasing, row indices in range) and a buffer holding the nonzeros.
  It also requires fewer than 2^28 columns and at most 2^28 nonzeros. That
  bound is this model's own limit, not a libmx guarantee: `jc` and `ir` are
  read through `NativeLongArray.intValues`, whose `int` byte offset the model
  keeps below the wrap (previous line). These requirements also apply to
  `GetMatrixFromNative`, `DataAsMatrix`, `ImagDataAsMatrix`,
  `GetDataAsMatrix` and `GetImagDataAsMatrix`. The ArrayIndexOutOfBounds a
  malformed layout would raise is not modelled.
- MxExtract.GetArrayFromNative: does not model the `int` wrap of the byte
  offsets in the unsigned loops (likewise `MaskedWords`, whose result it is).
  The uint16 loop reads `getShort(i*2)` and the uint32 loop `getInt(i*4)`,
  with `i*2` and `i*4` computed in `int`. From element 2^30 (uint16) or 2^29
  (uint32) on, the offset wraps negative and the read falls outside the
  buffer, while the model gives the masked stored element. The logical and
  uint8 loops read `getByte(i)` and are not affected.
- MxExtract.MaskedWords: element i is the masked stored element i for every
  i. The source's wrapped byte offset from element 2^30 (uint16) or 2^29
  (uint32) on is not modelled (previous line).
- MxExtract.UnsignedWidening: its range and congruence facts are about the
  masked stored element. For uint16 arrays of more than 2^30 elements, or
  uint32 arrays of more than 2^29, the source reads the later elements at a
  wrapped negative offset, where these facts do not hold.
- MxExtract.Data: requires that a dense array's buffer holds its (narrowed)
  element count. This requirement also applies to `ImagData`, `GetData` and
  `GetImagData`. Reading past the end of native memory is not modelled.
