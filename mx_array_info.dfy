/**
 * The metadata side of an mxArray: the class-code enumeration with its two
 * lookup tables, the state libmx reports for an array, the struct-field
 * guards, and the finalisation rule.
 */
module MxClasses {
  import opened Outcomes

  // enum mxClassID, with the values the Java constants give it
  const UNKNOWN_CLASS: int := 0
  const CELL_CLASS: int := 1
  const STRUCT_CLASS: int := 2
  const LOGICAL_CLASS: int := 3
  const CHAR_CLASS: int := 4
  const VOID_CLASS: int := 5
  const DOUBLE_CLASS: int := 6
  const SINGLE_CLASS: int := 7
  const INT8_CLASS: int := 8
  const UINT8_CLASS: int := 9
  const INT16_CLASS: int := 10
  const UINT16_CLASS: int := 11
  const INT32_CLASS: int := 12
  const UINT32_CLASS: int := 13
  const INT64_CLASS: int := 14
  const UINT64_CLASS: int := 15
  const FUNCTION_CLASS: int := 16

  /** The closed set of element kinds the constants above encode. */
  datatype MxClass =
    | Unknown | Cell | Struct | Logical | Char | Void | Double | Single
    | Int8 | Uint8 | Int16 | Uint16 | Int32 | Uint32 | Int64 | Uint64
    | FunctionHandle

  /** The constant that encodes a class. */
  function Code(c: MxClass): (k: int)
    ensures 0 <= k <= FUNCTION_CLASS
  {
    match c
    case Unknown => UNKNOWN_CLASS
    case Cell => CELL_CLASS
    case Struct => STRUCT_CLASS
    case Logical => LOGICAL_CLASS
    case Char => CHAR_CLASS
    case Void => VOID_CLASS
    case Double => DOUBLE_CLASS
    case Single => SINGLE_CLASS
    case Int8 => INT8_CLASS
    case Uint8 => UINT8_CLASS
    case Int16 => INT16_CLASS
    case Uint16 => UINT16_CLASS
    case Int32 => INT32_CLASS
    case Uint32 => UINT32_CLASS
    case Int64 => INT64_CLASS
    case Uint64 => UINT64_CLASS
    case FunctionHandle => FUNCTION_CLASS
  }

  /** The class a code stands for; none outside 0..16. */
  function FromCode(k: int): (c: Option<MxClass>)
    ensures c.Some? <==> 0 <= k <= FUNCTION_CLASS
    ensures c.Some? ==> Code(c.value) == k
  {
    if k == UNKNOWN_CLASS then Some(Unknown)
    else if k == CELL_CLASS then Some(Cell)
    else if k == STRUCT_CLASS then Some(Struct)
    else if k == LOGICAL_CLASS then Some(Logical)
    else if k == CHAR_CLASS then Some(Char)
    else if k == VOID_CLASS then Some(Void)
    else if k == DOUBLE_CLASS then Some(Double)
    else if k == SINGLE_CLASS then Some(Single)
    else if k == INT8_CLASS then Some(Int8)
    else if k == UINT8_CLASS then Some(Uint8)
    else if k == INT16_CLASS then Some(Int16)
    else if k == UINT16_CLASS then Some(Uint16)
    else if k == INT32_CLASS then Some(Int32)
    else if k == UINT32_CLASS then Some(Uint32)
    else if k == INT64_CLASS then Some(Int64)
    else if k == UINT64_CLASS then Some(Uint64)
    else if k == FUNCTION_CLASS then Some(FunctionHandle)
    else None
  }

  /** Every class is decoded back from its code: the codes are distinct. */
  lemma {:induction false} FromCodeOfCode(c: MxClass)
    ensures FromCode(Code(c)) == Some(c)
  {
    match c
    case Unknown =>
    case Cell =>
    case Struct =>
    case Logical =>
    case Char =>
    case Void =>
    case Double =>
    case Single =>
    case Int8 =>
    case Uint8 =>
    case Int16 =>
    case Uint16 =>
    case Int32 =>
    case Uint32 =>
    case Int64 =>
    case Uint64 =>
    case FunctionHandle =>
  }

  /** The codes are distinct: no two classes share a constant. */
  lemma CodesDistinct()
    ensures forall c, d :: Code(c) == Code(d) ==> c == d
  {
    forall c, d | Code(c) == Code(d) ensures c == d {
      FromCodeOfCode(c);
      FromCodeOfCode(d);
    }
  }

  /** Names of the classes identified by the constants, in code order. */
  const classnames: seq<string> := [
    "unknown", "cell", "struct", "logical", "char", "void", "double", "single",
    "int8", "uint8", "int16", "uint16", "int32", "uint32", "int64", "uint64",
    "function_handle"
  ]

  /** MATLAB's name for each class, case by case. */
  function Name(c: MxClass): string {
    match c
    case Unknown => "unknown"
    case Cell => "cell"
    case Struct => "struct"
    case Logical => "logical"
    case Char => "char"
    case Void => "void"
    case Double => "double"
    case Single => "single"
    case Int8 => "int8"
    case Uint8 => "uint8"
    case Int16 => "int16"
    case Uint16 => "uint16"
    case Int32 => "int32"
    case Uint32 => "uint32"
    case Int64 => "int64"
    case Uint64 => "uint64"
    case FunctionHandle => "function_handle"
  }

  /** The names table has one entry per code, and entry k names the class coded k. */
  lemma {:induction false} ClassNamesNameTheirCodes(c: MxClass)
    ensures |classnames| == FUNCTION_CLASS + 1
    ensures classnames[Code(c)] == Name(c)
  {
    match c
    case Unknown =>
    case Cell =>
    case Struct =>
    case Logical =>
    case Char =>
    case Void =>
    case Double =>
    case Single =>
    case Int8 =>
    case Uint8 =>
    case Int16 =>
    case Uint16 =>
    case Int32 =>
    case Uint32 =>
    case Int64 =>
    case Uint64 =>
    case FunctionHandle =>
  }

  /** The Java element types the classtypes table can hold (null is None). */
  datatype JavaType =
    | BooleanType | CharacterType | DoubleType | FloatType
    | ByteType | ShortType | IntegerType | LongType

  /** Java types of the classes, in code order; one entry short of the 17 codes. */
  const classtypes: seq<Option<JavaType>> := [
    None, None, None, Some(BooleanType), Some(CharacterType), None, Some(DoubleType), Some(FloatType),
    Some(ByteType), Some(ShortType), Some(ShortType), Some(IntegerType), Some(IntegerType), Some(LongType), None,
    None
  ]

  /** The range check getData and getImagData make against classtypes. */
  predicate InClassTypesRange(classId: int) {
    0 <= classId < |classtypes|
  }

  /** classtypes has 16 entries, so the function-handle code fails the range check. */
  lemma FunctionClassFailsRangeCheck()
    ensures |classtypes| == FUNCTION_CLASS
    ensures !InClassTypesRange(FUNCTION_CLASS)
    ensures forall k :: 0 <= k < FUNCTION_CLASS ==> InClassTypesRange(k)
  {
  }

  /** classtypes gives no type to unknown, cell, struct, void, int64 and uint64. */
  lemma ClassTypesWithoutType(k: int)
    requires InClassTypesRange(k)
    ensures classtypes[k].None? <==>
      k in {UNKNOWN_CLASS, CELL_CLASS, STRUCT_CLASS, VOID_CLASS, INT64_CLASS, UINT64_CLASS}
  {
  }

  /** The unsigned classes are typed one size above their stored width. */
  lemma UnsignedClassTypesWiden()
    ensures classtypes[UINT8_CLASS] == classtypes[INT16_CLASS] == Some(ShortType)
    ensures classtypes[UINT16_CLASS] == classtypes[INT32_CLASS] == Some(IntegerType)
    ensures classtypes[UINT32_CLASS] == Some(LongType)
  {
  }

  // ---------------------------------------------------------------------------
  // What libmx reports about one array.

  /**
   * Element i of a native buffer as the class's accessors read it: `word` is
   * the value the integer reader of the class's width returns (a signed value,
   * a byte for logical, or an unsigned UTF-16 code unit in 0..65535 for char),
   * `float` the value the floating reader returns.
   */
  datatype Slot<F> = Slot(word: int, float: F)

  type Buffer<F> = seq<Slot<F>>

  /**
   * The native mxArray as libmx's queries see it. Counts are native longs
   * before any narrowing; `data`/`imagData` are what mxGetData (also
   * mxGetLogicals) and mxGetImagData return, None for null; `jc` and `ir`
   * are the native long slots mxGetJc and mxGetIr point to.
   */
  datatype MxState<F> = MxState(
    classId: int,
    dimensionCount: int,
    rows: int,
    columns: int,
    numberOfElements: int,
    sparse: bool,
    complex: bool,
    data: Option<Buffer<F>>,
    imagData: Option<Buffer<F>>,
    jc: seq<int>,
    ir: seq<int>,
    fieldNames: seq<string>)

  /** mxIsNumeric: the floating and integer classes (not logical, not char). */
  predicate IsNumericClass(classId: int) {
    DOUBLE_CLASS <= classId <= UINT64_CLASS
  }

  /** mxIsLogical. */
  predicate IsLogicalClass(classId: int) {
    classId == LOGICAL_CLASS
  }

  /** mxIsStruct. */
  predicate IsStructClass(classId: int) {
    classId == STRUCT_CLASS
  }

  // ---------------------------------------------------------------------------
  // Struct accessors.

  /** getNumberOfFields: the field count of a struct, and a failure otherwise. */
  function NumberOfFields<F>(h: MxState<F>): (r: Result<int>)
    ensures r.Err? <==> !IsStructClass(h.classId)
    ensures r.Err? ==> r.error == NotAStruct
    ensures r.Ok? ==> r.value == |h.fieldNames|
  {
    if !IsStructClass(h.classId) then Err(NotAStruct)
    else Ok(|h.fieldNames|)
  }

  /** The bound check of getFieldName, written with `&&` as in the source. */
  predicate FieldNameIndexRejected(index: int, fieldCount: int) {
    index < 0 && index >= fieldCount
  }

  /** No index is rejected by that check while the field count is non-negative. */
  lemma FieldNameCheckNeverFires(index: int, fieldCount: int)
    requires fieldCount >= 0
    ensures !FieldNameIndexRejected(index, fieldCount)
  {
  }

  /**
   * getFieldName: fails exactly on a non-struct; otherwise it passes every
   * index to mxGetFieldNameByNumber, which gives null (None) out of range.
   */
  function FieldName<F>(h: MxState<F>, index: int): (r: Result<Option<string>>)
    ensures r.Err? <==> !IsStructClass(h.classId)
    ensures r.Err? ==> r.error == NotAStruct
    ensures r.Ok? ==> (r.value.Some? <==> 0 <= index < |h.fieldNames|)
    ensures r.Ok? && r.value.Some? ==> r.value.value == h.fieldNames[index]
  {
    if !IsStructClass(h.classId) then Err(NotAStruct)
    else if FieldNameIndexRejected(index, NumberOfFields(h).value) then Err(IndexOutOfBounds)
    else Ok(if 0 <= index < |h.fieldNames| then Some(h.fieldNames[index]) else None)
  }

  /** mxGetFieldNumber: the position of the first field with that name, or -1. */
  function FieldNumber(names: seq<string>, name: string): (k: int)
    ensures -1 <= k < |names|
    ensures k == -1 <==> name !in names
    ensures k >= 0 ==> names[k] == name && name !in names[..k]
  {
    if |names| == 0 then -1
    else if names[0] == name then 0
    else
      var k := FieldNumber(names[1..], name);
      assert names == [names[0]] + names[1..];
      if k < 0 then -1
      else
        assert names[..k + 1] == [names[0]] + names[1..][..k];
        k + 1
  }

  /** getFieldIndex: fails on a non-struct; otherwise the field's position, or -1. */
  function FieldIndex<F>(h: MxState<F>, name: string): (r: Result<int>)
    ensures r.Err? <==> !IsStructClass(h.classId)
    ensures r.Err? ==> r.error == NotAStruct
    ensures r.Ok? ==> -1 <= r.value < |h.fieldNames|
    ensures r.Ok? ==> (r.value == -1 <==> name !in h.fieldNames)
    ensures r.Ok? && r.value >= 0 ==> h.fieldNames[r.value] == name
  {
    if !IsStructClass(h.classId) then Err(NotAStruct)
    else Ok(FieldNumber(h.fieldNames, name))
  }

  // ---------------------------------------------------------------------------
  // Finalisation.

  /** The Java object's own state: its `doomed` flag. */
  datatype InfoObject = InfoObject(doomed: bool)

  /** Every object starts with `doomed` at Java's default, and no code assigns it. */
  const NewInfoObject: InfoObject := InfoObject(false)

  /** MxArrayInfo.finalize: true when it destroys the native array. */
  function FinalizeDestroys(obj: InfoObject, libraryLoaded: bool): bool {
    libraryLoaded && obj.doomed
  }

  /** Since `doomed` is never set, finalize never destroys the native array. */
  lemma FinalizeNeverDestroys(libraryLoaded: bool)
    ensures !FinalizeDestroys(NewInfoObject, libraryLoaded)
  {
  }
}
