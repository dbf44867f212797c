/**
 * Dense extraction: turning an array's stored elements into a Java array of
 * the matching element type, with the unsigned classes widened one size up.
 */
module MxExtract {
  import opened Outcomes
  import opened JavaInts
  import opened MxClasses

  /** The Java array an extraction returns, tagged by its element type. */
  datatype JavaArray<F> =
    | BooleanArray(bools: seq<bool>)
    | CharArray(units: seq<int>)
    | DoubleArray(floats: seq<F>)
    | FloatArray(floats: seq<F>)
    | ByteArray(ints: seq<int>)
    | ShortArray(ints: seq<int>)
    | IntArray(ints: seq<int>)
    | LongArray(ints: seq<int>)
  {
    /** Array.getLength. */
    function Length(): nat {
      match this
      case BooleanArray(b) => |b|
      case CharArray(u) => |u|
      case DoubleArray(x) => |x|
      case FloatArray(x) => |x|
      case ByteArray(v) => |v|
      case ShortArray(v) => |v|
      case IntArray(v) => |v|
      case LongArray(v) => |v|
    }

    /** getClass().getComponentType(). */
    function ComponentType(): JavaType {
      match this
      case BooleanArray(_) => BooleanType
      case CharArray(_) => CharacterType
      case DoubleArray(_) => DoubleType
      case FloatArray(_) => FloatType
      case ByteArray(_) => ByteType
      case ShortArray(_) => ShortType
      case IntArray(_) => IntegerType
      case LongArray(_) => LongType
    }
  }

  /** The first `length` elements of a buffer, read by the integer reader. */
  function Words<F>(p: Buffer<F>, length: nat): (w: seq<int>)
    requires length <= |p|
    ensures |w| == length && forall i :: 0 <= i < length ==> w[i] == p[i].word
  {
    seq(length, i requires 0 <= i < length => p[i].word)
  }

  /** The first `length` elements of a buffer, read by the floating reader. */
  function Floats<F>(p: Buffer<F>, length: nat): (x: seq<F>)
    requires length <= |p|
    ensures |x| == length && forall i :: 0 <= i < length ==> x[i] == p[i].float
  {
    seq(length, i requires 0 <= i < length => p[i].float)
  }

  /** The classes getRawArrayFromNative has a reader for: logical, char and the numeric ones. */
  predicate IsRawClass(classId: int) {
    classId == LOGICAL_CLASS || classId == CHAR_CLASS || IsNumericClass(classId)
  }

  /**
   * getRawArrayFromNative: the stored elements in the Java array of the
   * stored width, unconverted (a logical array as its bytes).
   */
  function RawArrayFromNative<F>(classId: int, p: Buffer<F>, length: nat): (r: Result<JavaArray<F>>)
    requires length <= |p|
    ensures r.Ok? <==> IsRawClass(classId)
    ensures r.Err? ==> r.error == CannotHandleClass(classId)
    ensures r.Ok? ==> r.value.Length() == length
    ensures r.Ok? && (r.value.DoubleArray? || r.value.FloatArray?) ==>
      forall i :: 0 <= i < length ==> r.value.floats[i] == p[i].float
    ensures r.Ok? && r.value.CharArray? ==> forall i :: 0 <= i < length ==> r.value.units[i] == p[i].word
    ensures r.Ok? && (r.value.ByteArray? || r.value.ShortArray? || r.value.IntArray? || r.value.LongArray?) ==>
      forall i :: 0 <= i < length ==> r.value.ints[i] == p[i].word
    ensures classId in {DOUBLE_CLASS, SINGLE_CLASS} <==> r.Ok? && (r.value.DoubleArray? || r.value.FloatArray?)
    ensures classId == CHAR_CLASS <==> r.Ok? && r.value.CharArray?
  {
    if classId == LOGICAL_CLASS then Ok(ByteArray(Words(p, length)))
    else if classId == CHAR_CLASS then Ok(CharArray(Words(p, length)))
    else if classId == DOUBLE_CLASS then Ok(DoubleArray(Floats(p, length)))
    else if classId == SINGLE_CLASS then Ok(FloatArray(Floats(p, length)))
    else if classId == INT8_CLASS then Ok(ByteArray(Words(p, length)))
    else if classId == INT16_CLASS then Ok(ShortArray(Words(p, length)))
    else if classId == INT32_CLASS then Ok(IntArray(Words(p, length)))
    else if classId == INT64_CLASS then Ok(LongArray(Words(p, length)))
    else if classId == UINT8_CLASS then Ok(ByteArray(Words(p, length)))
    else if classId == UINT16_CLASS then Ok(ShortArray(Words(p, length)))
    else if classId == UINT32_CLASS then Ok(IntArray(Words(p, length)))
    else if classId == UINT64_CLASS then Ok(LongArray(Words(p, length)))
    else Err(CannotHandleClass(classId))
  }

  /** Each stored byte of a logical array tested against zero. */
  function NonZero<F>(p: Buffer<F>, length: nat): seq<bool>
    requires length <= |p|
  {
    seq(length, i requires 0 <= i < length => p[i].word != 0)
  }

  /** Each stored element masked to its unsigned value. */
  function Widened<F>(p: Buffer<F>, length: nat, modulus: int): seq<int>
    requires length <= |p| && IsMaskModulus(modulus)
  {
    seq(length, i requires 0 <= i < length => Mask(p[i].word, modulus))
  }

  /**
   * What getArrayFromNative returns: booleans for logical, the unsigned
   * classes widened (uint8 to short, uint16 to int, uint32 to long), uint64
   * refused, every other class read raw.
   */
  function ArrayFromNative<F>(classId: int, p: Buffer<F>, length: nat): Result<JavaArray<F>>
    requires length <= |p|
  {
    if classId == LOGICAL_CLASS then Ok(BooleanArray(NonZero(p, length)))
    else if classId == UINT8_CLASS then Ok(ShortArray(Widened(p, length, 0x100)))
    else if classId == UINT16_CLASS then Ok(IntArray(Widened(p, length, 0x1_0000)))
    else if classId == UINT32_CLASS then Ok(LongArray(Widened(p, length, TWO_32)))
    else if classId == UINT64_CLASS then Err(Uint64Unsupported)
    else RawArrayFromNative(classId, p, length)
  }

  /** The loop filling a boolean[] with "stored byte is nonzero". */
  method NonZeroBytes<F>(p: Buffer<F>, length: nat) returns (bools: seq<bool>)
    requires length <= |p|
    ensures |bools| == length
    ensures forall i :: 0 <= i < length ==> (bools[i] <==> p[i].word != 0)
  {
    var bb := new bool[length];
    for i := 0 to length
      invariant forall k :: 0 <= k < i ==> (bb[k] <==> p[k].word != 0)
    {
      bb[i] := p[i].word != 0;
    }
    bools := bb[..];
  }

  /** The loops filling short[], int[] and long[] with `mask & stored`. */
  method MaskedWords<F>(p: Buffer<F>, length: nat, modulus: int) returns (ints: seq<int>)
    requires length <= |p| && IsMaskModulus(modulus)
    ensures |ints| == length
    ensures forall i :: 0 <= i < length ==> ints[i] == Mask(p[i].word, modulus)
  {
    var a := new int[length];
    for i := 0 to length
      invariant forall k :: 0 <= k < i ==> a[k] == Mask(p[k].word, modulus)
    {
      a[i] := Mask(p[i].word, modulus);
    }
    ints := a[..];
  }

  /** getArrayFromNative. */
  method GetArrayFromNative<F>(classId: int, p: Buffer<F>, length: nat) returns (r: Result<JavaArray<F>>)
    requires length <= |p|
    ensures r == ArrayFromNative(classId, p, length)
  {
    if classId == LOGICAL_CLASS {
      var bb := NonZeroBytes(p, length);
      assert bb == NonZero(p, length);
      r := Ok(BooleanArray(bb));
    } else if classId == UINT8_CLASS {
      var ss := MaskedWords(p, length, 0x100);
      assert ss == Widened(p, length, 0x100);
      r := Ok(ShortArray(ss));
    } else if classId == UINT16_CLASS {
      var ii := MaskedWords(p, length, 0x1_0000);
      assert ii == Widened(p, length, 0x1_0000);
      r := Ok(IntArray(ii));
    } else if classId == UINT32_CLASS {
      var ll := MaskedWords(p, length, TWO_32);
      assert ll == Widened(p, length, TWO_32);
      r := Ok(LongArray(ll));
    } else if classId == UINT64_CLASS {
      r := Err(Uint64Unsupported);
    } else {
      r := RawArrayFromNative(classId, p, length);
    }
  }

  /** The classes getArrayFromNative converts: all readable ones but uint64. */
  predicate IsExtractableClass(classId: int) {
    IsRawClass(classId) && classId != UINT64_CLASS
  }

  /** Extraction succeeds exactly on the extractable classes, with one element per stored element. */
  lemma ArrayFromNativeSucceeds<F>(classId: int, p: Buffer<F>, length: nat)
    requires length <= |p|
    ensures ArrayFromNative(classId, p, length).Ok? <==> IsExtractableClass(classId)
    ensures ArrayFromNative(classId, p, length).Ok? ==> ArrayFromNative(classId, p, length).value.Length() == length
  {
  }

  /** uint64 is refused whatever the buffer holds; the classes without data are refused too. */
  lemma ArrayFromNativeRefuses<F>(classId: int, p: Buffer<F>, length: nat)
    requires length <= |p|
    requires classId in {UNKNOWN_CLASS, CELL_CLASS, STRUCT_CLASS, VOID_CLASS, FUNCTION_CLASS, UINT64_CLASS}
    ensures ArrayFromNative(classId, p, length) ==
      if classId == UINT64_CLASS then Err(Uint64Unsupported) else Err(CannotHandleClass(classId))
  {
  }

  /** A logical element is true exactly when its stored byte is nonzero. */
  lemma LogicalIsNonZero<F>(p: Buffer<F>, length: nat, i: nat)
    requires i < length <= |p|
    ensures ArrayFromNative(LOGICAL_CLASS, p, length).value.BooleanArray?
    ensures ArrayFromNative(LOGICAL_CLASS, p, length).value.bools[i] <==> p[i].word != 0
  {
  }

  /**
   * char, double, single and the signed integer classes are copied: element
   * i of the result is stored element i.
   */
  lemma RawClassesCopied<F>(classId: int, p: Buffer<F>, length: nat, i: nat)
    requires classId in {CHAR_CLASS, DOUBLE_CLASS, SINGLE_CLASS, INT8_CLASS, INT16_CLASS, INT32_CLASS, INT64_CLASS}
    requires i < length <= |p|
    ensures ArrayFromNative(classId, p, length).Ok?
    ensures var a := ArrayFromNative(classId, p, length).value;
      && (classId in {DOUBLE_CLASS, SINGLE_CLASS} ==> (a.DoubleArray? || a.FloatArray?) && a.floats[i] == p[i].float)
      && (classId == CHAR_CLASS ==> a.CharArray? && a.units[i] == p[i].word)
      && (classId in {INT8_CLASS, INT16_CLASS, INT32_CLASS, INT64_CLASS} ==>
            (a.ByteArray? || a.ShortArray? || a.IntArray? || a.LongArray?) && a.ints[i] == p[i].word)
  {
  }

  /** A buffer of zeros extracts to zeros: false for logical, 0 for char and every integer class. */
  lemma ZeroBufferGivesZeros<F>(classId: int, p: Buffer<F>, length: nat, i: nat)
    requires IsExtractableClass(classId) && classId !in {DOUBLE_CLASS, SINGLE_CLASS}
    requires i < length <= |p|
    requires forall k :: 0 <= k < length ==> p[k].word == 0
    ensures ArrayFromNative(classId, p, length).Ok?
    ensures var a := ArrayFromNative(classId, p, length).value;
      && (a.BooleanArray? ==> !a.bools[i])
      && (a.CharArray? ==> a.units[i] == 0)
      && (a.ByteArray? || a.ShortArray? || a.IntArray? || a.LongArray? ==> a.ints[i] == 0)
  {
  }

  /** The stored width of an unsigned class as the modulus 2^w, and 0 for the other classes. */
  function UnsignedModulus(classId: int): int {
    if classId == UINT8_CLASS then 0x100
    else if classId == UINT16_CLASS then 0x1_0000
    else if classId == UINT32_CLASS then TWO_32
    else 0
  }

  /**
   * Unsigned widening: each uint8/uint16/uint32 element lies in [0, 2^w), is
   * congruent to the stored w-bit value modulo 2^w, equals it when it is
   * non-negative and is 2^w above it when it is negative.
   */
  lemma UnsignedWidening<F>(classId: int, p: Buffer<F>, length: nat, i: nat)
    requires classId in {UINT8_CLASS, UINT16_CLASS, UINT32_CLASS}
    requires i < length <= |p|
    ensures ArrayFromNative(classId, p, length).Ok?
    ensures var m, v := UnsignedModulus(classId), ArrayFromNative(classId, p, length).value.ints[i];
      && 0 <= v < m
      && (v - p[i].word) % m == 0
      && (0 <= p[i].word < m ==> v == p[i].word)
      && (-m <= p[i].word < 0 ==> v == p[i].word + m)
  {
  }

  /**
   * The array getArrayFromNative returns has the element type classtypes
   * lists for its class, except int64: classtypes gives it none, yet it is
   * extracted as long[] because the table is only range-checked.
   */
  lemma ClassTypesMatchExtraction<F>(classId: int, p: Buffer<F>, length: nat)
    requires length <= |p|
    requires ArrayFromNative(classId, p, length).Ok?
    ensures InClassTypesRange(classId)
    ensures classId != INT64_CLASS ==>
      classtypes[classId] == Some(ArrayFromNative(classId, p, length).value.ComponentType())
    ensures classId == INT64_CLASS ==>
      classtypes[classId] == None && ArrayFromNative(classId, p, length).value.ComponentType() == LongType
  {
  }

  // ---------------------------------------------------------------------------
  // getData and getImagData.

  /** The buffer, when present, holds the `length` elements that will be read. */
  predicate Covers<F>(b: Option<Buffer<F>>, length: int) {
    b.Some? && length >= 0 ==> length <= |b.value|
  }

  /**
   * A dense array's buffer, when present, holds the (narrowed) number of
   * elements; a sparse array's buffer holds its nonzeros instead.
   */
  predicate DenseCovers<F>(h: MxState<F>, b: Option<Buffer<F>>) {
    !h.sparse ==> Covers(b, ElementCount(h))
  }

  /** getNumberOfElements narrowed by `(int)`, as getData reads it. */
  function ElementCount<F>(h: MxState<F>): int {
    ToInt(h.numberOfElements)
  }

  /** What getData returns: its guards in order, then getArrayFromNative on the real data. */
  function Data<F>(h: MxState<F>): Result<JavaArray<F>>
    requires DenseCovers(h, h.data)
  {
    var c := h.classId;
    if !IsNumericClass(c) && !IsLogicalClass(c) then Err(NotNumericOrLogical)
    else if h.sparse then Err(SparseUnsupported)
    else if h.data.None? then Err(ReturnedNull(if IsNumericClass(c) then "mxGetData" else "mxGetLogicals"))
    else if !InClassTypesRange(c) then Err(IllegalDataClass(c))
    else if ElementCount(h) < 0 then Err(BadElementCount(h.numberOfElements))
    else ArrayFromNative(c, h.data.value, ElementCount(h))
  }

  /** What getImagData returns: its guards in order, then getArrayFromNative on the imaginary data. */
  function ImagData<F>(h: MxState<F>): Result<JavaArray<F>>
    requires DenseCovers(h, h.imagData)
  {
    var c := h.classId;
    if !IsNumericClass(c) || !h.complex then Err(NotComplexNumeric)
    else if h.sparse then Err(SparseUnsupported)
    else if h.imagData.None? then Err(ReturnedNull("mxGetImagData"))
    else if !InClassTypesRange(c) then Err(IllegalDataClass(c))
    else if ElementCount(h) < 0 then Err(BadElementCount(h.numberOfElements))
    else ArrayFromNative(c, h.imagData.value, ElementCount(h))
  }

  /** getData. */
  method GetData<F>(h: MxState<F>) returns (r: Result<JavaArray<F>>)
    requires DenseCovers(h, h.data)
    ensures r == Data(h)
  {
    var c := h.classId;
    if !IsNumericClass(c) && !IsLogicalClass(c) {
      return Err(NotNumericOrLogical);
    }
    if h.sparse {
      return Err(SparseUnsupported);
    }
    if h.data.None? {
      return Err(ReturnedNull(if IsNumericClass(c) then "mxGetData" else "mxGetLogicals"));
    }
    if c < 0 || c >= |classtypes| {
      return Err(IllegalDataClass(c));
    }
    var length := ToInt(h.numberOfElements);
    if length < 0 {
      return Err(BadElementCount(h.numberOfElements));
    }
    r := GetArrayFromNative(c, h.data.value, length);
  }

  /** getImagData. */
  method GetImagData<F>(h: MxState<F>) returns (r: Result<JavaArray<F>>)
    requires DenseCovers(h, h.imagData)
    ensures r == ImagData(h)
  {
    var c := h.classId;
    if !IsNumericClass(c) || !h.complex {
      return Err(NotComplexNumeric);
    }
    if h.sparse {
      return Err(SparseUnsupported);
    }
    if h.imagData.None? {
      return Err(ReturnedNull("mxGetImagData"));
    }
    if c < 0 || c >= |classtypes| {
      return Err(IllegalDataClass(c));
    }
    var length := ToInt(h.numberOfElements);
    if length < 0 {
      return Err(BadElementCount(h.numberOfElements));
    }
    r := GetArrayFromNative(c, h.imagData.value, length);
  }

  /**
   * getData succeeds exactly on a dense numeric or logical array other than
   * uint64 whose data pointer is set and whose narrowed count is not
   * negative; the classtypes range check never decides the outcome.
   */
  lemma DataSucceedsExactly<F>(h: MxState<F>)
    requires DenseCovers(h, h.data)
    ensures Data(h).Ok? <==>
      && (IsNumericClass(h.classId) || IsLogicalClass(h.classId))
      && h.classId != UINT64_CLASS
      && !h.sparse && h.data.Some? && ElementCount(h) >= 0
    ensures Data(h).Err? ==> !Data(h).error.IllegalDataClass?
  {
    var c := h.classId;
    if (IsNumericClass(c) || IsLogicalClass(c)) && !h.sparse && h.data.Some? && ElementCount(h) >= 0 {
      ArrayFromNativeSucceeds(c, h.data.value, ElementCount(h));
    }
  }

  /** getImagData succeeds exactly on a dense complex numeric array other than uint64 with its pointer set. */
  lemma ImagDataSucceedsExactly<F>(h: MxState<F>)
    requires DenseCovers(h, h.imagData)
    ensures ImagData(h).Ok? <==>
      && IsNumericClass(h.classId) && h.complex
      && h.classId != UINT64_CLASS
      && !h.sparse && h.imagData.Some? && ElementCount(h) >= 0
    ensures ImagData(h).Err? ==> !ImagData(h).error.IllegalDataClass?
  {
    var c := h.classId;
    if IsNumericClass(c) && h.complex && !h.sparse && h.imagData.Some? && ElementCount(h) >= 0 {
      ArrayFromNativeSucceeds(c, h.imagData.value, ElementCount(h));
    }
  }

  /** The guards of getData and getImagData, with the exception each raises. */
  lemma DataGuards<F>(h: MxState<F>)
    requires DenseCovers(h, h.data) && DenseCovers(h, h.imagData)
    ensures !IsNumericClass(h.classId) && !IsLogicalClass(h.classId) ==> Data(h) == Err(NotNumericOrLogical)
    ensures (IsNumericClass(h.classId) || IsLogicalClass(h.classId)) && h.sparse ==> Data(h) == Err(SparseUnsupported)
    ensures !IsNumericClass(h.classId) || !h.complex ==> ImagData(h) == Err(NotComplexNumeric)
    ensures IsNumericClass(h.classId) && h.complex && h.sparse ==> ImagData(h) == Err(SparseUnsupported)
    ensures h.classId == FUNCTION_CLASS ==> Data(h).Err? && ImagData(h).Err?
    ensures h.classId == UINT64_CLASS ==> Data(h).Err? && ImagData(h).Err?
  {
    DataSucceedsExactly(h);
    ImagDataSucceedsExactly(h);
  }

  /**
   * The array getData returns has as many elements as the `(int)` narrowing
   * of getNumberOfElements: the count itself below 2^31, and never the count
   * from 2^31 on.
   */
  lemma DataLength<F>(h: MxState<F>)
    requires DenseCovers(h, h.data)
    requires Data(h).Ok?
    ensures Data(h).value.Length() == ElementCount(h)
    ensures 0 <= h.numberOfElements <= INT_MAX ==> Data(h).value.Length() == h.numberOfElements
    ensures h.numberOfElements > INT_MAX ==> Data(h).value.Length() != h.numberOfElements
  {
    ArrayFromNativeSucceeds(h.classId, h.data.value, ElementCount(h));
  }

  // ---------------------------------------------------------------------------
  // getValueAt.

  /** The boxed Number type getValueAt returns. */
  datatype NumberKind = ByteNumber | ShortNumber | IntegerNumber | LongNumber | FloatNumber | DoubleNumber

  /**
   * The dispatch of getValueAt: which Number it returns, or the exception it
   * throws. A logical array is read through mxGetLogicals before the switch;
   * a null data pointer makes the read throw.
   */
  function ValueAtKind<F>(h: MxState<F>): (r: Result<NumberKind>)
    ensures r.Ok? ==> h.data.Some?
    ensures h.data.None? && (IsLogicalClass(h.classId) || (IsNumericClass(h.classId) && h.classId != UINT64_CLASS)) ==>
      r == Err(NullDereference)
    ensures h.data.Some? ==> (h.classId in {LOGICAL_CLASS, INT8_CLASS} <==> r == Ok(ByteNumber))
    ensures h.data.Some? ==> (h.classId == INT16_CLASS <==> r == Ok(ShortNumber))
    ensures h.data.Some? ==> (h.classId in {INT32_CLASS, UINT8_CLASS, UINT16_CLASS} <==> r == Ok(IntegerNumber))
    ensures h.data.Some? ==> (h.classId in {INT64_CLASS, UINT32_CLASS} <==> r == Ok(LongNumber))
    ensures h.data.Some? ==> (h.classId == SINGLE_CLASS <==> r == Ok(FloatNumber))
    ensures h.data.Some? ==> (h.classId == DOUBLE_CLASS <==> r == Ok(DoubleNumber))
    ensures h.classId == UINT64_CLASS ==> r == Err(Uint64Unsupported)
    ensures !IsLogicalClass(h.classId) && !IsNumericClass(h.classId) ==> r == Err(CannotHandleClass(h.classId))
  {
    var c := h.classId;
    if IsLogicalClass(c) then
      if h.data.None? then Err(NullDereference) else Ok(ByteNumber)
    else
      var kind :=
        if c == DOUBLE_CLASS then Ok(DoubleNumber)
        else if c == SINGLE_CLASS then Ok(FloatNumber)
        else if c == INT8_CLASS then Ok(ByteNumber)
        else if c == INT16_CLASS then Ok(ShortNumber)
        else if c == INT32_CLASS then Ok(IntegerNumber)
        else if c == INT64_CLASS then Ok(LongNumber)
        else if c == UINT8_CLASS then Ok(IntegerNumber)
        else if c == UINT16_CLASS then Ok(IntegerNumber)
        else if c == UINT32_CLASS then Ok(LongNumber)
        else if c == UINT64_CLASS then Err(Uint64Unsupported)
        else Err(CannotHandleClass(c));
      if kind.Ok? && h.data.None? then Err(NullDereference) else kind
  }

  /**
   * getValueAt refuses uint64 and the classes without numeric data whatever
   * the array holds, and returns a value for every other numeric or logical
   * class whose data pointer is set.
   */
  lemma ValueAtDispatch<F>(h: MxState<F>)
    ensures h.classId == UINT64_CLASS ==> ValueAtKind(h) == Err(Uint64Unsupported)
    ensures h.classId in {UNKNOWN_CLASS, CELL_CLASS, STRUCT_CLASS, CHAR_CLASS, VOID_CLASS, FUNCTION_CLASS} ==>
      ValueAtKind(h) == Err(CannotHandleClass(h.classId))
    ensures ValueAtKind(h).Ok? <==>
      (IsNumericClass(h.classId) || IsLogicalClass(h.classId)) && h.classId != UINT64_CLASS && h.data.Some?
  {
  }
}
