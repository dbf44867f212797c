/**
 * Two-dimensional views of an array: the compressed-sparse-column decode of
 * sparse double and logical matrices, and the row-by-row reshape of dense
 * data.
 */
module MxMatrix {
  import opened Outcomes
  import opened JavaInts
  import opened MxClasses
  import opened MxExtract
  import opened NativeLongArrays

  /** A Java two-dimensional array `T[Nr][Nc]`, tagged by its element type, as a sequence of rows. */
  datatype JavaMatrix<F> =
    | BooleanMatrix(bools: seq<seq<bool>>)
    | CharMatrix(units: seq<seq<int>>)
    | DoubleMatrix(floats: seq<seq<F>>)
    | FloatMatrix(floats: seq<seq<F>>)
    | ByteMatrix(ints: seq<seq<int>>)
    | ShortMatrix(ints: seq<seq<int>>)
    | IntMatrix(ints: seq<seq<int>>)
    | LongMatrix(ints: seq<seq<int>>)
  {
    /** getClass().getComponentType().getComponentType(): the element type of the rows. */
    function ComponentType(): JavaType {
      match this
      case BooleanMatrix(_) => BooleanType
      case CharMatrix(_) => CharacterType
      case DoubleMatrix(_) => DoubleType
      case FloatMatrix(_) => FloatType
      case ByteMatrix(_) => ByteType
      case ShortMatrix(_) => ShortType
      case IntMatrix(_) => IntegerType
      case LongMatrix(_) => LongType
    }
  }

  /** `m` has `nr` rows of `nc` elements each. */
  predicate IsShaped<T>(m: seq<seq<T>>, nr: int, nc: int) {
    |m| == nr && forall i :: 0 <= i < |m| ==> |m[i]| == nc
  }

  /** The rows of a two-dimensional array. */
  function Rows<T>(a: array2<T>): (m: seq<seq<T>>)
    reads a
    ensures IsShaped(m, a.Length0, a.Length1)
    ensures forall i, j :: 0 <= i < a.Length0 && 0 <= j < a.Length1 ==> m[i][j] == a[i, j]
  {
    seq(a.Length0, i requires 0 <= i < a.Length0 reads a =>
      seq(a.Length1, j requires 0 <= j < a.Length1 reads a => a[i, j]))
  }

  /** Two matrices of the same shape with the same cells are equal. */
  lemma MatrixEquality<T>(m1: seq<seq<T>>, m2: seq<seq<T>>, nr: int, nc: int)
    requires IsShaped(m1, nr, nc) && IsShaped(m2, nr, nc)
    requires forall i, j :: 0 <= i < nr && 0 <= j < nc ==> m1[i][j] == m2[i][j]
    ensures m1 == m2
  {
    forall i | 0 <= i < nr
      ensures m1[i] == m2[i]
    {
      assert forall j :: 0 <= j < nc ==> m1[i][j] == m2[i][j];
    }
  }

  // ---------------------------------------------------------------------------
  // Sparse decode.

  /**
   * A compressed-sparse-column layout of an nr-by-nc matrix that the decode
   * can walk: column j's entries are ir[jc[j] .. jc[j+1]-1], starting at 0,
   * with row indices in range. Rows need not be distinct within a column;
   * libmx's own layouts also have increasing rows there (RowsIncreasing).
   */
  predicate IsCsc(nr: int, nc: int, jc: seq<int>, ir: seq<int>) {
    && 0 <= nc && |jc| == nc + 1
    && jc[0] == 0
    && (forall j, k :: 0 <= j <= k <= nc ==> jc[j] <= jc[k])
    && jc[nc] == |ir|
    && forall l :: 0 <= l < |ir| ==> 0 <= ir[l] < nr
  }

  /** Within each column the row indices strictly increase, as in the layouts libmx builds. */
  predicate RowsIncreasing(nc: int, jc: seq<int>, ir: seq<int>)
    requires 0 <= nc && |jc| == nc + 1
  {
    forall j, k, l :: 0 <= j < nc && jc[j] <= k < l < jc[j + 1] && 0 <= k && l < |ir| ==> ir[k] < ir[l]
  }

  /**
   * The value the decode leaves in row r after writing entries lo .. hi-1:
   * the last of them whose row is r, or `zero` when there is none.
   */
  function LastEntry<T>(ir: seq<int>, vals: seq<T>, zero: T, r: int, lo: int, hi: int): T
    requires 0 <= lo <= hi <= |ir| && |ir| <= |vals|
    decreases hi - lo
  {
    if lo == hi then zero
    else if ir[hi - 1] == r then vals[hi - 1]
    else LastEntry(ir, vals, zero, r, lo, hi - 1)
  }

  /** The dense matrix a compressed-sparse-column layout decodes to, later entries overwriting earlier ones. */
  function SparseToDense<T>(nr: nat, nc: nat, jc: seq<int>, ir: seq<int>, vals: seq<T>, zero: T): (m: seq<seq<T>>)
    requires IsCsc(nr, nc, jc, ir) && |vals| == |ir|
    ensures IsShaped(m, nr, nc)
  {
    seq(nr, r requires 0 <= r < nr =>
      seq(nc, j requires 0 <= j < nc => LastEntry(ir, vals, zero, r, jc[j], jc[j + 1])))
  }

  /** An entry no later entry of its column overwrites is what the cell holds. */
  lemma {:induction false} LastEntryIsLastWrite<T>(ir: seq<int>, vals: seq<T>, zero: T, lo: int, hi: int, l: int)
    requires 0 <= lo <= l < hi <= |ir| && |ir| <= |vals|
    requires forall k :: l < k < hi ==> ir[k] != ir[l]
    ensures LastEntry(ir, vals, zero, ir[l], lo, hi) == vals[l]
    decreases hi - lo
  {
    if l < hi - 1 {
      LastEntryIsLastWrite(ir, vals, zero, lo, hi - 1, l);
    }
  }

  /** A row no entry of the column names keeps the zero value. */
  lemma {:induction false} LastEntryAbsent<T>(ir: seq<int>, vals: seq<T>, zero: T, r: int, lo: int, hi: int)
    requires 0 <= lo <= hi <= |ir| && |ir| <= |vals|
    requires forall k :: lo <= k < hi ==> ir[k] != r
    ensures LastEntry(ir, vals, zero, r, lo, hi) == zero
    decreases hi - lo
  {
    if lo < hi {
      LastEntryAbsent(ir, vals, zero, r, lo, hi - 1);
    }
  }

  /**
   * Entry l of column j lands in cell (ir[l], j) unless a later entry of the
   * same column names the same row (with increasing rows none does, see
   * SortedEntryLands).
   */
  lemma SparseEntryLands<T>(nr: nat, nc: nat, jc: seq<int>, ir: seq<int>, vals: seq<T>, zero: T, j: int, l: int)
    requires IsCsc(nr, nc, jc, ir) && |vals| == |ir|
    requires 0 <= j < nc && jc[j] <= l < jc[j + 1]
    requires forall k :: l < k < jc[j + 1] ==> ir[k] != ir[l]
    ensures SparseToDense(nr, nc, jc, ir, vals, zero)[ir[l]][j] == vals[l]
  {
    assert jc[j + 1] <= jc[nc];
    LastEntryIsLastWrite(ir, vals, zero, jc[j], jc[j + 1], l);
  }

  /** With increasing rows within each column, every entry lands in its cell. */
  lemma SortedEntryLands<T>(nr: nat, nc: nat, jc: seq<int>, ir: seq<int>, vals: seq<T>, zero: T, j: int, l: int)
    requires IsCsc(nr, nc, jc, ir) && |vals| == |ir| && RowsIncreasing(nc, jc, ir)
    requires 0 <= j < nc && jc[j] <= l < jc[j + 1]
    ensures SparseToDense(nr, nc, jc, ir, vals, zero)[ir[l]][j] == vals[l]
  {
    assert jc[j + 1] <= jc[nc];
    assert forall k :: l < k < jc[j + 1] ==> ir[l] < ir[k];
    SparseEntryLands(nr, nc, jc, ir, vals, zero, j, l);
  }

  /** A cell no entry of its column names stays zero. */
  lemma SparseCellStaysZero<T>(nr: nat, nc: nat, jc: seq<int>, ir: seq<int>, vals: seq<T>, zero: T, r: int, j: int)
    requires IsCsc(nr, nc, jc, ir) && |vals| == |ir|
    requires 0 <= r < nr && 0 <= j < nc
    requires forall l :: jc[j] <= l < jc[j + 1] ==> ir[l] != r
    ensures SparseToDense(nr, nc, jc, ir, vals, zero)[r][j] == zero
  {
    assert jc[j] <= jc[j + 1] <= jc[nc];
    LastEntryAbsent(ir, vals, zero, r, jc[j], jc[j + 1]);
  }

  /**
   * The sparse branch's loops: a zeroed nr-by-nc array, column j taking
   * entries jc[j] .. jc[j+1]-1 through the running index `l`, which ends at
   * jc[nc].
   */
  method DecodeSparse<T>(nr: nat, nc: nat, jc: seq<int>, ir: seq<int>, vals: seq<T>, zero: T)
    returns (m: seq<seq<T>>, l: int)
    requires IsCsc(nr, nc, jc, ir) && |vals| == |ir|
    ensures m == SparseToDense(nr, nc, jc, ir, vals, zero)
    ensures l == jc[nc] == |ir|
  {
    var res := new T[nr, nc]((_, _) => zero);
    l := 0;
    for j := 0 to nc
      invariant l == jc[j]
      invariant forall r, c :: 0 <= r < nr && 0 <= c < j ==>
        res[r, c] == LastEntry(ir, vals, zero, r, jc[c], jc[c + 1])
      invariant forall r, c :: 0 <= r < nr && j <= c < nc ==> res[r, c] == zero
    {
      assert jc[j] <= jc[j + 1] <= jc[nc];
      while l < jc[j + 1]
        invariant jc[j] <= l <= jc[j + 1]
        invariant forall r, c :: 0 <= r < nr && 0 <= c < j ==>
          res[r, c] == LastEntry(ir, vals, zero, r, jc[c], jc[c + 1])
        invariant forall r :: 0 <= r < nr ==> res[r, j] == LastEntry(ir, vals, zero, r, jc[j], l)
        invariant forall r, c :: 0 <= r < nr && j < c < nc ==> res[r, c] == zero
      {
        res[ir[l], j] := vals[l];
        l := l + 1;
      }
    }
    m := Rows(res);
    MatrixEquality(m, SparseToDense(nr, nc, jc, ir, vals, zero), nr, nc);
  }

  // ---------------------------------------------------------------------------
  // Dense reshape.

  /** The index `j*Nc + i` the dense branch reads, in Java `int` arithmetic. */
  function DenseIndex(nc: int, i: int, j: int): (k: int)
    ensures IsInt(k)
  {
    ToInt(ToInt(j * nc) + i)
  }

  /** Every index the dense branch reads lies inside data of length n. */
  predicate DenseInBounds(n: int, nr: int, nc: int) {
    forall i, j :: 0 <= i < nr && 0 <= j < nc ==> 0 <= DenseIndex(nc, i, j) < n
  }

  /** The dense branch's result: cell (i, j) is data[j*Nc + i]. */
  function Reshape<T>(data: seq<T>, nr: nat, nc: nat): (m: seq<seq<T>>)
    requires DenseInBounds(|data|, nr, nc)
    ensures IsShaped(m, nr, nc)
  {
    seq(nr, i requires 0 <= i < nr => seq(nc, j requires 0 <= j < nc => data[DenseIndex(nc, i, j)]))
  }

  /** The column-major reading of data as an nr-by-nc matrix: cell (i, j) is data[j*Nr + i]. */
  function ColumnMajor<T>(data: seq<T>, nr: nat, nc: nat): (m: seq<seq<T>>)
    requires |data| == nr * nc
    ensures IsShaped(m, nr, nc)
  {
    seq(nr, i requires 0 <= i < nr => seq(nc, j requires 0 <= j < nc =>
      ColumnMajorInBounds(nr, nc, i, j);
      data[j * nr + i]))
  }

  lemma ColumnMajorInBounds(nr: nat, nc: nat, i: int, j: int)
    requires 0 <= i < nr && 0 <= j < nc
    ensures 0 <= j * nr + i < nr * nc
  {
    assert (j + 1) * nr <= nc * nr;
  }

  /** The dense branch's nested loops: row i, column j takes data[j*Nc + i], and a bad index throws. */
  method ReshapeAsWritten<T(0)>(data: seq<T>, nr: nat, nc: nat) returns (r: Result<seq<seq<T>>>)
    ensures r.Ok? <==> DenseInBounds(|data|, nr, nc)
    ensures r.Err? ==> r.error == IndexOutOfBounds
    ensures r.Ok? ==> r.value == Reshape(data, nr, nc)
  {
    var res := new T[nr, nc];
    for i := 0 to nr
      invariant forall a, b :: 0 <= a < i && 0 <= b < nc ==>
        0 <= DenseIndex(nc, a, b) < |data| && res[a, b] == data[DenseIndex(nc, a, b)]
    {
      for j := 0 to nc
        invariant forall a, b :: 0 <= a < i && 0 <= b < nc ==>
          0 <= DenseIndex(nc, a, b) < |data| && res[a, b] == data[DenseIndex(nc, a, b)]
        invariant forall b :: 0 <= b < j ==>
          0 <= DenseIndex(nc, i, b) < |data| && res[i, b] == data[DenseIndex(nc, i, b)]
      {
        var k := DenseIndex(nc, i, j);
        if k < 0 || k >= |data| {
          return Err(IndexOutOfBounds);
        }
        res[i, j] := data[k];
      }
    }
    r := Ok(Rows(res));
    MatrixEquality(r.value, Reshape(data, nr, nc), nr, nc);
  }

  /** j*Nc + i stays inside an nr*nc buffer when Nc <= Nr. */
  lemma DenseIndexFits(nr: nat, nc: nat, i: int, j: int)
    requires nr * nc <= INT_MAX && nc <= nr
    requires 0 <= i < nr && 0 <= j < nc
    ensures DenseIndex(nc, i, j) == j * nc + i
    ensures 0 <= j * nc + i < nr * nc
  {
    MulMonotone(j, nc, nr);
    MulMonotone(nr, j + 1, nc);
    var x := j * nc;
    assert nr * (j + 1) == nr * j + nr;
    assert 0 <= x && x + i < nr * nc;
    assert ToInt(x) == x;
  }

  /** Multiplying by a non-negative factor keeps order. */
  lemma MulMonotone(a: int, b: int, c: int)
    requires 0 <= a && b <= c
    ensures a * b <= a * c
  {
  }

  /** Narrowing a value just above the `int` range wraps it below zero. */
  lemma ToIntJustAbove(x: int)
    requires INT_MAX < x <= 2 * INT_MAX
    ensures ToInt(x) < 0
  {
  }

  /**
   * When data holds exactly nr*nc elements, every index the dense branch
   * reads is in bounds exactly when the matrix has no rows or no more
   * columns than rows.
   */
  lemma DenseInBoundsIff(nr: nat, nc: nat)
    requires nr * nc <= INT_MAX
    ensures DenseInBounds(nr * nc, nr, nc) <==> nr == 0 || nc <= nr
  {
    if nr == 0 {
    } else if nc <= nr {
      forall i, j | 0 <= i < nr && 0 <= j < nc
        ensures 0 <= DenseIndex(nc, i, j) < nr * nc
      {
        DenseIndexFits(nr, nc, i, j);
      }
    } else {
      // Cell (nr-1, nr) reads index nr*nc + nr - 1: at least nr*nc, or wrapped negative.
      var i, j := nr - 1, nr;
      assert IsInt(j * nc);
      var x := j * nc + i;
      assert DenseIndex(nc, i, j) == ToInt(x);
      if x > INT_MAX {
        ToIntJustAbove(x);
      }
      assert !(0 <= DenseIndex(nc, i, j) < nr * nc);
    }
  }

  /**
   * The index j*Nc + i coincides with the column-major j*Nr + i on every
   * cell exactly when the matrix is square, has at most one column or has
   * no rows.
   */
  lemma DenseIndexIsColumnMajorIff(nr: nat, nc: nat)
    requires nr * nc <= INT_MAX
    ensures (forall i, j :: 0 <= i < nr && 0 <= j < nc ==> DenseIndex(nc, i, j) == j * nr + i)
      <==> (nr == nc || nc <= 1 || nr == 0)
  {
    if nr == nc {
      forall i, j | 0 <= i < nr && 0 <= j < nc
        ensures DenseIndex(nc, i, j) == j * nr + i
      {
        DenseIndexFits(nr, nc, i, j);
      }
    } else if nc <= 1 || nr == 0 {
    } else {
      assert nc <= nr * nc;
      assert DenseIndex(nc, 0, 1) == nc != 1 * nr + 0;
    }
  }

  /**
   * On a square matrix or a single column, the dense branch's matrix is the
   * column-major reading of the data. For the converse at the level of
   * indices, see DenseIndexIsColumnMajorIff.
   */
  lemma ReshapeIsColumnMajor<T>(data: seq<T>, nr: nat, nc: nat)
    requires |data| == nr * nc <= INT_MAX
    requires nr == nc || nc <= 1
    ensures DenseInBounds(|data|, nr, nc)
    ensures Reshape(data, nr, nc) == ColumnMajor(data, nr, nc)
  {
    DenseInBoundsIff(nr, nc);
    DenseIndexIsColumnMajorIff(nr, nc);
    MatrixEquality(Reshape(data, nr, nc), ColumnMajor(data, nr, nc), nr, nc);
  }

  /** The dense branch applied to a Java array: a bad index throws, otherwise the reshape keeps the element type. */
  function ReshapedArray<F>(a: JavaArray<F>, nr: nat, nc: nat): (r: Result<JavaMatrix<F>>)
    ensures r.Err? <==> !DenseInBounds(a.Length(), nr, nc)
    ensures r.Err? ==> r.error == IndexOutOfBounds
    ensures r.Ok? ==> r.value.ComponentType() == a.ComponentType()
  {
    if !DenseInBounds(a.Length(), nr, nc) then Err(IndexOutOfBounds)
    else
      match a
      case BooleanArray(b) => Ok(BooleanMatrix(Reshape(b, nr, nc)))
      case CharArray(u) => Ok(CharMatrix(Reshape(u, nr, nc)))
      case DoubleArray(x) => Ok(DoubleMatrix(Reshape(x, nr, nc)))
      case FloatArray(x) => Ok(FloatMatrix(Reshape(x, nr, nc)))
      case ByteArray(v) => Ok(ByteMatrix(Reshape(v, nr, nc)))
      case ShortArray(v) => Ok(ShortMatrix(Reshape(v, nr, nc)))
      case IntArray(v) => Ok(IntMatrix(Reshape(v, nr, nc)))
      case LongArray(v) => Ok(LongMatrix(Reshape(v, nr, nc)))
  }

  /** Array.newInstance(componentType, Nr, Nc) filled by the dense branch's loops. */
  method ReshapeArray<F(0)>(a: JavaArray<F>, nr: nat, nc: nat) returns (r: Result<JavaMatrix<F>>)
    ensures r == ReshapedArray(a, nr, nc)
  {
    match a
    case BooleanArray(b) =>
      var m := ReshapeAsWritten(b, nr, nc);
      r := if m.Ok? then Ok(BooleanMatrix(m.value)) else Err(m.error);
    case CharArray(u) =>
      var m := ReshapeAsWritten(u, nr, nc);
      r := if m.Ok? then Ok(CharMatrix(m.value)) else Err(m.error);
    case DoubleArray(x) =>
      var m := ReshapeAsWritten(x, nr, nc);
      r := if m.Ok? then Ok(DoubleMatrix(m.value)) else Err(m.error);
    case FloatArray(x) =>
      var m := ReshapeAsWritten(x, nr, nc);
      r := if m.Ok? then Ok(FloatMatrix(m.value)) else Err(m.error);
    case ByteArray(v) =>
      var m := ReshapeAsWritten(v, nr, nc);
      r := if m.Ok? then Ok(ByteMatrix(m.value)) else Err(m.error);
    case ShortArray(v) =>
      var m := ReshapeAsWritten(v, nr, nc);
      r := if m.Ok? then Ok(ShortMatrix(m.value)) else Err(m.error);
    case IntArray(v) =>
      var m := ReshapeAsWritten(v, nr, nc);
      r := if m.Ok? then Ok(IntMatrix(m.value)) else Err(m.error);
    case LongArray(v) =>
      var m := ReshapeAsWritten(v, nr, nc);
      r := if m.Ok? then Ok(LongMatrix(m.value)) else Err(m.error);
  }

  // ---------------------------------------------------------------------------
  // getMatrixFromNative.

  /**
   * What libmx guarantees of a sparse nr-by-nc array whose nonzeros are read
   * from p: jc and ir form a compressed-sparse-column layout (IsCsc)
   * (stored as native longs holding `int` values), and p holds the nonzeros.
   */
  predicate SparseReadable<F>(h: MxState<F>, p: Buffer<F>, nr: int, nc: int) {
    && 0 <= nr <= INT_MAX && 0 <= nc < MAX_SLOTS
    && |h.jc| >= nc + 1
    && (forall k :: 0 <= k <= nc ==> IsInt(h.jc[k]))
    && h.jc[0] == 0
    && (forall j, k :: 0 <= j <= k <= nc ==> h.jc[j] <= h.jc[k])
    && h.jc[nc] <= MAX_SLOTS && h.jc[nc] <= |h.ir| && h.jc[nc] <= |p|
    && forall l :: 0 <= l < h.jc[nc] ==> 0 <= h.ir[l] < nr
  }

  /** What getMatrixFromNative reads is there: the dense data for getData, the sparse layout and nonzeros. */
  predicate MatrixReadable<F>(h: MxState<F>, p: Buffer<F>) {
    && DenseCovers(h, h.data)
    && (h.sparse && ToInt(h.rows) >= 0 && ToInt(h.columns) >= 0 ==>
          SparseReadable(h, p, ToInt(h.rows), ToInt(h.columns)))
  }

  /** The column pointers as intValues(Nc + 1) reads them. */
  function SparseColumnStarts<F>(h: MxState<F>, nr: nat, nc: nat, p: Buffer<F>): (jc: seq<int>)
    requires SparseReadable(h, p, nr, nc)
    ensures jc == h.jc[..nc + 1]
  {
    var jcr := IntValuesOf(Some(h.jc), ToInt(nc + 1), 0);
    assert jcr.value == h.jc[..nc + 1];
    jcr.value
  }

  /** The row indices as intValues(jc[Nc]) reads them. */
  function SparseRowIndices<F>(h: MxState<F>, nr: nat, nc: nat, p: Buffer<F>, jc: seq<int>): (ir: seq<int>)
    requires SparseReadable(h, p, nr, nc) && jc == h.jc[..nc + 1]
    ensures IsCsc(nr, nc, jc, ir)
    ensures ir == h.ir[..h.jc[nc]]
  {
    var n := jc[nc];
    assert n == h.jc[nc] && 0 <= n;
    var irr := IntValuesOf(Some(h.ir), n, 0);
    assert forall l :: 0 <= l < n ==> IsInt(h.ir[l]);
    assert forall l :: 0 <= l < n ==> irr.value[l] == h.ir[l];
    assert irr.value == h.ir[..n];
    irr.value
  }

  /**
   * What getMatrixFromNative(p) returns: the narrowed row and column counts
   * checked, then for a sparse array the decode of p's nonzeros (double or
   * logical only), and for a dense one the reshape of getData(), p unused.
   */
  function MatrixFromNative<F>(h: MxState<F>, p: Buffer<F>, zero: F): Result<JavaMatrix<F>>
    requires MatrixReadable(h, p)
  {
    var nr, nc := ToInt(h.rows), ToInt(h.columns);
    if nr < 0 then Err(BadRowCount(h.rows))
    else if nc < 0 then Err(BadColumnCount(h.columns))
    else if h.sparse then
      var jc := SparseColumnStarts(h, nr, nc, p);
      var ir := SparseRowIndices(h, nr, nc, p, jc);
      if h.classId == DOUBLE_CLASS then
        Ok(DoubleMatrix(SparseToDense(nr, nc, jc, ir, Floats(p, jc[nc]), zero)))
      else if h.classId == LOGICAL_CLASS then
        Ok(BooleanMatrix(SparseToDense(nr, nc, jc, ir, NonZero(p, jc[nc]), false)))
      else Err(UnsupportedSparseClass(h.classId))
    else
      var d := Data(h);
      if d.Err? then Err(d.error) else ReshapedArray(d.value, nr, nc)
  }

  /** getMatrixFromNative; `zero` is the double 0.0 a new double[][] is filled with. */
  method GetMatrixFromNative<F(0)>(h: MxState<F>, p: Buffer<F>, zero: F) returns (r: Result<JavaMatrix<F>>)
    requires MatrixReadable(h, p)
    ensures r == MatrixFromNative(h, p, zero)
  {
    var nr := ToInt(h.rows);
    var nc := ToInt(h.columns);
    if nr < 0 {
      return Err(BadRowCount(h.rows));
    }
    if nc < 0 {
      return Err(BadColumnCount(h.columns));
    }
    if h.sparse {
      var jc := SparseColumnStarts(h, nr, nc, p);
      var ir := SparseRowIndices(h, nr, nc, p, jc);
      if h.classId == DOUBLE_CLASS {
        var dd := Floats(p, jc[nc]);
        var ddres, _ := DecodeSparse(nr, nc, jc, ir, dd, zero);
        r := Ok(DoubleMatrix(ddres));
      } else if h.classId == LOGICAL_CLASS {
        var bb := NonZero(p, jc[nc]);
        var bbres, _ := DecodeSparse(nr, nc, jc, ir, bb, false);
        r := Ok(BooleanMatrix(bbres));
      } else {
        r := Err(UnsupportedSparseClass(h.classId));
      }
    } else {
      var d := GetData(h);
      if d.Err? {
        return Err(d.error);
      }
      r := ReshapeArray(d.value, nr, nc);
    }
  }

  /**
   * What getDataAsMatrix returns: its guards, then getMatrixFromNative on the
   * real data. The dimension count is compared after getDimensionCount's
   * `intValue()` narrowing.
   */
  function DataAsMatrix<F>(h: MxState<F>, zero: F): Result<JavaMatrix<F>>
    requires h.data.Some? ==> MatrixReadable(h, h.data.value)
  {
    var c := h.classId;
    if ToInt(h.dimensionCount) != 2 then Err(NotAMatrix(ToInt(h.dimensionCount)))
    else if !IsNumericClass(c) && !IsLogicalClass(c) then Err(NotNumericOrLogical)
    else if h.data.None? then Err(ReturnedNull(if IsNumericClass(c) then "mxGetData" else "mxGetLogicals"))
    else MatrixFromNative(h, h.data.value, zero)
  }

  /**
   * What getImagDataAsMatrix returns: its guards, then getMatrixFromNative on
   * the imaginary data. The null message names mxGetData.
   */
  function ImagDataAsMatrix<F>(h: MxState<F>, zero: F): Result<JavaMatrix<F>>
    requires DenseCovers(h, h.data)
    requires h.imagData.Some? ==> MatrixReadable(h, h.imagData.value)
  {
    var c := h.classId;
    if ToInt(h.dimensionCount) != 2 then Err(NotAMatrix(ToInt(h.dimensionCount)))
    else if !IsNumericClass(c) || !h.complex then Err(NotComplexNumeric)
    else if h.imagData.None? then Err(ReturnedNull(if IsNumericClass(c) then "mxGetData" else "mxGetLogicals"))
    else MatrixFromNative(h, h.imagData.value, zero)
  }

  /** getDataAsMatrix. */
  method GetDataAsMatrix<F(0)>(h: MxState<F>, zero: F) returns (r: Result<JavaMatrix<F>>)
    requires h.data.Some? ==> MatrixReadable(h, h.data.value)
    ensures r == DataAsMatrix(h, zero)
  {
    var c := h.classId;
    if ToInt(h.dimensionCount) != 2 {
      return Err(NotAMatrix(ToInt(h.dimensionCount)));
    }
    if !IsNumericClass(c) && !IsLogicalClass(c) {
      return Err(NotNumericOrLogical);
    }
    if h.data.None? {
      return Err(ReturnedNull(if IsNumericClass(c) then "mxGetData" else "mxGetLogicals"));
    }
    r := GetMatrixFromNative(h, h.data.value, zero);
  }

  /** getImagDataAsMatrix. */
  method GetImagDataAsMatrix<F(0)>(h: MxState<F>, zero: F) returns (r: Result<JavaMatrix<F>>)
    requires DenseCovers(h, h.data)
    requires h.imagData.Some? ==> MatrixReadable(h, h.imagData.value)
    ensures r == ImagDataAsMatrix(h, zero)
  {
    var c := h.classId;
    if ToInt(h.dimensionCount) != 2 {
      return Err(NotAMatrix(ToInt(h.dimensionCount)));
    }
    if !IsNumericClass(c) || !h.complex {
      return Err(NotComplexNumeric);
    }
    if h.imagData.None? {
      return Err(ReturnedNull(if IsNumericClass(c) then "mxGetData" else "mxGetLogicals"));
    }
    r := GetMatrixFromNative(h, h.imagData.value, zero);
  }

  // ---------------------------------------------------------------------------
  // Facts about the matrix views.

  /** The dense branch never looks at the buffer it is handed. */
  lemma DenseIgnoresPointer<F>(h: MxState<F>, p1: Buffer<F>, p2: Buffer<F>, zero: F)
    requires !h.sparse && MatrixReadable(h, p1) && MatrixReadable(h, p2)
    ensures MatrixFromNative(h, p1, zero) == MatrixFromNative(h, p2, zero)
  {
  }

  /**
   * On a dense complex matrix, getImagDataAsMatrix returns exactly what
   * getDataAsMatrix returns: the real parts.
   */
  lemma DenseImagMatrixIsReal<F>(h: MxState<F>, zero: F)
    requires !h.sparse && h.complex && IsNumericClass(h.classId)
    requires h.data.Some? && MatrixReadable(h, h.data.value)
    requires h.imagData.Some? && MatrixReadable(h, h.imagData.value)
    ensures ImagDataAsMatrix(h, zero) == DataAsMatrix(h, zero)
  {
    DenseIgnoresPointer(h, h.data.value, h.imagData.value, zero);
  }

  /** The guards of the matrix views, with the exception each raises; the dimension count is the narrowed one. */
  lemma MatrixGuards<F>(h: MxState<F>, zero: F)
    requires DenseCovers(h, h.data)
    requires h.data.Some? ==> MatrixReadable(h, h.data.value)
    requires h.imagData.Some? ==> MatrixReadable(h, h.imagData.value)
    ensures ToInt(h.dimensionCount) != 2 ==>
      DataAsMatrix(h, zero) == ImagDataAsMatrix(h, zero) == Err(NotAMatrix(ToInt(h.dimensionCount)))
    ensures ToInt(h.dimensionCount) == 2 && !IsNumericClass(h.classId) && !IsLogicalClass(h.classId) ==>
      DataAsMatrix(h, zero) == Err(NotNumericOrLogical)
    ensures ToInt(h.dimensionCount) == 2 && (!IsNumericClass(h.classId) || !h.complex) ==>
      ImagDataAsMatrix(h, zero) == Err(NotComplexNumeric)
  {
  }

  /** getMatrixFromNative rejects negative (narrowed) counts and sparse classes other than double and logical. */
  lemma MatrixFromNativeGuards<F>(h: MxState<F>, p: Buffer<F>, zero: F)
    requires MatrixReadable(h, p)
    ensures ToInt(h.rows) < 0 ==> MatrixFromNative(h, p, zero) == Err(BadRowCount(h.rows))
    ensures ToInt(h.rows) >= 0 && ToInt(h.columns) < 0 ==>
      MatrixFromNative(h, p, zero) == Err(BadColumnCount(h.columns))
    ensures ToInt(h.rows) >= 0 && ToInt(h.columns) >= 0 && h.sparse ==>
      (MatrixFromNative(h, p, zero).Ok? <==> h.classId == DOUBLE_CLASS || h.classId == LOGICAL_CLASS)
    ensures ToInt(h.rows) >= 0 && ToInt(h.columns) >= 0 && h.sparse && MatrixFromNative(h, p, zero).Err? ==>
      MatrixFromNative(h, p, zero) == Err(UnsupportedSparseClass(h.classId))
  {
  }

  /**
   * A sparse double matrix decodes to its rows-by-columns layout: entry l of
   * column j lands in cell (ir[l], j) unless a later entry of that column
   * names the same row, and a cell no entry names holds zero.
   */
  lemma SparseDoubleCells<F>(h: MxState<F>, p: Buffer<F>, zero: F, r: int, j: int)
    requires MatrixReadable(h, p) && h.sparse && h.classId == DOUBLE_CLASS
    requires ToInt(h.rows) >= 0 && ToInt(h.columns) >= 0
    requires 0 <= r < ToInt(h.rows) && 0 <= j < ToInt(h.columns)
    ensures MatrixFromNative(h, p, zero).Ok?
    ensures IsShaped(MatrixFromNative(h, p, zero).value.floats, ToInt(h.rows), ToInt(h.columns))
    ensures forall l :: (h.jc[j] <= l < h.jc[j + 1] && h.ir[l] == r &&
      (forall k :: l < k < h.jc[j + 1] ==> h.ir[k] != r)) ==>
        MatrixFromNative(h, p, zero).value.floats[r][j] == p[l].float
    ensures (forall l :: h.jc[j] <= l < h.jc[j + 1] ==> h.ir[l] != r) ==>
      MatrixFromNative(h, p, zero).value.floats[r][j] == zero
  {
    var nr, nc := ToInt(h.rows), ToInt(h.columns);
    var jc := SparseColumnStarts(h, nr, nc, p);
    var ir := SparseRowIndices(h, nr, nc, p, jc);
    var vals := Floats(p, jc[nc]);
    forall l | h.jc[j] <= l < h.jc[j + 1] && h.ir[l] == r && (forall k :: l < k < h.jc[j + 1] ==> h.ir[k] != r)
      ensures SparseToDense(nr, nc, jc, ir, vals, zero)[r][j] == p[l].float
    {
      SparseEntryLands(nr, nc, jc, ir, vals, zero, j, l);
    }
    if forall l :: h.jc[j] <= l < h.jc[j + 1] ==> h.ir[l] != r {
      SparseCellStaysZero(nr, nc, jc, ir, vals, zero, r, j);
    }
  }

  /** The same for a sparse logical matrix: a cell is true exactly when its last entry's stored byte is nonzero. */
  lemma SparseLogicalCells<F>(h: MxState<F>, p: Buffer<F>, zero: F, r: int, j: int)
    requires MatrixReadable(h, p) && h.sparse && h.classId == LOGICAL_CLASS
    requires ToInt(h.rows) >= 0 && ToInt(h.columns) >= 0
    requires 0 <= r < ToInt(h.rows) && 0 <= j < ToInt(h.columns)
    ensures MatrixFromNative(h, p, zero).Ok?
    ensures IsShaped(MatrixFromNative(h, p, zero).value.bools, ToInt(h.rows), ToInt(h.columns))
    ensures forall l :: (h.jc[j] <= l < h.jc[j + 1] && h.ir[l] == r &&
      (forall k :: l < k < h.jc[j + 1] ==> h.ir[k] != r)) ==>
        (MatrixFromNative(h, p, zero).value.bools[r][j] <==> p[l].word != 0)
    ensures (forall l :: h.jc[j] <= l < h.jc[j + 1] ==> h.ir[l] != r) ==>
      !MatrixFromNative(h, p, zero).value.bools[r][j]
  {
    var nr, nc := ToInt(h.rows), ToInt(h.columns);
    var jc := SparseColumnStarts(h, nr, nc, p);
    var ir := SparseRowIndices(h, nr, nc, p, jc);
    var vals := NonZero(p, jc[nc]);
    forall l | h.jc[j] <= l < h.jc[j + 1] && h.ir[l] == r && (forall k :: l < k < h.jc[j + 1] ==> h.ir[k] != r)
      ensures SparseToDense(nr, nc, jc, ir, vals, false)[r][j] == (p[l].word != 0)
    {
      SparseEntryLands(nr, nc, jc, ir, vals, false, j, l);
    }
    if forall l :: h.jc[j] <= l < h.jc[j + 1] ==> h.ir[l] != r {
      SparseCellStaysZero(nr, nc, jc, ir, vals, false, r, j);
    }
  }
}
