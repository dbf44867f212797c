/** Results and the exceptions the marshalling code throws, as values. */
module Outcomes {

  /** A Java reference that may be null. */
  datatype Option<+T> = None | Some(value: T)

  /**
   * The failures of the marshalling layer: the MatLibException messages the
   * accessors raise, and the Java runtime exceptions some paths can reach.
   */
  datatype Failure =
    | NotNumericOrLogical                 // "not a numeric or logical array"
    | NotComplexNumeric                   // "not a complex numeric array"
    | SparseUnsupported                   // "getData() cannot handle sparse matrices ..."
    | ReturnedNull(native: string)        // "<native function> returned null"
    | IllegalDataClass(classId: int)      // class id outside the classtypes table
    | BadElementCount(count: int)         // "number of elements is negative or too large"
    | CannotHandleClass(classId: int)     // "cannot handle data class ..."
    | Uint64Unsupported                   // "cannot return uint64 as unsigned Java value"
    | NotAMatrix(dimensions: int)         // "variable is not a matrix (num dim = ...)"
    | BadRowCount(rows: int)              // "number of rows is negative or too large"
    | BadColumnCount(columns: int)        // "number of columns is negative or too large"
    | UnsupportedSparseClass(classId: int) // sparse matrix neither double nor logical
    | NotAStruct                          // "variable is not a struct"
    | IndexOutOfBounds                    // java.lang.ArrayIndexOutOfBoundsException
    | NegativeArraySize(size: int)        // java.lang.NegativeArraySizeException
    | NullDereference                     // java.lang.NullPointerException

  /** The outcome of a call: its value, or the exception it throws. */
  datatype Result<+T> = Ok(value: T) | Err(error: Failure)
}
