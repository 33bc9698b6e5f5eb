/** Option and Result values, and the Java exceptions the modelled code can raise. */
module Wrappers {

  /** `None` stands for an absent value: Java's `null` or an empty `Optional`. */
  datatype Option<+T> = None | Some(value: T) {
    /** The value, or `default` when absent. */
    function GetOr(default: T): T {
      match this
      case Some(v) => v
      case None => default
    }
  }

  /** Exceptions raised by the modelled code, by the condition that raises them. */
  datatype Exception =
    | EndOfStream          // java.io.EOFException: a read past the end of the input
    | UtfDataFormat        // java.io.UTFDataFormatException: string too long or malformed
    | NullDereference      // java.lang.NullPointerException
    | NoSuchElement        // java.util.NoSuchElementException from Optional.get()
    | NegativeCapacity     // java.lang.IllegalArgumentException from new ArrayList<>(-1)
    | BufferOverflow       // java.nio.BufferOverflowException
    | BufferUnderflow      // java.nio.BufferUnderflowException

  /** The outcome of an operation that either returns a value or throws. */
  datatype Result<+T> = Ok(value: T) | Err(error: Exception)
}
