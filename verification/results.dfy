/**
  The failure channel of the containers. The header signals every failure by
  throwing one of three string literals; here each becomes an error kind and
  every fallible operation returns a `Result`.
*/
module Results {

  /** The three exceptions thrown by utmatrix.h:
      - LargeIndex: "large index" (length or index above its maximum, or an
        index past the end of the buffer);
      - NegativeLength: "negative length" (negative length or start index, or
        an index before the start index);
      - DifferentSize: "different size" (binary operator on operands of
        different length). */
  datatype Error = LargeIndex | NegativeLength | DifferentSize

  /** Either the value an operation produced or the error it threw. */
  datatype Result<+T> = Ok(value: T) | Err(error: Error)
}
