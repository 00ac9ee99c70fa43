/** Outcomes of the modelled Python code: a value or the exception it raises. */
module Results {

  datatype Option<T> = None | Some(value: T)

  /** The Python exception classes the modelled code can raise. */
  datatype Error =
    | UnicodeDecodeError   // str(bytes, 'utf-8') on malformed UTF-8
    | OverflowError        // int.to_bytes on a value that does not fit the width
    | AssertionError       // a failed `assert` statement
    | ZeroDivisionError    // integer division by a zero row count
    | ValueError           // a numpy reshape to an incompatible shape, or bad operator arguments
    | RuntimeError         // raised explicitly by the add-on
    | AttributeError       // a method looked up on None

  datatype Result<T> = Ok(value: T) | Err(error: Error)

  /** A call that returns nothing or raises. */
  datatype Outcome = Pass | Fail(error: Error)
}
