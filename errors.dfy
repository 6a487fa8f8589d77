/** Python exceptions as values, and the result types the model threads them through. */
module Errors {

  /** The exception classes the modelled code raises or catches by name.
      `ParserError` is pandas' CSV parse error, a subclass of `ValueError`;
      `Exception` stands for a plain `Exception(...)` raised with a message.
      Every kind is a subclass of `Exception`: `BaseException`s outside it, such as
      `SystemExit` and `KeyboardInterrupt`, are not modelled. */
  datatype Kind =
    | ValueError
    | ParserError
    | FileNotFoundError
    | AssertionError
    | KeyError
    | RuntimeError
    | NameError
    | Exception

  /** A raised exception: its class and the text `str(e)` gives. */
  datatype Error = Error(kind: Kind, message: string)

  /** `isinstance(e, ValueError)`. */
  predicate IsValueError(k: Kind) {
    k == ValueError || k == ParserError
  }

  /** A computation that returns a value or raises. */
  datatype Result<+T> = Ok(value: T) | Err(error: Error)

  datatype Option<+T> = None | Some(value: T)
}
