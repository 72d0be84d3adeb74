/** Python's `None`, raised exceptions and the few exception classes the
    client code can raise, as values. */
module Wrappers {

  /** A value that Python may leave as `None`. */
  datatype Option<+T> = None | Some(value: T) {
    function GetOr(default: T): T {
      match this
      case Some(v) => v
      case None => default
    }
  }

  /** The Python exception classes that the modelled code can raise. */
  datatype PyError =
    | ValueError      // int() of a non-numeric string
    | TypeError       // int(None), or a str given for an integer protobuf field
    | IndexError      // parts[0] of an empty token list
    | AttributeError  // attribute assignment on a dict, or a method of None

  /** Either the value a call returns or the exception it raises. */
  datatype Result<+R> = Ok(value: R) | Err(error: PyError)
}
