/** Option and the Python exception classes the modelled code can raise. */
module Wrappers {

  datatype Option<+T> = None | Some(value: T) {
    function GetOr(default: T): T {
      match this
      case Some(v) => v
      case None => default
    }
  }

  /** A value, or the exception that was raised instead of producing it. */
  datatype Result<+T> = Ok(value: T) | Err(error: PyError)

  /** The exception classes that escape, or are caught by, the modelled code.
      Only the class matters to the model; Python's message text does not. */
  datatype PyError =
    | TypeError       // an operator or builtin applied to the wrong kind of value
    | AttributeError  // a method (`get`, `append`) missing on the value
    | ValueError      // a malformed format string or unparsable text
    | IndexError      // a positional replacement field with no positional argument
    | IOError         // a file that cannot be opened for writing
  {
    function ClassName(): string {
      match this
      case TypeError => "TypeError"
      case AttributeError => "AttributeError"
      case ValueError => "ValueError"
      case IndexError => "IndexError"
      case IOError => "IOError"
    }
  }
}
