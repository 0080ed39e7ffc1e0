/** Failure-carrying values shared by the model. */
module Wrappers {

  /** The usual Some/None datatype, standing for Python's `None` or a value. */
  datatype Option<+T> = None | Some(value: T) {

    /** The wrapped value, or `default` for None (`dict.get(key, default)`). */
    function GetOr(default: T): T {
      match this
      case Some(v) => v
      case None => default
    }
  }

  /** The Python exceptions that the modelled code can raise and that a caller can observe. */
  datatype Exception =
    | KeyError(key: string)
    | ValueError
    | IndexError
    | ZeroDivisionError
    | AttributeError(name: string)

  /** Either a value or the exception that was raised instead of returning one. */
  datatype Result<+T> = Ok(value: T) | Raise(exception: Exception)
}
