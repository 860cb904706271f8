/** Optional values, results and the exceptions the Python engine can raise. */
module Wrappers {

  /** A value that may be missing: pandas NaN, a Python `None`, an absent column. */
  datatype Option<T> = None | Some(value: T) {
    function GetOr(default: T): T {
      match this
      case Some(v) => v
      case None => default
    }
  }

  /** The exceptions the modelled functions raise. */
  datatype Exception =
    | ValueError(message: string)
    | ZeroDivisionError
    | KeyError           // indexing a table with the column name `None`
    | AttributeError     // the `.str` accessor on a column holding no text

  /** Either a value or the exception that aborts the call. */
  datatype Result<T> = Ok(value: T) | Err(error: Exception)
}
