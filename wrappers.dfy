// Optional values, results and the Python exceptions the modelled code raises.
module Wrappers {

  datatype Option<T> = None | Some(value: T)
  {
    /** The value, or `default` when there is none. */
    function GetOr(default: T): T
    {
      match this
      case Some(v) => v
      case None => default
    }
  }

  /**
   * The exceptions the modelled code raises or lets through.  Where the source builds an
   * exception message from run-time values, the payload keeps the part that identifies the
   * failure (the offending filter type, the missing key, the bad argument).
   */
  datatype Error =
    | TypeError(what: string)             // unsupported filter type, concatenation with None, bad key type
    | AttributeError(what: string)        // a value without the method the code calls on it
    | IndexError(what: string)            // index outside a sequence or a result window
    | KeyError(what: string)              // a dictionary lookup that misses
    | ValueError(what: string)            // unpacking or validity failures
    | UnboundLocalError(name: string)     // a local variable read before any branch set it
    | FormatError(what: string)           // a `%` format string the model does not interpret
    | DoesNotExist(hits: int)             // get() matched nothing
    | ReturnedMultiple(hits: int)         // get() matched more than one result
    | ServerError(what: string)           // the database rejected a request

  datatype Result<T> = Success(value: T) | Failure(error: Error)
  {
    predicate IsFailure() { Failure? }

    function PropagateFailure<U>(): Result<U>
      requires Failure?
    {
      Failure(error)
    }

    function Extract(): T
      requires Success?
    {
      value
    }
  }
}
