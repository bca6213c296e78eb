/** Option and Result, and the kinds of Python exception the modelled code can raise. */
module Wrappers {

  datatype Option<+T> = None | Some(value: T) {
    function GetOr(default: T): T {
      match this
      case Some(v) => v
      case None => default
    }
  }

  /** The exceptions that escape the modelled code and abort a scan. */
  datatype Error =
    | AttributeError(what: string)  // a method called on None or on the wrong kind of value
    | KeyError(key: string)         // a dictionary read of an absent key
    | ValueError(message: string)   // a failed unpacking, or a parameter check of the scan entry point

  datatype Result<+T> = Ok(value: T) | Err(error: Error) {
    predicate IsFailure() { Err? }

    function PropagateFailure<U>(): Result<U>
      requires Err?
    {
      Err(error)
    }

    function Extract(): T
      requires Ok?
    {
      value
    }
  }
}
