/** Option and Result, and the Python exceptions the modelled code can raise. */
module Wrappers {

  datatype Option<T> = None | Some(value: T)

  /** The built-in exception classes that the modelled code lets escape. */
  datatype PyError =
    | AttributeError   // a method such as `.get` or `.items` called on a value that lacks it
    | TypeError        // iterating a non-iterable, or `' '.join` over a non-string
    | KeyError         // a dictionary subscript with a missing key
    | ValueError       // unpacking too few values, or building a table from unequal columns
    | ServiceError     // whatever an external service call raised

  /** The outcome of a Python call: its value, or the exception it raised. */
  datatype Result<T> = Ok(value: T) | Err(error: PyError) {

    predicate IsFailure() {
      Err?
    }

    function PropagateFailure<U>(): Result<U>
      requires Err?
    {
      Err(error)
    }

    function Extract(): T
      requires Ok?
    {
      value
    }
  }
}
