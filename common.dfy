/** Option and Result wrappers, and the Python exception classes the worker's
    code can raise. A `Failure(e)` stands for an exception of class `e`. */
module Common {

  datatype Option<+T> = None | Some(value: T) {
    predicate IsFailure() { None? }
    function PropagateFailure<U>(): Option<U> requires None? { None }
    function Extract(): T requires Some? { value }
  }

  /** The exception classes raised along the modelled paths. */
  datatype PyError =
    | AttributeError // `.get`, `.replace` or `.json` on a value without it, such as None
    | IndexError   // indexing an empty list
    | KeyError     // `d[k]` on a missing key
    | TypeError    // iterating or taking `len` of None
    | ValueError   // `strptime` or `datetime` rejecting its input

  datatype Result<+T> = Success(value: T) | Failure(error: PyError) {
    predicate IsFailure() { Failure? }
    function PropagateFailure<U>(): Result<U> requires Failure? { Failure(error) }
    function Extract(): T requires Success? { value }
  }
}
