/** Option and Result values that stand in for Python's `None` and for
    raised exceptions: an operation that would raise returns `Failure`
    carrying the exception's text. */
module Results {

  datatype Option<+T> = None | Some(value: T)

  datatype Result<+T, +E> = Success(value: T) | Failure(error: E)
}
