/** Option and Result values for the places where the original program
    returns nothing or raises an exception that a caller handles. */
module Results {

  datatype Option<+T> = None | Some(value: T)

  datatype Result<+T, +E> = Success(value: T) | Failure(error: E)
}
