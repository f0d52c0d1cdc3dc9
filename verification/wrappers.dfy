/** Two wrappers: an optional value (a widget that may still be
    empty) and a result that is either a value or a status explaining why no
    value was produced. */
module Wrappers {

  datatype Option<+T> = None | Some(value: T)

  datatype Result<+R, +E> = Success(value: R) | Failure(error: E)
}
