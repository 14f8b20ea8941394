/** Failure-carrying values shared by the other modules: an `Option` for a
    call that may raise without telling why, and a `Result` for one whose
    failure the model names. */
module Wrappers {

  datatype Option<+T> = None | Some(value: T)

  datatype Result<+R, +E> = Success(value: R) | Failure(error: E)
}
