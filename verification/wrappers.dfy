/** Wrappers shared by the model: an optional value (Rust's `Option`) and a
    value-or-fault (used where the game code would panic). */
module Wrappers {

  datatype Option<+T> = None | Some(value: T)

  datatype Result<+R, +E> = Success(value: R) | Failure(error: E)
}
