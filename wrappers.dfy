/** Failure-carrying results shared by the whole model. */
module Wrappers {

  /** An optional value: JavaScript's `null`/`undefined` or Java's empty `Optional`. */
  datatype Option<+T> = None | Some(value: T)

  /** Why an operation that talks to the reflection layer gave up. */
  datatype Error =
    | ClassNotFound(name: string)   // the reflection layer cannot load a class of that name
    | NoSuchElement                 // `Optional.orElseThrow` on an empty side

  /** The outcome of an operation that may throw. */
  datatype Result<+T> = Ok(value: T) | Err(error: Error)
}
