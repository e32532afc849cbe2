/** Failure-carrying values used across the model in place of Java's null and exceptions. */
module Wrappers {

  /** A value that may be absent (Java `null`). */
  datatype Option<+T> = None | Some(value: T)

  /** Why an operation failed. */
  datatype Failure =
    | Absent          // a `checkNotNull` on a value the collaborator did not return
    | NullPointer     // the code dereferences a null it does not check
    | StorageError    // a collaborator call threw

  /** The outcome of an operation that may throw. */
  datatype Result<+T> = Ok(value: T) | Err(error: Failure)
}
