/** Null-able values and thrown exceptions, as values. */
module Wrappers {

  /** A Java reference that may be null: `None` stands for `null`. */
  datatype Option<+T> = None | Some(value: T)

  /** The exceptions the eligibility code throws: the two it raises itself, with their
      messages, and the `IllegalStateException` that `Collectors.toMap` raises on a repeated
      key, identified by that key. */
  datatype Exception =
    | IllegalArgument(message: string)
    | NullPointer(message: string)
    | DuplicateKey(key: string)

  /** The outcome of a Java call that either returns a value or throws. */
  datatype Result<+T> = Ok(value: T) | Err(error: Exception)
}
