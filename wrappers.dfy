/** Option and Result, the shapes of Java's null / Optional and of thrown exceptions. */
module Wrappers {

  datatype Option<+T> = None | Some(value: T) {
    function GetOr(default: T): T {
      match this
      case Some(v) => v
      case None => default
    }
  }

  /** A Java exception that the modelled code lets escape. */
  datatype JavaException =
    | NullPointer
    | IllegalArgument(message: string)
    /** The `IllegalStateException` of `Collectors.toMap` on a repeated key; its message names
        the key and the two clashing values, and only the key is kept here. */
    | DuplicateKey(key: string)

  datatype Result<+T> = Ok(value: T) | Err(error: JavaException)
}
