/** Values standing for Java's null and for a thrown IllegalArgumentException. */
module Results {

  /** A value that may be absent: Java's `null` for a reference. */
  datatype Option<+T> = None | Some(value: T) {
    function GetOr(default: T): T {
      match this
      case Some(v) => v
      case None => default
    }
  }

  /** The result of a call that either returns a value or throws with a message. */
  datatype Result<+T> = Ok(value: T) | Failure(message: string)

  /** The result of a `void` call that either returns normally or throws with a message. */
  datatype Outcome = Pass | Fail(message: string)
}
