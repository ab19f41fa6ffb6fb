/** Kotlin's nullable results and the JVM exceptions that escape the store. */
module Outcomes {

  /** A Kotlin `T?`: either a value or `null`. */
  datatype Option<+T> = None | Some(value: T)

  /** The exceptions the store's own code can throw out of `process`. */
  datatype Exception =
    | NumberFormat(input: string)   // `String.toInt` on an index part of a path
    | IndexOutOfBounds(index: int)  // a list read or a list write at a bad index

  /** A call either returns a value or throws. */
  datatype Outcome<+T> = Normal(value: T) | Thrown(exception: Exception)
}
