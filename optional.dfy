/** PHP's `null` next to a value, and an outcome that is a value or a thrown exception. */
module Optional {
  datatype Option<T> = None | Some(value: T)

  /** A result, or the exception the source throws instead of returning. */
  datatype Outcome<T, E> = Done(value: T) | Thrown(error: E)
}
