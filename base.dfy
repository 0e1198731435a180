/** Small shared value types. */
module Base {

  /** An optional value, standing in for a Java reference that may be null. */
  datatype Option<T> = None | Some(value: T)
}
