/** A value that may be absent: a null pointer or an empty result of the C++ code. */
module Options {
  datatype Option<T> = None | Some(value: T)
}
