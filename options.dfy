/** An optional value, standing for Python's `None` default arguments. */
module Options {
  datatype Option<T> = None | Some(value: T)
}
