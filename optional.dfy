/** The usual optional value, standing in for Python's `None`. */
module Optional {

  datatype Option<T> = None | Some(value: T)
}
