/** An optional value, standing for Python's `None` next to a real result. */
module Maybe {

  datatype Option<T> = None | Some(value: T)
}
