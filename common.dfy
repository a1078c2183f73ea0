/** Values that may be absent: Python's `None` and Django's `null=True` columns. */
module Common {

  datatype Option<T> = None | Some(value: T)

}
