/** Values that may be missing, and whether an operation completed or raised. */
module Options {

  datatype Option<+T> = None | Some(value: T)

  function Or<T>(a: Option<T>, b: T): Option<T> {
    if a.Some? then a else Some(b)
  }

  datatype Status = Ok | Raise
}
