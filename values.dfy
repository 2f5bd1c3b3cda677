/** Values as the controllers receive them from their callers, and Python's
    notion of a "truthy" value, which decides whether an optional argument
    takes part in an update. */
module Values {

  datatype Option<+T> = None | Some(value: T)

  /** An argument value: Python's `None`, a string, or an integer.
      Dates are passed as strings, ids, credits and years as integers. */
  datatype Value = Null | Text(s: string) | Int(n: int)

  /** Python truthiness: `None`, the empty string and `0` are false. */
  predicate Truthy(v: Value)
  {
    match v
    case Null => false
    case Text(s) => s != ""
    case Int(n) => n != 0
  }
}
