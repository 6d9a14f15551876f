/** A value that may be absent: the model's reading of `null` and `undefined`. */
module Options {
  datatype Option<+T> = None | Some(value: T)

  /** The `??` operator, and SQL's `COALESCE` of two columns. */
  function Coalesce<T>(a: Option<T>, b: Option<T>): Option<T> {
    if a.Some? then a else b
  }
}
