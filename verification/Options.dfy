/** Values that may be absent. */
module Options {
  datatype Option<+T> = None | Some(value: T)

  function Or<T>(a: Option<T>, b: Option<T>): Option<T> { if a.Some? then a else b }

  function ValueOr<T>(a: Option<T>, default: T): T { match a case Some(v) => v case None => default }
}
