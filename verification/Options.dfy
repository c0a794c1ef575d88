module Options {
  datatype Option<+T> = None | Some(value: T)

  function Coalesce<T>(first: Option<T>, second: Option<T>): Option<T> {
    if first.Some? then first else second
  }
}
