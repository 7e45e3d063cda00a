/** An optional value: stands in for the application's attributes that may be
    absent (`cap` is None, `last_path` was never set) and for keys missing from
    a loaded session file. */
module Options {
  datatype Option<T> = None | Some(value: T) {
    function GetOr(default: T): T {
      match this
      case Some(v) => v
      case None => default
    }
  }
}
