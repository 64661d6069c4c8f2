/** Shared value types: optional values, the settled outcome of a network call,
    and the JavaScript values a server field or a storage read can produce. */
module Common {

  datatype Option<+T> = None | Some(value: T)

  /** How an awaited call settled: resolved with `data`, or rejected with an
      error whose `message` is given (possibly empty). */
  datatype Outcome<+T> = Ok(data: T) | Err(message: string)

  /** A field of a server response that should hold a string: it may be
      missing (`undefined`), `null`, or a string. */
  datatype JsStr = Undefined | Null | Str(s: string) {

    /** JavaScript truthiness: only a non-empty string is truthy. */
    predicate Truthy() {
      Str? && s != ""
    }

    /** `String(v)`, which is what `localStorage.setItem` and a template
        literal make of the value. */
    function AsString(): string {
      match this
      case Undefined => "undefined"
      case Null => "null"
      case Str(t) => t
    }
  }

  function Min(a: int, b: int): int {
    if a <= b then a else b
  }
}
