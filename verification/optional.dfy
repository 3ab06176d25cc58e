/** A value that may be missing: JavaScript's `undefined`/`null`, a parse
    failure (`NaN`), or an absent optional property. */
module Optional {

  datatype Option<+T> = None | Some(value: T) {

    /** The carried value, or `default` when there is none (the `a || b`
        and `a ?? b` idioms when `a` is an object). */
    function GetOr(default: T): T {
      match this
      case Some(v) => v
      case None => default
    }
  }
}
