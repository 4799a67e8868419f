/** Optional values and success-or-error results, used for the source's
    `undefined`/`null` fields and for thrown errors. */
module Options {

  datatype Option<+T> = None | Some(value: T) {
    /** `x ?? default` */
    function GetOr(default: T): T {
      if Some? then value else default
    }
  }

  datatype Result<+T, +E> = Ok(value: T) | Err(error: E)
}
