/** Optional values and results with an error, used for the source's `undefined`, `null` and error returns. */
module Options {
  datatype Option<+T> = None | Some(value: T) {
    function GetOr(default: T): T {
      if Some? then value else default
    }
  }

  datatype Result<+T, +E> = Ok(value: T) | Err(error: E)

  /** The JavaScript idiom `text || undefined`: an empty string counts as absent. */
  function NonEmpty(s: string): Option<string> {
    if s == "" then None else Some(s)
  }
}
