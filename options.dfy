/** Optional values: a JavaScript `undefined`/`null`/`NaN`, an absent field,
    a failed request's missing response. */
module Options {

  datatype Option<T> = None | Some(value: T)

  /** `parseInt(text) || fallback`: the parsed integer is passed in (None for
      NaN); `NaN` and `0` are falsy in JavaScript, so both give the fallback. */
  function ParsedOr(parsed: Option<int>, fallback: int): (r: int)
    ensures parsed == None || parsed == Some(0) ==> r == fallback
    ensures parsed.Some? && parsed.value != 0 ==> r == parsed.value
    ensures fallback != 0 ==> r != 0
  {
    match parsed
    case None => fallback
    case Some(v) => if v == 0 then fallback else v
  }
}
