/** Kotlin's nullable values (`T?`) and the `?:` operator. */
module Wrappers {

  datatype Option<+T> = None | Some(value: T) {

    /** `x ?: default` */
    function GetOr(default: T): T
    {
      match this
      case Some(v) => v
      case None => default
    }
  }

  /** `firstOrNull()` on a list */
  function FirstOrNull<T>(s: seq<T>): (r: Option<T>)
    ensures r.None? <==> s == []
    ensures r.Some? ==> r.value == s[0]
  {
    if s == [] then None else Some(s[0])
  }
}
