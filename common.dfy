/** Optional values: Python's `None` versus a present value, and dictionary
    lookups that may miss. */
module Common {

  datatype Option<+T> = None | Some(value: T) {

    /** `d.get(key, default)` on a value that may be absent. */
    function GetOr(default: T): (r: T)
      ensures Some? ==> r == value
      ensures None? ==> r == default
    {
      match this
      case Some(v) => v
      case None => default
    }
  }
}
