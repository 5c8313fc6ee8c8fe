/** Optional values (Go's nil pointers and SQL NULLs) and results with an error (Go's `(value, error)` pairs). */
module Wrappers {
  datatype Option<T> = None | Some(value: T)
  {
    /** The value, or `default` when absent (SQL's COALESCE, or a nil pointer read as its zero value). */
    function GetOr(default: T): (r: T)
      ensures this.Some? ==> r == value
      ensures this.None? ==> r == default
    {
      match this
      case Some(v) => v
      case None => default
    }

    /** This value if present, else `other`: a partial update's field over the stored one. */
    function Or(other: Option<T>): (r: Option<T>)
      ensures this.Some? ==> r == this
      ensures this.None? ==> r == other
    {
      if this.Some? then this else other
    }
  }

  datatype Result<T, E> = Ok(value: T) | Err(error: E)
}
