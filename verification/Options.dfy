/** A value that may be missing. */
module Options {
  datatype Option<+T> = None | Some(value: T)

  /** The present value as a sequence of length one, a missing one as the empty sequence. */
  function AsSeq<T>(o: Option<T>): (s: seq<T>) {
    if o.Some? then [o.value] else []
  }
}
