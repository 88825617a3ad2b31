/** Optional values. */
module Options {
  datatype Option<T> = None | Some(value: T)

  function Opt<T>(x: Option<T>): seq<T> { if x.Some? then [x.value] else [] }
}
