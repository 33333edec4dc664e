/** Optional values: the model's stand-in for JavaScript's null, undefined and NaN. */
module Wrappers {

  datatype Option<+T> = None | Some(value: T)

  function Min(a: int, b: int): int
  {
    if a <= b then a else b
  }
}
