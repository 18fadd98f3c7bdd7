/** What several modules need. */
module Basics {

  datatype Option<T> = None | Some(value: T)

  function Min(a: int, b: int): int { if a < b then a else b }

  /** A list that is there on a condition. */
  function When<T>(b: bool, xs: seq<T>): seq<T> { if b then xs else [] }
}
