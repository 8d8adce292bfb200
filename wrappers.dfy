/** Option and Result, the failure-carrying datatypes used throughout the model, and a few small helpers. */
module Wrappers {

  datatype Option<+T> = None | Some(value: T)

  datatype Result<+T, +E> = Ok(value: T) | Err(error: E)

  /** The value under `key`, or `default` when there is none: Python's `dict.get` and `os.getenv`. */
  function GetOrDefault<K(==), V>(m: map<K, V>, key: K, default: V): V
  {
    if key in m then m[key] else default
  }

  function Min(a: int, b: int): int {
    if a <= b then a else b
  }

  function Max(a: int, b: int): int {
    if a <= b then b else a
  }
}
