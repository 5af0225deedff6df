/** Options and results: how the model writes Go's nil pointers, `value, ok` pairs and error returns. */
module Wrappers {

  datatype Option<+T> = None | Some(value: T)

  datatype Result<+T, +E> = Ok(value: T) | Err(error: E)

  function Min(a: int, b: int): (r: int)
    ensures r <= a && r <= b && (r == a || r == b)
  {
    if a < b then a else b
  }

  /** The value stored under `k`, or 0: reading a missing key of a Go `map[string]int64`. */
  function Get<K>(m: map<K, int>, k: K): int {
    if k in m then m[k] else 0
  }
}
