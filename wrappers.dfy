/** Option and Result, used for the source's `None` returns and its exceptions. */
module Wrappers {

  datatype Option<+T> = None | Some(value: T)

  datatype Result<+R, +E> = Success(value: R) | Failure(error: E)

  /** Python's `d.get(k, default)`. */
  function GetOr<K, V>(m: map<K, V>, k: K, default: V): (v: V)
    ensures k in m ==> v == m[k]
    ensures k !in m ==> v == default
  {
    if k in m then m[k] else default
  }
}
