/** Optional values, the error returns and the map deletion of the Go code. */
module Wrappers {
  datatype Option<+T> = None | Some(value: T)

  datatype Result<+T, +E> = Success(value: T) | Failure(error: E) {
    predicate IsFailure() { Failure? }

    function PropagateFailure<U>(): Result<U, E>
      requires Failure?
    { Failure(error) }

    function Extract(): T
      requires Success?
    { value }
  }

  /** Go's `delete(m, key)`. */
  function Without<K, V>(m: map<K, V>, key: K): map<K, V> { map k | k in m && k != key :: m[k] }
}
