/** Values shared by several parts of the model. */
module Basics {

  datatype Option<T> = None | Some(value: T)

  function Max(a: real, b: real): (m: real)
    ensures m >= a && m >= b && (m == a || m == b)
  {
    if a >= b then a else b
  }

  /** A duration in nanoseconds, as seconds. */
  function Seconds(nanos: int): real {
    nanos as real / 1000000000.0
  }
}
