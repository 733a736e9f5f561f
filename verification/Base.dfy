/** Types shared by every part of the model. */
module Base {

  /** A Go reference that may be nil, or a lookup that may miss. */
  datatype Option<+T> = None | Some(value: T)

  /** operator/autoscaler.go: the three values of ScalingDirection. */
  datatype Direction = DOWN | NONE | UP

  function Max(a: int, b: int): (m: int)
    ensures m >= a && m >= b && (m == a || m == b)
  {
    if a < b then b else a
  }

  function Min(a: int, b: int): (m: int)
    ensures m <= a && m <= b && (m == a || m == b)
  {
    if a < b then a else b
  }
}
