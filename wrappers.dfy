/** Small helper datatypes shared by the model's modules. */
module Wrappers {

  /** A value that may be absent: a lookup miss, an unset UV channel. */
  datatype Option<+T> = None | Some(value: T)

  /** Index of the first element of `s` equal to `x`, as a linear scan that stops at the first hit finds it. */
  function FirstIndex<T(==)>(s: seq<T>, x: T): (r: Option<nat>)
    ensures r.Some? ==> r.value < |s| && s[r.value] == x
    ensures r.Some? ==> forall k :: 0 <= k < r.value ==> s[k] != x
    ensures r.None? <==> x !in s
  {
    if s == [] then None
    else if s[0] == x then Some(0)
    else match FirstIndex(s[1..], x)
      case None => None
      case Some(k) => Some(k + 1)
  }
}
