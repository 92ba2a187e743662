// Shared value types used by every module of the model.
module Common {

  /** A value that may be absent: JavaScript's `null` / `undefined`. */
  datatype Option<T> = None | Some(value: T)

  /** Sequence `s` with every occurrence of `x` removed, order of the rest kept. */
  function Without<T(==)>(s: seq<T>, x: T): (r: seq<T>)
    ensures x !in r
    ensures forall y :: y in r ==> y in s
    ensures forall y :: y in s && y != x ==> y in r
    ensures |r| <= |s|
    ensures x !in s ==> r == s
  {
    if s == [] then []
    else if s[|s| - 1] == x then Without(s[..|s| - 1], x)
    else Without(s[..|s| - 1], x) + [s[|s| - 1]]
  }
}
