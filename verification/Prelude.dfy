/** Small shared vocabulary: optional values, failures, extrema. */
module Prelude {

  datatype Option<+T> = None | Some(value: T)

  datatype Result<+T, +E> = Ok(value: T) | Err(error: E)

  function Max(a: int, b: int): int { if a < b then b else a }

  /** The largest element of a sequence, or `floor` when every element is below it. */
  function MaxOf(floor: nat, s: seq<nat>): (m: nat)
    ensures floor <= m
    ensures forall x :: x in s ==> x <= m
    ensures m == floor || m in s
  {
    if s == [] then floor else
      var m := MaxOf(floor, s[1..]);
      assert s == [s[0]] + s[1..];
      if m < s[0] then s[0] else m
  }
}
