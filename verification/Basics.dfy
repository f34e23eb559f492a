/** What several modules share: optional values, results that may be errors, and clamping. */
module Basics {

  datatype Option<T> = None | Some(value: T)

  datatype Result<T, E> = Ok(value: T) | Err(error: E)

  function Max(x: real, y: real): real {
    if x < y then y else x
  }

  function Min(x: real, y: real): real {
    if y < x then y else x
  }

  function Abs(x: real): real {
    if x < 0.0 then -x else x
  }

  function Clamp(x: real, lo: real, hi: real): real {
    if x < lo then lo else if x > hi then hi else x
  }

  function Least(a: nat, b: nat): nat {
    if b < a then b else a
  }

  // Each of them is one of its arguments, and the one it should be.
  lemma Extremes(x: real, y: real, a: nat, b: nat)
    ensures Max(x, y) in {x, y} && Max(x, y) >= x && Max(x, y) >= y
    ensures Min(x, y) in {x, y} && Min(x, y) <= x && Min(x, y) <= y
    ensures Abs(x) in {x, -x} && Abs(x) >= 0.0
    ensures Least(a, b) in {a, b} && Least(a, b) <= a && Least(a, b) <= b
  {
  }

  // Clamping moves a value that is out of bounds to the nearer bound, and no other.
  lemma Clamped(x: real, lo: real, hi: real)
    requires lo <= hi
    ensures lo <= Clamp(x, lo, hi) <= hi && (lo <= x <= hi ==> Clamp(x, lo, hi) == x)
    ensures x < lo ==> Clamp(x, lo, hi) == lo
    ensures x > hi ==> Clamp(x, lo, hi) == hi
  {
  }
}
