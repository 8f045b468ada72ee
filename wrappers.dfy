/** Option, Result and Outcome: the model's stand-ins for Java's null and for thrown exceptions. */
module Wrappers {

  /** `None` plays the part of a Java `null` reference. */
  datatype Option<+T> = None | Some(value: T)

  /** The value of a computation that either returns or throws. */
  datatype Result<+R, +E> = Success(value: R) | Failure(error: E)

  /** The value of a `void` computation that either returns or throws. */
  datatype Outcome<+E> = Pass | Fail(error: E)
}

/** Java's 32-bit `int` and the operations on it that the modelled code uses. */
module JavaInts {

  const MIN_INT: int := -0x8000_0000
  const MAX_INT: int := 0x7fff_ffff

  type int32 = x: int | MIN_INT <= x <= MAX_INT

  /** Two's-complement wrap-around of an unbounded integer into the `int` range. */
  function Wrap(x: int): (r: int32)
    ensures (r - x) % 0x1_0000_0000 == 0
    ensures MIN_INT <= x <= MAX_INT ==> r == x
  {
    var m := x % 0x1_0000_0000;
    if m <= MAX_INT then m else m - 0x1_0000_0000
  }

  /** `Math.abs(int)`: the negation of `Integer.MIN_VALUE` overflows back to itself. */
  function Abs(x: int32): (r: int32)
    ensures x != MIN_INT ==> r >= 0 && (r == x || r == -x)
    ensures x == MIN_INT ==> r < 0
  {
    if x >= 0 then x else Wrap(-(x as int))
  }
}
