/**
 * `strconv.Atoi` on a 64-bit platform, seen from its result.
 *
 * Atoi returns an int together with an error. On a syntax error (an empty or
 * non-numeric parameter) the int is 0; on a range error it is the bound of
 * `int` in the direction of the overflow. The text-to-number parsing itself is
 * part of Go's library and is represented by which of the three cases occurred.
 */
module Strconv {

  const MinInt: int := -0x8000_0000_0000_0000
  const MaxInt: int := 0x7fff_ffff_ffff_ffff

  /** Go's `int` on a 64-bit platform. */
  type Int = x: int | MinInt <= x <= MaxInt

  datatype Atoi = Parsed(n: Int) | SyntaxError | RangeError(positive: bool)
  {
    /** True when Atoi returned a non-nil error. */
    predicate Failed() {
      !Parsed?
    }

    /** The int Atoi returns, whether or not it also returns an error. */
    function Value(): Int {
      match this
      case Parsed(n) => n
      case SyntaxError => 0
      case RangeError(positive) => if positive then MaxInt else MinInt
    }
  }
}
