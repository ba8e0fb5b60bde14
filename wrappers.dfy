/**
 * Option and Result types, and the Python exceptions the modelled code raises.
 */
module Wrappers {

  datatype Option<T> = None | Some(value: T)

  /** The exception classes raised by the kernel, parser and fitting code. */
  datatype Error =
    | TypeError
    | ValueError
    | AttributeError
    | NotImplementedError
    | IndexError
    | LinAlgError

  datatype Result<T> = Ok(value: T) | Err(error: Error)

  /** A double-precision value as numpy sees it: finite, infinite or NaN. */
  datatype Float = Finite(v: real) | Infinite(positive: bool) | NaN

  /** Elementwise application of an oracle such as `10**x` or `log10`. */
  function MapReal(f: real -> real, s: seq<real>): (r: seq<real>)
    ensures |r| == |s|
    ensures forall i :: 0 <= i < |s| ==> r[i] == f(s[i])
  {
    seq(|s|, i requires 0 <= i < |s| => f(s[i]))
  }

  lemma {:induction false} MapRealSlice(f: real -> real, s: seq<real>, a: int, b: int)
    requires 0 <= a <= b <= |s|
    ensures MapReal(f, s)[a..b] == MapReal(f, s[a..b])
  {
  }

  lemma {:induction false} MapRealConcat(f: real -> real, s: seq<real>, t: seq<real>)
    ensures MapReal(f, s + t) == MapReal(f, s) + MapReal(f, t)
  {
  }
}
