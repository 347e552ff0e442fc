/** An f64 as the modelled code distinguishes it: exact reals for the finite values, one
    case for NaN and the infinities. */
module Floats {
  datatype F64 = Finite(x: real) | NonFinite

  function Max(a: real, b: real): real { if a >= b then a else b }

  function Min(a: real, b: real): real { if a <= b then a else b }
}
