/** Arithmetic that several scores share. */
module Reals {
  function Abs(x: real): real {
    if x < 0.0 then -x else x
  }
}
