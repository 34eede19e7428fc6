/** What the models over exact reals share. */
module RealMath {
  /** Below this, two frequencies count as equal. */
  const EPSILON: real := 0.0001

  function Abs(x: real): (r: real)
    ensures r >= 0.0
  {
    if x < 0.0 then -x else x
  }
}
