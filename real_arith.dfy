/**
 * Facts about real numbers shared by the models of float arithmetic: truncation
 * toward zero and the monotonicity of multiplying by a positive factor.
 */
module RealArith {
  /** The integer part of x, rounded toward zero (Python's `int()`, JavaScript's `Math.trunc`). */
  function Trunc(x: real): (n: int)
    ensures x >= 0.0 ==> 0 <= n && (n as real) <= x < (n as real) + 1.0
    ensures x < 0.0 ==> n <= 0 && (n as real) - 1.0 < x <= (n as real)
  {
    if x >= 0.0 then x.Floor else -((-x).Floor)
  }

  lemma MulLe(a: real, b: real, w: real)
    requires a <= b && w > 0.0
    ensures a * w <= b * w
  {
    assert (b - a) * w >= 0.0;
    assert (b - a) * w == b * w - a * w;
  }

  lemma MulLt(a: real, b: real, w: real)
    requires a < b && w > 0.0
    ensures a * w < b * w
  {
    assert (b - a) * w > 0.0;
    assert (b - a) * w == b * w - a * w;
  }

  lemma AddOne(a: real, w: real)
    ensures (a + 1.0) * w == a * w + w
    ensures (a - 1.0) * w == a * w - w
  {
  }

  lemma DivMul(x: real, w: real)
    requires w > 0.0
    ensures (x / w) * w == x
  {
  }
}
