/** Real arithmetic the solver needs spelled out. */
module Reals {
  function Abs(x: real): real { if x < 0.0 then -x else x }

  lemma MulMono(x: real, a: real, b: real)
    requires x >= 0.0 && a <= b
    ensures x * a <= x * b
  {
    assert x * (b - a) >= 0.0;
  }

  lemma MulStrict(x: real, a: real, b: real)
    requires x > 0.0 && a < b
    ensures x * a < x * b
  {
    assert x * (b - a) > 0.0;
  }

  lemma Cancel(x: real, y: real, t: real)
    requires t > 0.0 && x * t <= y * t
    ensures x <= y
  {
    if x > y { MulStrict(t, y, x); }
  }
}
