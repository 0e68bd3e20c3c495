/**
 * A d3 linear scale as an affine map from the domain [d0, d1] onto the
 * range [r0, r1]. The charts use it inverted (r1 < r0): larger values are
 * drawn higher up on the page, at a smaller y.
 */
module Scales {

  datatype Linear = Linear(d0: real, d1: real, r0: real, r1: real)

  /** Domain in increasing order, range inverted. */
  predicate Inverted(s: Linear)
  {
    s.d0 < s.d1 && s.r1 < s.r0
  }

  /** Pixels per data unit of an inverted scale. */
  function Slope(s: Linear): (k: real)
    requires s.d0 < s.d1
    ensures s.r1 < s.r0 ==> k > 0.0
  {
    (s.r0 - s.r1) / (s.d1 - s.d0)
  }

  /** `scale(v)`: linear interpolation of v's position in the domain onto the range. */
  function Apply(s: Linear, v: real): (y: real)
    requires s.d0 < s.d1
  {
    s.r0 + (v - s.d0) / (s.d1 - s.d0) * (s.r1 - s.r0)
  }

  /**
   * The `[0, m]` domain of a chart whose values start at zero, onto a range
   * running up the page from `bottom` to `top`.
   */
  function FromZero(m: int, bottom: real, top: real): (s: Linear)
    requires 0 < m && top < bottom
    ensures Inverted(s)
    ensures Apply(s, 0.0) == bottom
  {
    Linear(0.0, m as real, bottom, top)
  }

  /** The domain ends map onto the range ends. */
  lemma Ends(s: Linear)
    requires s.d0 < s.d1
    ensures Apply(s, s.d0) == s.r0 && Apply(s, s.d1) == s.r1
  {
    assert (s.d1 - s.d0) / (s.d1 - s.d0) == 1.0;
  }

  /** The scale moves by `Slope` pixels per unit, downwards for larger values. */
  lemma Gap(s: Linear, u: real, v: real)
    requires s.d0 < s.d1
    ensures Apply(s, u) - Apply(s, v) == (v - u) * Slope(s)
  {
    var w := s.d1 - s.d0;
    calc {
      Apply(s, u) - Apply(s, v);
      ((u - s.d0) / w - (v - s.d0) / w) * (s.r1 - s.r0);
      { assert (u - s.d0) / w - (v - s.d0) / w == (u - v) / w; }
      (u - v) / w * (s.r1 - s.r0);
      (v - u) * ((s.r0 - s.r1) / w);
    }
  }

  function Abs(x: real): (a: real)
    ensures a >= 0.0 && (a == x || a == -x)
  {
    if x < 0.0 then -x else x
  }

  /** The pixel distance between two values is their distance times the slope. */
  lemma GapAbs(s: Linear, u: real, v: real)
    requires Inverted(s)
    ensures Abs(Apply(s, u) - Apply(s, v)) == Abs(u - v) * Slope(s)
  {
    Gap(s, u, v);
    var k := Slope(s);
    assert k > 0.0;
    if u <= v {
      assert (v - u) * k >= 0.0;
      assert Abs(u - v) == v - u;
    } else {
      assert (v - u) * k < 0.0;
      assert Abs(u - v) == u - v;
      assert -((v - u) * k) == (u - v) * k;
    }
  }

  /** An inverted scale is strictly decreasing. */
  lemma Decreasing(s: Linear, u: real, v: real)
    requires Inverted(s) && u < v
    ensures Apply(s, v) < Apply(s, u)
  {
    Gap(s, u, v);
    assert (v - u) * Slope(s) > 0.0;
  }

  /** Equal pictures mean equal values: an inverted scale is one-to-one. */
  lemma Injective(s: Linear, u: real, v: real)
    requires Inverted(s)
    ensures Apply(s, u) == Apply(s, v) <==> u == v
  {
    if u < v { Decreasing(s, u, v); }
    if v < u { Decreasing(s, v, u); }
  }

  /** A value inside the domain is drawn inside the range. */
  lemma InRange(s: Linear, v: real)
    requires Inverted(s) && s.d0 <= v <= s.d1
    ensures s.r1 <= Apply(s, v) <= s.r0
  {
    Ends(s);
    if s.d0 < v { Decreasing(s, s.d0, v); }
    if v < s.d1 { Decreasing(s, v, s.d1); }
  }
}
