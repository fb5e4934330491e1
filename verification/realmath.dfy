/** Small real-number helpers shared by the scorer: absolute value and the
    `max(lo, min(hi, v))` clamp the model applies twice. */
module RealMath {

  function Abs(v: real): (r: real)
    ensures r >= 0.0
    ensures r == v || r == -v
  {
    if v >= 0.0 then v else -v
  }

  function Min(a: real, b: real): (r: real)
    ensures r <= a && r <= b
    ensures r == a || r == b
  {
    if a <= b then a else b
  }

  function Max(a: real, b: real): (r: real)
    ensures r >= a && r >= b
    ensures r == a || r == b
  {
    if a >= b then a else b
  }

  /** `Max(lo, Min(hi, v))`: the value itself inside [lo, hi], the nearer
      bound outside it. */
  function Clamp(v: real, lo: real, hi: real): (r: real)
    requires lo <= hi
    ensures lo <= r <= hi
    ensures lo <= v <= hi ==> r == v
    ensures v < lo ==> r == lo
    ensures v > hi ==> r == hi
  {
    Max(lo, Min(hi, v))
  }

  /** Clamping never reverses the order of two values. */
  lemma ClampMonotone(v: real, w: real, lo: real, hi: real)
    requires lo <= hi
    requires v <= w
    ensures Clamp(v, lo, hi) <= Clamp(w, lo, hi)
  {
  }
}
