/** Min-max rescaling of raw feature values into [0, 1], clamped at the edges.
    Normalization ranges are independent of the validation ranges: a value can
    be admissible yet clamp to 0 or 1 here. */
module Normalization {
  import opened RealMath
  import opened Tables

  /** Rescales one value with the bounds of `rg` and clamps the result. */
  function NormalizeValue(v: real, rg: Range): (r: real)
    requires rg.lo < rg.hi
    ensures 0.0 <= r <= 1.0
    ensures rg.lo <= v <= rg.hi ==> r * (rg.hi - rg.lo) == v - rg.lo
    ensures v <= rg.lo ==> r == 0.0
    ensures v >= rg.hi ==> r == 1.0
  {
    var span := rg.hi - rg.lo;
    var scaled := (v - rg.lo) / span;
    assert scaled * span == v - rg.lo;
    assert v <= rg.lo ==> scaled <= 0.0 by {
      FactorSign(scaled, span);
    }
    assert v >= rg.hi ==> scaled >= 1.0 by {
      assert (scaled - 1.0) * span == v - rg.hi;
      FactorSign(scaled - 1.0, span);
    }
    Clamp(scaled, 0.0, 1.0)
  }

  /** A product with a positive factor has the sign of the other factor. */
  lemma FactorSign(a: real, s: real)
    requires s > 0.0
    ensures a * s >= 0.0 ==> a >= 0.0
    ensures a * s <= 0.0 ==> a <= 0.0
  {
    if a < 0.0 {
      assert a * s < 0.0;
    } else if a > 0.0 {
      assert a * s > 0.0;
    }
  }

  /** Inside its range a value normalizes to the unique `q` that scales the
      span to the value's offset from the lower bound. */
  lemma NormalizeValueExact(v: real, rg: Range, q: real)
    requires rg.lo < rg.hi
    requires rg.lo <= v <= rg.hi
    requires q * (rg.hi - rg.lo) == v - rg.lo
    ensures NormalizeValue(v, rg) == q
  {
    var r := NormalizeValue(v, rg);
    assert (r - q) * (rg.hi - rg.lo) == 0.0;
    FactorSign(r - q, rg.hi - rg.lo);
  }

  /** Normalization is monotone: a larger raw value never normalizes lower. */
  lemma NormalizeValueMonotone(v: real, w: real, rg: Range)
    requires rg.lo < rg.hi
    requires v <= w
    ensures NormalizeValue(v, rg) <= NormalizeValue(w, rg)
  {
    var span := rg.hi - rg.lo;
    var qv := (v - rg.lo) / span;
    var qw := (w - rg.lo) / span;
    assert qv * span == v - rg.lo;
    assert qw * span == w - rg.lo;
    assert (qw - qv) * span == w - v;
    FactorSign(qw - qv, span);
    ClampMonotone(qv, qw, 0.0, 1.0);
  }

  /** Normalizing an already normalized value over the unit range returns it
      unchanged. */
  lemma NormalizeIdempotent(v: real, rg: Range)
    requires rg.lo < rg.hi
    ensures NormalizeValue(NormalizeValue(v, rg), Range(0.0, 1.0)) == NormalizeValue(v, rg)
  {
  }

  /** Normalizes each value with the range of its own feature. The result has
      the input's length and every entry lies in [0, 1]. Vectors longer than
      the tables are outside the model (the tables would be indexed past
      their end). */
  function Normalize(features: seq<real>): (r: seq<real>)
    requires |features| <= NumFeatures
    ensures |r| == |features|
    ensures forall i :: 0 <= i < |r| ==> 0.0 <= r[i] <= 1.0
    ensures forall i {:trigger r[i]} :: 0 <= i < |r| ==>
              && NormalizationRanges[i].lo < NormalizationRanges[i].hi
              && r[i] == NormalizeValue(features[i], NormalizationRanges[i])
  {
    TablesWellFormed();
    seq(|features|, i requires 0 <= i < |features| => NormalizeValue(features[i], NormalizationRanges[i]))
  }
}
