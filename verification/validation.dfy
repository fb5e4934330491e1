/** Input validation: a feature vector is accepted when it has exactly one
    value per feature and every value lies inside its inclusive clinical range. */
module Validation {
  import opened Tables

  predicate InRange(v: real, r: Range) {
    r.lo <= v <= r.hi
  }

  /** Reference definition of an admissible feature vector. */
  predicate IsValid(features: seq<real>) {
    && |features| == NumFeatures
    && forall i :: 0 <= i < |features| ==> InRange(features[i], ValidationRanges[i])
  }

  /** The validator: rejects a vector of the wrong length, then scans the
      values and rejects at the first one below its minimum or above its
      maximum. Values equal to a bound are accepted. */
  method ValidateInputs(features: seq<real>) returns (ok: bool)
    ensures ok <==> IsValid(features)
    ensures |features| != |Weights| ==> !ok
  {
    if |features| != |Weights| {
      return false;
    }
    var i := 0;
    while i < |features|
      invariant 0 <= i <= |features|
      invariant forall j :: 0 <= j < i ==> InRange(features[j], ValidationRanges[j])
    {
      var min := ValidationRanges[i].lo;
      var max := ValidationRanges[i].hi;
      if features[i] < min || features[i] > max {
        return false;
      }
      i := i + 1;
    }
    return true;
  }

  /** The vectors made of the lower bounds and of the upper bounds are both
      accepted: the range check is inclusive at both ends. */
  lemma BoundsAreAccepted()
    ensures IsValid(seq(NumFeatures, i requires 0 <= i < NumFeatures => ValidationRanges[i].lo))
    ensures IsValid(seq(NumFeatures, i requires 0 <= i < NumFeatures => ValidationRanges[i].hi))
  {
    TablesWellFormed();
  }

  /** Moving any single value of an accepted vector past either bound of its
      range makes the vector rejected. */
  lemma OutOfRangeRejected(features: seq<real>, k: nat, v: real)
    requires IsValid(features)
    requires k < |features|
    requires v < ValidationRanges[k].lo || v > ValidationRanges[k].hi
    ensures !IsValid(features[k := v])
  {
    assert features[k := v][k] == v;
  }
}
