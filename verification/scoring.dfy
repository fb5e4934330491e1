/** The scorer: a linear logit over normalized features, squashed by a
    clamped logistic function, with each feature's signed term of the logit
    recorded as its contribution (its attribution). */
module Scoring {
  import opened RealMath
  import opened Tables
  import opened Normalization

  /** What one scoring call returns: the probability and one contribution per
      input value, index-aligned with the input. */
  datatype PredictionResult = PredictionResult(probability: real, shapValues: seq<real>)

  /** The logistic function's argument is clamped to [-LogitLimit, LogitLimit]
      before exponentiation. */
  const LogitLimit: real := 500.0

  /** The exponential function is not modelled exactly; the scorer only needs
      it to be positive. */
  ghost predicate ExpPositive(exp: real -> real) {
    forall t :: exp(t) > 0.0
  }

  /** The properties of the exponential function the classification lemmas
      rely on: positive, strictly increasing and equal to 1 at 0. */
  ghost predicate ExpModel(exp: real -> real) {
    && ExpPositive(exp)
    && exp(0.0) == 1.0
    && forall a, b :: a < b ==> exp(a) < exp(b)
  }

  /** Sum of a sequence, accumulated from the left as the scoring loop does. */
  function Sum(s: seq<real>): real {
    if |s| == 0 then 0.0 else Sum(s[..|s| - 1]) + s[|s| - 1]
  }

  /** The signed term feature `i` adds to the logit: its weight times its
      normalized value. */
  function Contribution(i: nat, normalized: real): (c: real)
    requires i < NumFeatures
    ensures normalized == 0.0 ==> c == 0.0
    ensures normalized == 1.0 ==> c == Weights[i]
    ensures normalized > 0.0 ==> (c < 0.0 <==> i == MaxHeartRate)
  {
    TablesWellFormed();
    Weights[i] * normalized
  }

  /** A normalized value in [0, 1] gives a term with the sign of the weight
      and no larger in magnitude than the weight. */
  lemma ContributionBounds(i: nat, normalized: real)
    requires i < NumFeatures
    requires 0.0 <= normalized <= 1.0
    ensures Weights[i] >= 0.0 ==> 0.0 <= Contribution(i, normalized) <= Weights[i]
    ensures Weights[i] < 0.0 ==> Weights[i] <= Contribution(i, normalized) <= 0.0
    ensures Abs(Contribution(i, normalized)) <= Abs(Weights[i])
  {
    var w := Weights[i];
    if w >= 0.0 {
      assert w * normalized <= w * 1.0;
    } else {
      assert w * 1.0 <= w * normalized;
    }
  }

  /** A larger normalized value gives a larger term for a non-negative weight
      and a smaller one for a negative weight. */
  lemma ContributionMonotone(i: nat, a: real, b: real)
    requires i < NumFeatures
    ensures Weights[i] >= 0.0 && a <= b ==> Contribution(i, a) <= Contribution(i, b)
    ensures Weights[i] < 0.0 && b <= a ==> Contribution(i, a) <= Contribution(i, b)
  {
    var w := Weights[i];
    assert Contribution(i, b) - Contribution(i, a) == w * (b - a);
  }

  /** The terms of an already normalized vector, one per feature. */
  function Weighted(normalized: seq<real>): (c: seq<real>)
    requires |normalized| <= NumFeatures
    ensures |c| == |normalized|
  {
    seq(|normalized|, i requires 0 <= i < |normalized| => Contribution(i, normalized[i]))
  }

  /** Reference definition of the attributions: the terms of the normalized
      vector. */
  function Contributions(features: seq<real>): (c: seq<real>)
    requires |features| <= NumFeatures
    ensures |c| == |features|
  {
    Weighted(Normalize(features))
  }

  /** Each attribution is its feature's weight times its normalized value. */
  lemma ContributionEntries(features: seq<real>)
    requires |features| <= NumFeatures
    ensures forall i :: 0 <= i < |features| ==>
              Contributions(features)[i] == Weights[i] * Normalize(features)[i]
  {
  }

  /** The pre-clamp logit: bias plus every contribution. For a full-length
      vector it lies between the bias plus the negative weights and the bias
      plus the positive weights, so far inside the sigmoid's clamp. */
  function Logit(features: seq<real>): (l: real)
    requires |features| <= NumFeatures
    ensures |features| == NumFeatures ==> -2.52 <= l <= 1.23
    ensures |features| == NumFeatures ==> -LogitLimit < l < LogitLimit
  {
    var total := Sum(Contributions(features));
    assert |features| == NumFeatures ==> -0.02 <= total <= 3.73 by {
      if |features| == NumFeatures {
        ContributionSumBounds(features);
      }
    }
    Bias + total
  }

  /** Logistic function with its argument clamped to +-LogitLimit. With a
      positive exponential the result lies strictly between 0 and 1, and it
      stops changing beyond the clamp bounds. */
  function Sigmoid(exp: real -> real, x: real): (p: real)
    requires ExpPositive(exp)
    ensures 0.0 < p < 1.0
    ensures x >= LogitLimit ==> p == 1.0 / (1.0 + exp(-LogitLimit))
    ensures x <= -LogitLimit ==> p == 1.0 / (1.0 + exp(LogitLimit))
  {
    var clamped := Clamp(x, -LogitLimit, LogitLimit);
    assert exp(-clamped) > 0.0;
    1.0 / (1.0 + exp(-clamped))
  }

  /** Scores a feature vector: normalizes it, accumulates the logit starting
      from the bias while recording each weighted term, then applies the
      clamped logistic function. The probability is the logistic of bias plus
      the sum of the returned contributions, which is the pre-clamp logit. */
  method Predict(features: seq<real>, exp: real -> real) returns (result: PredictionResult)
    requires |features| <= NumFeatures
    requires ExpPositive(exp)
    ensures |result.shapValues| == |features|
    ensures result.shapValues == Contributions(features)
    ensures result.probability == Sigmoid(exp, Bias + Sum(result.shapValues))
    ensures result.probability == Sigmoid(exp, Logit(features))
    ensures 0.0 < result.probability < 1.0
  {
    var normalized := Normalize(features);
    var logit := Bias;
    var shap: seq<real> := [];
    for i := 0 to |normalized|
      invariant |shap| == i
      invariant shap == Weighted(normalized)[..i]
      invariant logit == Bias + Sum(shap)
    {
      var contribution := Contribution(i, normalized[i]);
      SumAppend(shap, contribution);
      WeightedPrefix(normalized, i);
      shap := shap + [contribution];
      logit := logit + contribution;
    }
    assert shap == Weighted(normalized);
    var probability := Sigmoid(exp, logit);
    result := PredictionResult(probability, shap);
  }

  /** One more term of the weighted vector extends its prefix by that term. */
  lemma WeightedPrefix(normalized: seq<real>, i: nat)
    requires i < |normalized| <= NumFeatures
    ensures Weighted(normalized)[..i + 1] == Weighted(normalized)[..i] + [Contribution(i, normalized[i])]
  {
  }

  /** Extending a prefix by the next element adds that element to the sum. */
  lemma SumPrefixStep(s: seq<real>, k: nat)
    requires k < |s|
    ensures Sum(s[..k + 1]) == Sum(s[..k]) + s[k]
  {
    SumAppend(s[..k], s[k]);
    assert s[..k] + [s[k]] == s[..k + 1];
  }

  /** Three more elements of a prefix add their three values to the sum. */
  lemma SumThreeSteps(s: seq<real>, k: nat)
    requires k + 3 <= |s|
    ensures Sum(s[..k + 3]) == Sum(s[..k]) + s[k] + s[k + 1] + s[k + 2]
  {
    SumPrefixStep(s, k);
    SumPrefixStep(s, k + 1);
    SumPrefixStep(s, k + 2);
  }

  /** A full-length sum written out term by term. */
  lemma SumOfThirteen(s: seq<real>)
    requires |s| == NumFeatures
    ensures Sum(s) == s[0] + s[1] + s[2] + s[3] + s[4] + s[5] + s[6] + s[7] + s[8] + s[9]
                      + s[10] + s[11] + s[12]
  {
    assert s[..0] == [];
    SumThreeSteps(s, 0);
    SumThreeSteps(s, 3);
    SumThreeSteps(s, 6);
    SumThreeSteps(s, 9);
    SumPrefixStep(s, 12);
    assert s[..13] == s;
  }

  lemma SumAppend(s: seq<real>, v: real)
    ensures Sum(s + [v]) == Sum(s) + v
  {
    assert (s + [v])[..|s|] == s;
  }

  /** Sums respect a pointwise order. */
  lemma {:induction false} SumMonotone(s: seq<real>, t: seq<real>)
    requires |s| == |t|
    requires forall i :: 0 <= i < |s| ==> s[i] <= t[i]
    ensures Sum(s) <= Sum(t)
  {
    if |s| > 0 {
      SumMonotone(s[..|s| - 1], t[..|t| - 1]);
    }
  }

  /** Moving every positive-weight feature up and every negative-weight
      feature down never decreases the logit. */
  lemma LogitMonotone(x: seq<real>, y: seq<real>)
    requires |x| == |y| <= NumFeatures
    requires forall i :: 0 <= i < |x| && Weights[i] >= 0.0 ==> x[i] <= y[i]
    requires forall i :: 0 <= i < |x| && Weights[i] < 0.0 ==> y[i] <= x[i]
    ensures Logit(x) <= Logit(y)
  {
    var cx, cy := Contributions(x), Contributions(y);
    var nx, ny := Normalize(x), Normalize(y);
    forall i | 0 <= i < |x|
      ensures cx[i] <= cy[i]
    {
      if Weights[i] >= 0.0 {
        NormalizeValueMonotone(x[i], y[i], NormalizationRanges[i]);
      } else {
        NormalizeValueMonotone(y[i], x[i], NormalizationRanges[i]);
      }
      ContributionMonotone(i, nx[i], ny[i]);
    }
    SumMonotone(cx, cy);
  }

  /** Raising one positive-weight feature, all others fixed, never lowers the
      logit; raising Max Heart Rate (the negative weight) never raises it. */
  lemma RaiseOneFeature(x: seq<real>, k: nat, v: real)
    requires |x| <= NumFeatures
    requires k < |x|
    requires x[k] <= v
    ensures Weights[k] >= 0.0 ==> Logit(x) <= Logit(x[k := v])
    ensures Weights[k] < 0.0 ==> Logit(x[k := v]) <= Logit(x)
  {
    if Weights[k] >= 0.0 {
      LogitMonotone(x, x[k := v]);
    } else {
      LogitMonotone(x[k := v], x);
    }
  }

  /** The clamped logistic function is monotone. */
  lemma SigmoidMonotone(exp: real -> real, a: real, b: real)
    requires ExpModel(exp)
    requires a <= b
    ensures Sigmoid(exp, a) <= Sigmoid(exp, b)
  {
    var ca := Clamp(a, -LogitLimit, LogitLimit);
    var cb := Clamp(b, -LogitLimit, LogitLimit);
    ClampMonotone(a, b, -LogitLimit, LogitLimit);
    if ca < cb {
      assert exp(-cb) < exp(-ca);
    }
    assert exp(-cb) <= exp(-ca);
    var da, db := 1.0 + exp(-ca), 1.0 + exp(-cb);
    ReciprocalAntitone(db, da);
  }

  lemma ReciprocalAntitone(a: real, b: real)
    requires 0.0 < a <= b
    ensures 1.0 / b <= 1.0 / a
  {
    assert 1.0 / a - 1.0 / b == (b - a) / (a * b);
  }

  lemma HalfThreshold(e: real)
    requires e > 0.0
    ensures 1.0 / (1.0 + e) > 0.5 <==> e < 1.0
    ensures 1.0 / (1.0 + e) == 0.5 <==> e == 1.0
  {
    assert 1.0 / (1.0 + e) - 0.5 == (1.0 - e) / (2.0 * (1.0 + e));
  }

  /** The probability crosses one half exactly where the logit crosses zero:
      it is above one half iff the logit is positive, and equal to one half
      iff the logit is zero. */
  lemma SigmoidHalf(exp: real -> real, x: real)
    requires ExpModel(exp)
    ensures Sigmoid(exp, x) > 0.5 <==> x > 0.0
    ensures Sigmoid(exp, x) == 0.5 <==> x == 0.0
  {
    var c := Clamp(x, -LogitLimit, LogitLimit);
    var e := exp(-c);
    assert x > 0.0 <==> c > 0.0;
    assert x == 0.0 <==> c == 0.0;
    if c > 0.0 {
      assert e < exp(0.0);
    } else if c < 0.0 {
      assert exp(0.0) < e;
    }
    HalfThreshold(e);
  }

  /** Raising one positive-weight feature never lowers the predicted
      probability. */
  lemma ProbabilityMonotone(exp: real -> real, x: seq<real>, k: nat, v: real)
    requires ExpModel(exp)
    requires |x| <= NumFeatures
    requires k < |x|
    requires x[k] <= v
    requires Weights[k] >= 0.0
    ensures Sigmoid(exp, Logit(x)) <= Sigmoid(exp, Logit(x[k := v]))
  {
    RaiseOneFeature(x, k, v);
    SigmoidMonotone(exp, Logit(x), Logit(x[k := v]));
  }

  /** Every contribution of a scored vector has the sign of its weight and is
      bounded in magnitude by it; in particular Max Heart Rate is the only
      feature whose contribution can be negative. */
  lemma ContributionSigns(features: seq<real>)
    requires |features| <= NumFeatures
    ensures forall i :: 0 <= i < |features| && Weights[i] >= 0.0 ==> Contributions(features)[i] >= 0.0
    ensures forall i :: 0 <= i < |features| && Weights[i] < 0.0 ==> Contributions(features)[i] <= 0.0
    ensures forall i :: 0 <= i < |features| ==> Abs(Contributions(features)[i]) <= Abs(Weights[i])
    ensures forall i :: 0 <= i < |features| && Contributions(features)[i] < 0.0 ==> i == MaxHeartRate
  {
    var c := Contributions(features);
    var normalized := Normalize(features);
    TablesWellFormed();
    forall i | 0 <= i < |features|
      ensures Weights[i] >= 0.0 ==> c[i] >= 0.0
      ensures Weights[i] < 0.0 ==> c[i] <= 0.0
      ensures Abs(c[i]) <= Abs(Weights[i])
    {
      ContributionBounds(i, normalized[i]);
    }
  }

  /** For a full-length vector the attributions add up to at least the single
      negative weight and at most the sum of the positive weights. */
  lemma ContributionSumBounds(features: seq<real>)
    requires |features| == NumFeatures
    ensures -0.02 <= Sum(Contributions(features)) <= 3.73
  {
    var c := Contributions(features);
    ContributionSigns(features);
    TablesWellFormed();
    SumMonotone(NegativeParts, c);
    SumMonotone(c, PositiveParts);
    SumOfNegativeParts();
    SumOfPositiveParts();
  }

  /** The negative part of each weight: the least term each feature can add. */
  const NegativeParts: seq<real> := [0.0, 0.0, 0.0, 0.0, 0.0, 0.0, 0.0, -0.02, 0.0, 0.0, 0.0, 0.0, 0.0]

  /** The positive part of each weight: the greatest term each feature can add. */
  const PositiveParts: seq<real> := [0.045, 0.32, 0.55, 0.01, 0.005, 0.15, 0.1, 0.0, 0.4, 0.6, 0.3, 0.8, 0.45]

  lemma SumOfNegativeParts()
    ensures Sum(NegativeParts) == -0.02
  {
    SumOfThirteen(NegativeParts);
  }

  lemma SumOfPositiveParts()
    ensures Sum(PositiveParts) == 3.73
  {
    SumOfThirteen(PositiveParts);
  }

  /** Because a full-length logit stays inside the clamp, the probability is
      exactly the unclamped logistic of the logit. */
  lemma ClampNeverEngaged(exp: real -> real, features: seq<real>)
    requires ExpPositive(exp)
    requires |features| == NumFeatures
    ensures Sigmoid(exp, Logit(features)) == 1.0 / (1.0 + exp(-Logit(features)))
  {
  }
}
