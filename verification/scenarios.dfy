/** Worked examples: concrete feature vectors pushed through the model. */
module Scenarios {
  import opened RealMath
  import opened Tables
  import opened Validation
  import opened Normalization
  import opened Scoring
  import opened Ranking
  import opened Explanation

  /** A 65-year-old man with typical high-risk findings. */
  const HighRiskPatient: seq<real> :=
    [65.0, 1.0, 4.0, 160.0, 300.0, 1.0, 2.0, 120.0, 1.0, 3.0, 3.0, 2.0, 3.0]

  /** A 35-year-old woman with unremarkable findings. */
  const LowRiskPatient: seq<real> :=
    [35.0, 0.0, 1.0, 110.0, 180.0, 0.0, 0.0, 180.0, 0.0, 0.0, 1.0, 0.0, 1.0]

  /** Every value of the high-risk example lies in its validation range. */
  lemma HighRiskPatientIsValid()
    ensures IsValid(HighRiskPatient)
  {
  }

  /** Every value of the low-risk example lies in its validation range. */
  lemma LowRiskPatientIsValid()
    ensures IsValid(LowRiskPatient)
  {
  }

  /** A chest-pain code of 5 is above its maximum of 4 and is rejected. */
  lemma ChestPainFiveRejected()
    ensures !IsValid(HighRiskPatient[2 := 5.0])
  {
    OutOfRangeRejected(HighRiskPatient, 2, 5.0);
  }

  /** A vector with one feature missing is rejected on its length alone. */
  lemma MissingFeatureRejected()
    ensures !IsValid(HighRiskPatient[..12])
  {
  }

  /** ST depression 1.0 over the range [0, 6] normalizes to 1/6; chest-pain
      code 1 is the bottom of its range and normalizes to 0. */
  lemma NormalizationExamples()
    ensures NormalizeValue(1.0, NormalizationRanges[9]) == 1.0 / 6.0
    ensures NormalizeValue(1.0, NormalizationRanges[2]) == 0.0
    ensures NormalizeValue(4.0, NormalizationRanges[2]) == 1.0
  {
  }

  /** Evaluates one in-range entry of a normalized vector: `q` is the entry
      when it scales the range's span to the value's offset from the lower
      bound. */
  lemma NormalizedEntry(x: seq<real>, i: nat, q: real)
    requires |x| <= NumFeatures && i < |x|
    requires NormalizationRanges[i].lo <= x[i] <= NormalizationRanges[i].hi
    requires q * (NormalizationRanges[i].hi - NormalizationRanges[i].lo) == x[i] - NormalizationRanges[i].lo
    ensures Normalize(x)[i] == q
  {
    NormalizeValueExact(x[i], NormalizationRanges[i], q);
  }

  /** The normalized values of HighRiskPatient. */
  lemma HighRiskPatientNormalized()
    ensures Normalize(HighRiskPatient) ==
            [ 3.0 / 4.0, 1.0, 1.0, 7.0 / 11.0, 2.0 / 3.0, 1.0, 1.0, 3.0 / 8.0, 1.0,
              1.0 / 2.0, 1.0, 2.0 / 3.0, 1.0 ]
  {
    var n := [ 3.0 / 4.0, 1.0, 1.0, 7.0 / 11.0, 2.0 / 3.0, 1.0, 1.0, 3.0 / 8.0, 1.0,
               1.0 / 2.0, 1.0, 2.0 / 3.0, 1.0 ];
    forall i | 0 <= i < NumFeatures
      ensures Normalize(HighRiskPatient)[i] == n[i]
    {
      if i == 0 { NormalizedEntry(HighRiskPatient, 0, n[0]); }
      else if i == 1 { NormalizedEntry(HighRiskPatient, 1, n[1]); }
      else if i == 2 { NormalizedEntry(HighRiskPatient, 2, n[2]); }
      else if i == 3 { NormalizedEntry(HighRiskPatient, 3, n[3]); }
      else if i == 4 { NormalizedEntry(HighRiskPatient, 4, n[4]); }
      else if i == 5 { NormalizedEntry(HighRiskPatient, 5, n[5]); }
      else if i == 6 { NormalizedEntry(HighRiskPatient, 6, n[6]); }
      else if i == 7 { NormalizedEntry(HighRiskPatient, 7, n[7]); }
      else if i == 8 { NormalizedEntry(HighRiskPatient, 8, n[8]); }
      else if i == 9 { NormalizedEntry(HighRiskPatient, 9, n[9]); }
      else if i == 10 { NormalizedEntry(HighRiskPatient, 10, n[10]); }
      else if i == 11 { NormalizedEntry(HighRiskPatient, 11, n[11]); }
      else { NormalizedEntry(HighRiskPatient, 12, n[12]); }
    }
  }

  /** The terms HighRiskPatient contributes, one per feature. */
  const HighRiskPatientTerms: seq<real> :=
    [ 27.0 / 800.0, 8.0 / 25.0, 11.0 / 20.0, 7.0 / 1100.0, 1.0 / 300.0, 3.0 / 20.0, 1.0 / 10.0, -3.0 / 400.0, 2.0 / 5.0, 3.0 / 10.0, 3.0 / 10.0, 8.0 / 15.0, 9.0 / 20.0 ]

  /** Weighting the normalized values of HighRiskPatient. */
  lemma HighRiskPatientWeighted(n: seq<real>)
    requires n ==
             [ 3.0 / 4.0, 1.0, 1.0, 7.0 / 11.0, 2.0 / 3.0, 1.0, 1.0, 3.0 / 8.0, 1.0,
               1.0 / 2.0, 1.0, 2.0 / 3.0, 1.0 ]
    ensures Weighted(n) == HighRiskPatientTerms
  {
    var c := HighRiskPatientTerms;
    forall i | 0 <= i < NumFeatures
      ensures Weighted(n)[i] == c[i]
    {
      if i == 0 { assert Weights[0] == 9.0 / 200.0; }
      else if i == 1 { assert Weights[1] == 8.0 / 25.0; }
      else if i == 2 { assert Weights[2] == 11.0 / 20.0; }
      else if i == 3 { assert Weights[3] == 1.0 / 100.0; }
      else if i == 4 { assert Weights[4] == 1.0 / 200.0; }
      else if i == 5 { assert Weights[5] == 3.0 / 20.0; }
      else if i == 6 { assert Weights[6] == 1.0 / 10.0; }
      else if i == 7 { assert Weights[7] == -1.0 / 50.0; }
      else if i == 8 { assert Weights[8] == 2.0 / 5.0; }
      else if i == 9 { assert Weights[9] == 3.0 / 5.0; }
      else if i == 10 { assert Weights[10] == 3.0 / 10.0; }
      else if i == 11 { assert Weights[11] == 4.0 / 5.0; }
      else { assert Weights[12] == 9.0 / 20.0; }
    }
  }

  /** The contributions of HighRiskPatient: weight times normalized value. */
  lemma HighRiskPatientContributions()
    ensures Contributions(HighRiskPatient) == HighRiskPatientTerms
  {
    HighRiskPatientNormalized();
    HighRiskPatientWeighted(Normalize(HighRiskPatient));
  }

  lemma HighRiskPatientContributionSum()
    ensures Sum(HighRiskPatientTerms) == 82877.0 / 26400.0
  {
    SumOfThirteen(HighRiskPatientTerms);
  }

  /** The high-risk example has a positive logit of about 0.639. */
  lemma HighRiskPatientLogit()
    ensures Logit(HighRiskPatient) == 16877.0 / 26400.0
    ensures Logit(HighRiskPatient) > 0.0
  {
    HighRiskPatientContributions();
    HighRiskPatientContributionSum();
  }

  /** The normalized values of LowRiskPatient. */
  lemma LowRiskPatientNormalized()
    ensures Normalize(LowRiskPatient) ==
            [ 1.0 / 4.0, 0.0, 0.0, 2.0 / 11.0, 4.0 / 15.0, 0.0, 0.0, 3.0 / 4.0, 0.0, 0.0,
              0.0, 0.0, 0.0 ]
  {
    var n := [ 1.0 / 4.0, 0.0, 0.0, 2.0 / 11.0, 4.0 / 15.0, 0.0, 0.0, 3.0 / 4.0, 0.0, 0.0,
               0.0, 0.0, 0.0 ];
    forall i | 0 <= i < NumFeatures
      ensures Normalize(LowRiskPatient)[i] == n[i]
    {
      if i == 0 { NormalizedEntry(LowRiskPatient, 0, n[0]); }
      else if i == 1 { NormalizedEntry(LowRiskPatient, 1, n[1]); }
      else if i == 2 { NormalizedEntry(LowRiskPatient, 2, n[2]); }
      else if i == 3 { NormalizedEntry(LowRiskPatient, 3, n[3]); }
      else if i == 4 { NormalizedEntry(LowRiskPatient, 4, n[4]); }
      else if i == 5 { NormalizedEntry(LowRiskPatient, 5, n[5]); }
      else if i == 6 { NormalizedEntry(LowRiskPatient, 6, n[6]); }
      else if i == 7 { NormalizedEntry(LowRiskPatient, 7, n[7]); }
      else if i == 8 { NormalizedEntry(LowRiskPatient, 8, n[8]); }
      else if i == 9 { NormalizedEntry(LowRiskPatient, 9, n[9]); }
      else if i == 10 { NormalizedEntry(LowRiskPatient, 10, n[10]); }
      else if i == 11 { NormalizedEntry(LowRiskPatient, 11, n[11]); }
      else { NormalizedEntry(LowRiskPatient, 12, n[12]); }
    }
  }

  /** The terms LowRiskPatient contributes, one per feature. */
  const LowRiskPatientTerms: seq<real> :=
    [ 9.0 / 800.0, 0.0, 0.0, 1.0 / 550.0, 1.0 / 750.0, 0.0, 0.0, -3.0 / 200.0, 0.0, 0.0, 0.0, 0.0, 0.0 ]

  /** Weighting the normalized values of LowRiskPatient. */
  lemma LowRiskPatientWeighted(n: seq<real>)
    requires n ==
             [ 1.0 / 4.0, 0.0, 0.0, 2.0 / 11.0, 4.0 / 15.0, 0.0, 0.0, 3.0 / 4.0, 0.0, 0.0,
               0.0, 0.0, 0.0 ]
    ensures Weighted(n) == LowRiskPatientTerms
  {
    var c := LowRiskPatientTerms;
    forall i | 0 <= i < NumFeatures
      ensures Weighted(n)[i] == c[i]
    {
      if i == 0 { assert Weights[0] == 9.0 / 200.0; }
      else if i == 1 { assert Weights[1] == 8.0 / 25.0; }
      else if i == 2 { assert Weights[2] == 11.0 / 20.0; }
      else if i == 3 { assert Weights[3] == 1.0 / 100.0; }
      else if i == 4 { assert Weights[4] == 1.0 / 200.0; }
      else if i == 5 { assert Weights[5] == 3.0 / 20.0; }
      else if i == 6 { assert Weights[6] == 1.0 / 10.0; }
      else if i == 7 { assert Weights[7] == -1.0 / 50.0; }
      else if i == 8 { assert Weights[8] == 2.0 / 5.0; }
      else if i == 9 { assert Weights[9] == 3.0 / 5.0; }
      else if i == 10 { assert Weights[10] == 3.0 / 10.0; }
      else if i == 11 { assert Weights[11] == 4.0 / 5.0; }
      else { assert Weights[12] == 9.0 / 20.0; }
    }
  }

  /** The contributions of LowRiskPatient: weight times normalized value. */
  lemma LowRiskPatientContributions()
    ensures Contributions(LowRiskPatient) == LowRiskPatientTerms
  {
    LowRiskPatientNormalized();
    LowRiskPatientWeighted(Normalize(LowRiskPatient));
  }

  lemma LowRiskPatientContributionSum()
    ensures Sum(LowRiskPatientTerms) == -79.0 / 132000.0
  {
    SumOfThirteen(LowRiskPatientTerms);
  }

  /** The low-risk example has a logit of about -2.5006. */
  lemma LowRiskPatientLogit()
    ensures Logit(LowRiskPatient) == -330079.0 / 132000.0
    ensures Logit(LowRiskPatient) < 0.0
  {
    LowRiskPatientContributions();
    LowRiskPatientContributionSum();
  }

  /** With a faithful exponential the high-risk example is classified as high
      risk and the low-risk example as low risk. */
  lemma ExamplesClassified(exp: real -> real)
    requires ExpModel(exp)
    ensures Classify(Sigmoid(exp, Logit(HighRiskPatient))) == HighRisk
    ensures Classify(Sigmoid(exp, Logit(LowRiskPatient))) == LowRisk
  {
    HighRiskPatientLogit();
    LowRiskPatientLogit();
    RiskFollowsLogit(exp, HighRiskPatient);
    RiskFollowsLogit(exp, LowRiskPatient);
  }

  /** Chest Pain (contribution 0.55) is the top contributing factor of the
      high-risk example, just ahead of Vessels (8/15). */
  lemma HighRiskPatientTopFactor()
    ensures Rank(Importances(FeatureNames, Contributions(HighRiskPatient), HighRiskPatient))[0].name
            == "Chest Pain"
  {
    HighRiskPatientContributions();
    var rows := Importances(FeatureNames, Contributions(HighRiskPatient), HighRiskPatient);
    forall i | 0 <= i < |rows| && i != 2
      ensures Abs(rows[i].importance) < Abs(rows[2].importance)
    {
    }
    LargestRankedFirst(rows, 2);
  }
}
