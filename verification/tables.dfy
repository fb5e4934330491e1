/** The fixed coefficient, range and name tables of the heart-disease model.
    Every table has one entry per feature, indexed in the order
    age, sex, cp, trestbps, chol, fbs, restecg, thalach, exang, oldpeak,
    slope, ca, thal. */
module Tables {

  /** An inclusive interval [lo, hi] of feature values. */
  datatype Range = Range(lo: real, hi: real)

  /** Number of features the model is built for (the length of the weight table). */
  const NumFeatures: nat := 13

  /** Index of "Max Heart Rate" (thalach), the only feature with a negative weight. */
  const MaxHeartRate: nat := 7

  /** Logistic-regression weights, one per feature. */
  const Weights: seq<real> :=
    [0.045, 0.32, 0.55, 0.01, 0.005, 0.15, 0.1, -0.02, 0.4, 0.6, 0.3, 0.8, 0.45]

  /** Intercept added to the logit. */
  const Bias: real := -2.5

  /** Display names of the features. */
  const FeatureNames: seq<string> :=
    [ "Age", "Sex", "Chest Pain", "Resting BP", "Cholesterol",
      "Fasting BS", "Resting ECG", "Max Heart Rate", "Exercise Angina",
      "ST Depression", "ST Slope", "Vessels", "Thalassemia" ]

  /** Clinically admissible raw values, inclusive at both ends. */
  const ValidationRanges: seq<Range> :=
    [ Range(0.0, 100.0), Range(0.0, 1.0), Range(1.0, 4.0), Range(0.0, 200.0),
      Range(0.0, 600.0), Range(0.0, 1.0), Range(0.0, 2.0), Range(0.0, 220.0),
      Range(0.0, 1.0), Range(0.0, 6.0), Range(1.0, 3.0), Range(0.0, 3.0),
      Range(1.0, 3.0) ]

  /** Min-max bounds used to rescale each raw value into [0, 1]. */
  const NormalizationRanges: seq<Range> :=
    [ Range(20.0, 80.0), Range(0.0, 1.0), Range(1.0, 4.0), Range(90.0, 200.0),
      Range(100.0, 400.0), Range(0.0, 1.0), Range(0.0, 2.0), Range(60.0, 220.0),
      Range(0.0, 1.0), Range(0.0, 6.0), Range(1.0, 3.0), Range(0.0, 3.0),
      Range(1.0, 3.0) ]

  /** The tables are index-aligned, every validation range is non-empty,
      every normalization span is positive (so the rescaling never divides
      by zero), and Max Heart Rate is the single negative weight. */
  lemma TablesWellFormed()
    ensures |Weights| == NumFeatures && |FeatureNames| == NumFeatures
    ensures |ValidationRanges| == NumFeatures && |NormalizationRanges| == NumFeatures
    ensures forall i :: 0 <= i < NumFeatures ==> ValidationRanges[i].lo <= ValidationRanges[i].hi
    ensures forall i :: 0 <= i < NumFeatures ==> NormalizationRanges[i].lo < NormalizationRanges[i].hi
    ensures forall i :: 0 <= i < NumFeatures ==> (Weights[i] < 0.0 <==> i == MaxHeartRate)
  {
    forall i | 0 <= i < NumFeatures
      ensures ValidationRanges[i].lo <= ValidationRanges[i].hi
      ensures NormalizationRanges[i].lo < NormalizationRanges[i].hi
      ensures Weights[i] < 0.0 <==> i == MaxHeartRate
    {
      assert i in {0, 1, 2, 3, 4, 5, 6, 7, 8, 9, 10, 11, 12};
    }
  }
}
