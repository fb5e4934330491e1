/** The explanation shown for one prediction: the risk classification, the
    confidence figure, and the ranked feature attributions with their
    "increases"/"decreases" labels. */
module Explanation {
  import opened RealMath
  import opened Tables
  import opened Scoring
  import opened Ranking

  /** How a contribution is labelled: a non-negative contribution, zero
      included, increases risk; only a negative one decreases it. */
  datatype Impact = Increases | Decreases

  /** Labels a contribution. The displayed pair of label and absolute value
      loses nothing: it determines the signed contribution, a zero
      contribution is labelled as increasing risk, and a decreasing label
      always comes with a non-zero magnitude. */
  function ImpactOf(c: real): (r: Impact)
    ensures SignedValue(r, Abs(c)) == c
    ensures c == 0.0 ==> r == Increases
    ensures r == Decreases ==> Abs(c) > 0.0
  {
    if c >= 0.0 then Increases else Decreases
  }

  /** Recovers the signed contribution from a displayed row. */
  function SignedValue(impact: Impact, magnitude: real): real {
    if impact == Increases then magnitude else -magnitude
  }

  datatype RiskLevel = HighRisk | LowRisk

  /** Risk threshold. The comparison is strict, so a probability of exactly
      one half is low risk; a high-risk verdict always comes with a positive
      confidence. */
  function Classify(probability: real): (r: RiskLevel)
    ensures probability == 0.5 ==> r == LowRisk
    ensures probability < 0.5 ==> r == LowRisk
    ensures probability > 0.5 ==> r == HighRisk
    ensures r == HighRisk ==> Confidence(probability) > 0.0
  {
    if probability > 0.5 then HighRisk else LowRisk
  }

  /** Distance of the probability from the decision threshold, rescaled so a
      probability of 0 or 1 gives 1 and a probability of one half gives 0. */
  function Confidence(probability: real): (c: real)
    ensures 0.0 <= probability <= 1.0 ==> 0.0 <= c <= 1.0
    ensures c == 0.0 <==> probability == 0.5
    ensures c == 1.0 <==> probability == 0.0 || probability == 1.0
  {
    Abs(probability - 0.5) * 2.0
  }

  /** Under a faithful exponential the risk level depends only on the sign of
      the logit: high risk exactly when the logit is positive. */
  lemma RiskFollowsLogit(exp: real -> real, features: seq<real>)
    requires ExpModel(exp)
    requires |features| <= NumFeatures
    ensures Classify(Sigmoid(exp, Logit(features))) == HighRisk <==> Logit(features) > 0.0
  {
    SigmoidHalf(exp, Logit(features));
  }

  /** Everything the result panel presents for one scored vector. */
  datatype Report = Report(
    risk: RiskLevel,
    probability: real,
    confidence: real,
    top: seq<FeatureImportance>,
    all: seq<FeatureImportance>)

  /** Scores a vector and assembles its report: the rows pair each feature's
      name, contribution and raw value, ranked by descending magnitude; the
      top factors are the first five of them. Only Max Heart Rate can ever be
      labelled as decreasing risk. */
  method Explain(features: seq<real>, exp: real -> real) returns (report: Report)
    requires |features| <= NumFeatures
    requires ExpPositive(exp)
    ensures report.probability == Sigmoid(exp, Logit(features))
    ensures 0.0 < report.probability < 1.0
    ensures report.risk == HighRisk <==> report.probability > 0.5
    ensures report.confidence == Confidence(report.probability)
    ensures 0.0 < report.confidence <= 1.0 || report.probability == 0.5
    ensures report.all == Rank(Importances(FeatureNames, Contributions(features), features))
    ensures |report.all| == |features|
    ensures report.top == TopFactors(report.all)
    ensures report.top <= report.all
    ensures |report.top| == if |features| < TopCount then |features| else TopCount
    ensures forall k :: 0 <= k < |report.all| && ImpactOf(report.all[k].importance) == Decreases
              ==> report.all[k].name == FeatureNames[MaxHeartRate]
  {
    var result := Predict(features, exp);
    TablesWellFormed();
    var rows := Importances(FeatureNames, result.shapValues, features);
    var ranked := Rank(rows);
    var order := RankOrder(rows);
    ContributionSigns(features);
    forall k | 0 <= k < |ranked| && ImpactOf(ranked[k].importance) == Decreases
      ensures ranked[k].name == FeatureNames[MaxHeartRate]
    {
      assert ranked[k] == rows[order[k]];
    }
    report := Report(
      Classify(result.probability),
      result.probability,
      Confidence(result.probability),
      TopFactors(ranked),
      ranked);
  }
}
