# Heart-disease risk scorer — Dafny model

This project models the scoring-and-explanation engine of the Heart Disease
Risk Assessor: the `HeartDiseaseModel` class (constant tables,
`validateInputs`, `normalizeFeatures`, `predict`, `sigmoid`), the
`PredictionResult` and `FeatureImportance` records, and the ranking and
classification rules that `displayResults` applies to a prediction. The
window, its widgets and the text rendering are not modelled.

The engine is a pure pipeline over a 13-slot feature vector:

- **Validation** (`validation.dfy`): the vector must have one value per
  feature, and each value must lie in its inclusive clinical range.
- **Normalization** (`normalization.dfy`): min-max rescaling with a second
  set of per-feature bounds, clamped to [0, 1].
- **Scoring** (`scoring.dfy`): the logit is the bias plus
  `weight[i] * normalized[i]` for every feature. Each of those terms is kept
  as that feature's contribution. The probability is the logistic function
  of the logit clamped to [-500, 500].
- **Ranking** (`ranking.dfy`): rows of (name, contribution, raw value) are
  ordered by a stable sort on descending |contribution|. The first five
  rows are the top contributing factors.
- **Explanation** (`explanation.dfy`): a contribution `>= 0` is labelled as
  increasing risk. A probability `> 0.5` is high risk. Confidence is
  `|p - 0.5| * 2`.

`tables.dfy` holds the weights, bias, names and both range tables.
`realmath.dfy` holds `Abs`, `Min`, `Max` and the clamp. `scenarios.dfy`
pushes concrete patients through the model.

Everything is over Dafny `real`. `Math.exp` is a parameter `exp: real -> real`.
The scorer only needs `exp` to be positive (`ExpPositive`). The
monotonicity and classification lemmas also assume `exp(0) = 1` and that
`exp` is strictly increasing (`ExpModel`).

Under that assumption the model proves several facts:

- The logit of any full-length vector lies in [-2.52, 1.23]. So the ±500
  clamp in `sigmoid` never changes the model's own logits.
- The high-risk example patient has logit 16877/26400 (about 0.639). It is
  classified as high risk, and Chest Pain is its top factor.
- The low-risk example patient has logit about -2.5006 and is classified
  as low risk.

## Model

| member | source | states |
|---|---|---|
| Tables.TablesWellFormed | HeartDiseaseRiskAssessor.java:42-98 | all tables have 13 entries; every validation range is non-empty; every normalization span is positive, so the division never divides by zero; Max Heart Rate is the one and only negative weight |
| Validation.ValidateInputs | HeartDiseaseRiskAssessor.java:100-114 | returns true exactly when the length is 13 and every value lies in its inclusive validation range; any other length is rejected |
| Validation.BoundsAreAccepted | HeartDiseaseRiskAssessor.java:105-110 | the vectors made of all lower bounds and of all upper bounds both pass, so the bounds are inclusive |
| Validation.OutOfRangeRejected | HeartDiseaseRiskAssessor.java:108-110 | moving one value of a valid vector below its minimum or above its maximum makes validation fail |
| RealMath.Clamp | HeartDiseaseRiskAssessor.java:144 | `max(lo, min(hi, v))` lies in [lo, hi]; it is v inside the interval, and the nearer bound outside it |
| Normalization.NormalizeValue | HeartDiseaseRiskAssessor.java:140-144 | the result is in [0, 1]; inside the range it is (v - min)/(max - min); at or below min it is 0; at or above max it is 1 |
| Normalization.NormalizeValueExact | HeartDiseaseRiskAssessor.java:142-144 | inside the range, the normalized value is the unique q with q * (max - min) = v - min |
| Normalization.NormalizeValueMonotone | HeartDiseaseRiskAssessor.java:142-144 | a larger raw value never normalizes lower |
| Normalization.NormalizeIdempotent | HeartDiseaseRiskAssessor.java:144 | renormalizing a normalized value over [0, 1] returns it unchanged |
| Normalization.Normalize | HeartDiseaseRiskAssessor.java:136-148 | same length as the input; every entry in [0, 1]; entry i is the value normalized with feature i's own range |
| Scoring.Contribution | HeartDiseaseRiskAssessor.java:125 | a zero normalized value contributes nothing; a normalized value of 1 contributes the full weight; for a positive normalized value the term is negative exactly for Max Heart Rate |
| Scoring.ContributionBounds | HeartDiseaseRiskAssessor.java:125 | for a normalized value in [0, 1], the term has the sign of its weight and is no larger than the weight in magnitude |
| Scoring.ContributionMonotone | HeartDiseaseRiskAssessor.java:125 | a larger normalized value gives a larger term for a non-negative weight and a smaller one for a negative weight |
| Scoring.ContributionSigns | HeartDiseaseRiskAssessor.java:42-56 | every contribution of a scored vector has its weight's sign and satisfies abs(c[i]) <= abs(weight[i]); only Max Heart Rate can contribute negatively |
| Scoring.Sigmoid | HeartDiseaseRiskAssessor.java:150-154 | with a positive exponential the probability is strictly between 0 and 1; beyond ±500 the result no longer changes |
| Scoring.Predict | HeartDiseaseRiskAssessor.java:116-134 | the loop's per-feature terms are exactly the reference attributions `Contributions`, one per input value; the probability is the sigmoid of bias plus the sum of the returned contributions, which is the pre-clamp logit, and lies strictly between 0 and 1 |
| Scoring.ContributionEntries | HeartDiseaseRiskAssessor.java:125 | the attribution of feature i is weight i times the normalized value i |
| Scoring.SumMonotone | HeartDiseaseRiskAssessor.java:127 | a pointwise larger sequence of terms accumulates to a larger logit |
| Scoring.LogitMonotone | HeartDiseaseRiskAssessor.java:121-128 | raising positive-weight features and lowering negative-weight features never lowers the logit |
| Scoring.RaiseOneFeature | HeartDiseaseRiskAssessor.java:125 | raising one positive-weight feature, others fixed, never lowers the logit; raising Max Heart Rate never raises it |
| Scoring.SigmoidMonotone | HeartDiseaseRiskAssessor.java:150-154 | the clamped logistic function is monotone |
| Scoring.SigmoidHalf | HeartDiseaseRiskAssessor.java:150-154 | the probability is above one half iff the logit is positive, and equals one half iff the logit is zero |
| Scoring.ProbabilityMonotone | HeartDiseaseRiskAssessor.java:121-131 | raising one positive-weight feature never lowers the predicted probability |
| Scoring.ContributionSumBounds | HeartDiseaseRiskAssessor.java:42-58 | for a full-length vector the contributions add up to at least the one negative weight (-0.02) and at most the sum of the positive weights (3.73) |
| Scoring.Logit | HeartDiseaseRiskAssessor.java:121-127 | the logit accumulated from the bias and the contributions of a full-length vector lies in [-2.52, 1.23], strictly inside the ±500 clamp |
| Scoring.ClampNeverEngaged | HeartDiseaseRiskAssessor.java:150-153 | for a full-length vector the clamped sigmoid equals the unclamped logistic of the logit |
| Ranking.Importances | HeartDiseaseRiskAssessor.java:538-540 | row i pairs name i, contribution i and raw value i, one row per contribution |
| Ranking.RankOrder | HeartDiseaseRiskAssessor.java:543 | lists every row index exactly once; earlier indices have larger magnitude, or equal magnitude and a smaller index |
| Ranking.Rank | HeartDiseaseRiskAssessor.java:542-543 | the ranked rows are a permutation of the input rows, with non-increasing absolute contribution |
| Ranking.RankIsStable | HeartDiseaseRiskAssessor.java:543 | rows of equal magnitude keep their original relative order, as the stable `List.sort` does |
| Ranking.RankDeterministic | HeartDiseaseRiskAssessor.java:543 | any ordering of all indices that is descending in magnitude with ties in index order is the computed ranking, so the ranking is unique |
| Ranking.RankedOrdersEqual | HeartDiseaseRiskAssessor.java:543 | two strictly ranked orders over the same indices coincide |
| Ranking.InsertRanked | HeartDiseaseRiskAssessor.java:543 | inserting a new index keeps an order sorted by descending magnitude with ties in index order |
| Ranking.SortRanked | HeartDiseaseRiskAssessor.java:543 | insertion-sorting distinct indices yields an order sorted by descending magnitude with ties in index order |
| Ranking.GatherSorted | HeartDiseaseRiskAssessor.java:543 | reordering the rows through the sorted indices permutes them |
| Ranking.LargestRankedFirst | HeartDiseaseRiskAssessor.java:543 | a row of strictly largest magnitude comes first |
| Ranking.TopFactors | HeartDiseaseRiskAssessor.java:545-547 | the top section has min(5, n) rows and is a prefix of the ranking |
| Ranking.TopFactorsDominate | HeartDiseaseRiskAssessor.java:545-547 | no row outside the top section has a larger magnitude than a row inside it |
| Explanation.ImpactOf | HeartDiseaseRiskAssessor.java:548-561 | the shown label and absolute value together recover the signed contribution; zero is labelled as increasing risk; a decreasing label means a non-zero magnitude |
| Explanation.Classify | HeartDiseaseRiskAssessor.java:516-517 | a probability above one half is high risk; one half and below is low risk; a high-risk verdict always has a positive confidence |
| Explanation.Confidence | HeartDiseaseRiskAssessor.java:602 | the confidence is in [0, 1] for a probability in [0, 1]; it is 0 exactly at probability one half and 1 exactly at 0 or 1 |
| Explanation.RiskFollowsLogit | HeartDiseaseRiskAssessor.java:517 | the prediction is high risk exactly when the logit is positive, so a probability of exactly one half is low risk |
| Explanation.Explain | HeartDiseaseRiskAssessor.java:517-602 | the report's probability is the sigmoid of the vector's logit; its risk level is high iff the probability exceeds one half; its confidence is abs(p - 0.5) * 2; the ranked list holds the rows of the prediction; the top section is the top factors of that list, its first min(5, n) rows; only Max Heart Rate can be labelled as decreasing risk |
| Scenarios.HighRiskPatientIsValid | HeartDiseaseRiskAssessor.java:100-114 | the high-risk example passes validation |
| Scenarios.LowRiskPatientIsValid | HeartDiseaseRiskAssessor.java:100-114 | the low-risk example passes validation |
| Scenarios.ChestPainFiveRejected | HeartDiseaseRiskAssessor.java:108-110 | a chest-pain code of 5 fails validation |
| Scenarios.MissingFeatureRejected | HeartDiseaseRiskAssessor.java:101-103 | a 12-value vector fails validation |
| Scenarios.NormalizationExamples | HeartDiseaseRiskAssessor.java:140-144 | ST depression 1.0 normalizes to 1/6; chest-pain code 1 normalizes to 0, and code 4 to 1 |
| Scenarios.HighRiskPatientLogit | HeartDiseaseRiskAssessor.java:116-128 | the high-risk example's logit is exactly 16877/26400, which is positive |
| Scenarios.LowRiskPatientLogit | HeartDiseaseRiskAssessor.java:116-128 | the low-risk example's logit is exactly -330079/132000, which is negative |
| Scenarios.ExamplesClassified | HeartDiseaseRiskAssessor.java:517 | the two examples are classified high and low risk respectively |
| Scenarios.HighRiskPatientTopFactor | HeartDiseaseRiskAssessor.java:543-547 | Chest Pain is the high-risk example's top contributing factor |

## Left out

- The Swing window is not modelled: panels, fields, buttons, focus listeners, dialogs, help text and the progress bar. They are presentation only.
- Parsing the text fields with `Double.parseDouble` and its `NumberFormatException` dialog are not modelled. The model starts from a vector of numbers.
- The `javax.swing.Timer` delay before scoring is not modelled. It is event-loop timing with no effect on the result.
- `DecimalFormat` and `String.format` rendering is not modelled. Nor is the progress bar's `(int)` truncation of the percentage. These are formatting of doubles.
- The static transparency text is not modelled: accuracy, fairness and energy claims, and the disclaimer.
- `Math.exp` is a parameter `exp`, constrained only by `ExpPositive` or `ExpModel`. The exact function is not available over `real`.
- Scoring.Sigmoid: states 0 < p < 1 over reals. With IEEE doubles, `1 / (1 + exp(-x))` rounds to exactly 1.0 for large x, so the source can return 1.0. Rounding is not modelled.
- NaN and -0.0 are not modelled. A NaN input passes the `<`/`>` checks in `validateInputs`. In Java -0.0 >= 0 holds, so the label is unaffected, and `Math.abs` maps -0.0 to 0.0 in the sort.
- Scoring.Predict, Normalization.Normalize, Explanation.Explain: require at most 13 values. For a longer array the source indexes `weights` and `normalizationRanges` past their end and throws `ArrayIndexOutOfBoundsException`. Shorter arrays are scored, as in the source.
- Ranking.Rank: the stable sort is modelled as an insertion sort on row indices. The source's `List.sort` uses a merge sort, but a stable sort's output is unique (`RankDeterministic`), so the result is the same.
