// Feature vectors and the linear ranking model (src/recovery.c:9-12, 108-116).
module RankModels {

  const FEATURE_COUNT := 11

  // Places in a feature vector, in the order of `sf_feature_names`.
  const PACKET_CONFIDENCE := 0
  const PACKETS := 1
  const SLICE_BYTES := 2
  const CC_ERRORS := 3
  const MISSING_BY_CC := 4
  const OUT_OF_ORDER := 5
  const BAD_PES_STARTS := 6
  const LOW_ENTROPY := 7
  const HIGH_ENTROPY := 8
  const IDR_BYTES := 9
  const HAS_IDR := 10

  type Values = v: seq<real> | |v| == FEATURE_COUNT witness seq(FEATURE_COUNT, _ => 0.0)

  function ZeroValues(): Values
  {
    seq(FEATURE_COUNT, _ => 0.0)
  }

  function Plus(v: Values, i: nat, d: real): (r: Values)
    requires i < FEATURE_COUNT
  {
    v[i := v[i] + d]
  }

  datatype RankModel = RankModel(means: Values, scales: Values, weights: seq<real>, enabled: bool)

  predicate ModelValid(m: RankModel)
  {
    |m.weights| == FEATURE_COUNT + 1
  }

  /** One term of the score; a zero scale counts as one. */
  function Term(m: RankModel, values: Values, i: nat): real
    requires ModelValid(m) && i < FEATURE_COUNT
  {
    var scale := if m.scales[i] != 0.0 then m.scales[i] else 1.0;
    m.weights[i + 1] * (values[i] - m.means[i]) / scale
  }

  function Terms(m: RankModel, values: Values, n: nat): real
    requires ModelValid(m) && n <= FEATURE_COUNT
  {
    if n == 0 then m.weights[0] else Terms(m, values, n - 1) + Term(m, values, n - 1)
  }

  /** `sf_rank_score`: the heuristic score when no model is loaded. */
  function RankScore(m: RankModel, values: Values, score: real): real
    requires ModelValid(m)
  {
    if !m.enabled then score else Terms(m, values, FEATURE_COUNT)
  }

  method ComputeRankScore(m: RankModel, values: Values, score: real) returns (r: real)
    requires ModelValid(m)
    ensures r == RankScore(m, values, score)
  {
    if !m.enabled {
      return score;
    }
    r := m.weights[0];
    for i := 0 to FEATURE_COUNT
      invariant r == Terms(m, values, i)
    {
      var scale := if m.scales[i] != 0.0 then m.scales[i] else 1.0;
      r := r + m.weights[i + 1] * (values[i] - m.means[i]) / scale;
    }
  }

  // ---------- What the score means ----------

  /** The scale of a feature as the model counts it. */
  function ScaleOf(m: RankModel, i: nat): real
    requires i < FEATURE_COUNT
  {
    if m.scales[i] == 0.0 then 1.0 else m.scales[i]
  }

  lemma {:induction false} TermsAtMeans(m: RankModel, n: nat)
    requires ModelValid(m) && n <= FEATURE_COUNT
    ensures Terms(m, m.means, n) == m.weights[0]
  {
    if n > 0 {
      TermsAtMeans(m, n - 1);
      assert m.weights[n] * (m.means[n - 1] - m.means[n - 1]) == 0.0;
    }
  }

  /** A unit with average features scores the bias alone. */
  lemma AverageScoresBias(m: RankModel, score: real)
    requires ModelValid(m) && m.enabled
    ensures RankScore(m, m.means, score) == m.weights[0]
  {
    TermsAtMeans(m, FEATURE_COUNT);
  }

  lemma Distributes(w: real, x: real, d: real, s: real)
    requires s != 0.0
    ensures w * (x + d) / s == w * x / s + w * d / s
  {
    assert w * (x + d) == w * x + w * d;
    Quotients(w * x, w * d, s);
  }

  lemma Quotients(a: real, b: real, s: real)
    requires s != 0.0
    ensures (a + b) / s == a / s + b / s
  {
  }

  lemma TermShift(m: RankModel, values: Values, i: nat, d: real, k: nat)
    requires ModelValid(m) && i < FEATURE_COUNT && k < FEATURE_COUNT
    ensures Term(m, values[i := values[i] + d], k) == Term(m, values, k) + if i == k then m.weights[i + 1] * d / ScaleOf(m, i) else 0.0
  {
    if i == k {
      Distributes(m.weights[i + 1], values[i] - m.means[i], d, ScaleOf(m, i));
      assert values[i] + d - m.means[i] == values[i] - m.means[i] + d;
    }
  }

  lemma {:induction false} TermsShift(m: RankModel, values: Values, i: nat, d: real, n: nat)
    requires ModelValid(m) && i < FEATURE_COUNT && n <= FEATURE_COUNT
    ensures Terms(m, values[i := values[i] + d], n) ==
            Terms(m, values, n) + if i < n then m.weights[i + 1] * d / ScaleOf(m, i) else 0.0
  {
    hide Term, ScaleOf;
    if n > 0 {
      TermsShift(m, values, i, d, n - 1);
      TermShift(m, values, i, d, n - 1);
    }
  }

  /** Changing one feature changes the score in proportion to its weight, measured in units of its scale. */
  lemma ScoreIsLinear(m: RankModel, values: Values, i: nat, d: real, score: real)
    requires ModelValid(m) && m.enabled && i < FEATURE_COUNT
    ensures RankScore(m, values[i := values[i] + d], score) ==
            RankScore(m, values, score) + m.weights[i + 1] * d / (if m.scales[i] == 0.0 then 1.0 else m.scales[i])
  {
    TermsShift(m, values, i, d, FEATURE_COUNT);
  }

  /** More of a feature with positive weight ranks higher, when its scale is not negative. */
  lemma MoreScoresHigher(m: RankModel, values: Values, i: nat, d: real, score: real)
    requires ModelValid(m) && m.enabled && i < FEATURE_COUNT && d > 0.0 && m.weights[i + 1] > 0.0 && m.scales[i] >= 0.0
    ensures RankScore(m, values[i := values[i] + d], score) > RankScore(m, values, score)
  {
    ScoreIsLinear(m, values, i, d, score);
    assert m.weights[i + 1] * d > 0.0;
    PositiveQuotient(m.weights[i + 1] * d, ScaleOf(m, i));
  }

  lemma PositiveQuotient(a: real, s: real)
    requires a > 0.0 && s > 0.0
    ensures a / s > 0.0
  {
  }

  /** Without a model the heuristic score decides. */
  lemma NoModelNoChange(m: RankModel, values: Values, score: real)
    requires ModelValid(m) && !m.enabled
    ensures RankScore(m, values, score) == score
  {
  }
}
