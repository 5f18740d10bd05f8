/**
 * The fix-queue risk score (scw/risk.py): a weighted sum of four risk
 * inputs, scaled by a proximity multiplier. Python floats are modelled as
 * exact reals, so no rounding happens here.
 */
module Risk {

  /** `RiskInputs`; the inputs are meant to lie in 0..1 but nothing clamps them. */
  datatype RiskInputs = RiskInputs(
    freshnessRisk: real,
    usageRisk: real,
    failAdjacentRisk: real,
    depVolatilityRisk: real,
    proximalMultiplier: real)

  /** `RiskInputs()`: every risk 0, proximity multiplier 1. */
  function DefaultInputs(): RiskInputs {
    RiskInputs(0.0, 0.0, 0.0, 0.0, 1.0)
  }

  /** The three weights `score` takes as keyword parameters; dependency volatility always weighs 1. */
  datatype Weights = Weights(stale: real, highUsage: real, failureAdjacent: real)

  function DefaultWeights(): Weights {
    Weights(1.5, 1.4, 1.3)
  }

  predicate NonNegativeWeights(w: Weights) {
    w.stale >= 0.0 && w.highUsage >= 0.0 && w.failureAdjacent >= 0.0
  }

  function Base(inp: RiskInputs, w: Weights): real {
    inp.freshnessRisk * w.stale + inp.usageRisk * w.highUsage + inp.failAdjacentRisk * w.failureAdjacent + inp.depVolatilityRisk
  }

  /** `score(inp, stale, high_usage, failure_adjacent)`. */
  function Score(inp: RiskInputs, w: Weights): real {
    Base(inp, w) * inp.proximalMultiplier
  }

  /** The score the scanner attaches to every queue item: freshness risk 1, all else default. */
  function StaleItemScore(): (r: real)
    ensures r == 1.5
  {
    Score(DefaultInputs().(freshnessRisk := 1.0), DefaultWeights())
  }

  /** A proximity multiplier of 0 cancels every input. */
  lemma ScoreZeroProximal(inp: RiskInputs, w: Weights)
    requires inp.proximalMultiplier == 0.0
    ensures Score(inp, w) == 0.0
  {
  }

  lemma MulMonotone(x: real, y: real, c: real)
    requires x <= y && c >= 0.0
    ensures x * c <= y * c
  {
  }

  /**
   * With non-negative weights and multiplier, raising any of the risk inputs
   * never lowers the score.
   */
  lemma ScoreMonotone(a: RiskInputs, b: RiskInputs, w: Weights)
    requires NonNegativeWeights(w)
    requires a.proximalMultiplier == b.proximalMultiplier >= 0.0
    requires a.freshnessRisk <= b.freshnessRisk && a.usageRisk <= b.usageRisk
    requires a.failAdjacentRisk <= b.failAdjacentRisk && a.depVolatilityRisk <= b.depVolatilityRisk
    ensures Score(a, w) <= Score(b, w)
  {
    MulMonotone(a.freshnessRisk, b.freshnessRisk, w.stale);
    MulMonotone(a.usageRisk, b.usageRisk, w.highUsage);
    MulMonotone(a.failAdjacentRisk, b.failAdjacentRisk, w.failureAdjacent);
    MulMonotone(Base(a, w), Base(b, w), a.proximalMultiplier);
  }

  /** Non-negative inputs, weights and multiplier give a non-negative score. */
  lemma ScoreNonNegative(inp: RiskInputs, w: Weights)
    requires NonNegativeWeights(w) && inp.proximalMultiplier >= 0.0
    requires inp.freshnessRisk >= 0.0 && inp.usageRisk >= 0.0
    requires inp.failAdjacentRisk >= 0.0 && inp.depVolatilityRisk >= 0.0
    ensures Score(inp, w) >= 0.0
  {
    var zero := RiskInputs(0.0, 0.0, 0.0, 0.0, inp.proximalMultiplier);
    ScoreMonotone(zero, inp, w);
  }

  /** Inputs are not clamped: a freshness risk of 2 scores twice as much as one of 1. */
  lemma ScoreUnclamped(w: Weights)
    ensures Score(DefaultInputs().(freshnessRisk := 2.0), w) == 2.0 * Score(DefaultInputs().(freshnessRisk := 1.0), w)
  {
  }

  /** Dependency volatility weighs exactly 1, whatever weights are passed. */
  lemma DepVolatilityWeightOne(x: real, w: Weights)
    ensures Score(DefaultInputs().(depVolatilityRisk := x), w) == x
  {
  }
}
