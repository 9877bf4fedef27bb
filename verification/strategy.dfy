/**
 * The strategy weight table and the aggregator that combines the four sub-scores into a
 * base score, discounts it by the backward multiplier, and records the explanation.
 */
module Strategy {
  import opened Wrappers
  import opened Tasks
  import opened SubScores
  import opened DependencyScores

  /** Weights of urgency, importance, effort and dependence, in whole percent. */
  datatype Weights = Weights(urgency: nat, importance: nat, effort: nat, dependence: nat)

  const SmartBalance: string := "Smart Balance"
  const DeadlineDriven: string := "Deadline Driven"
  const HighImpact: string := "High Impact"
  const FastestWins: string := "Fastest Wins"

  predicate WeightsSumToOne(w: Weights) {
    w.urgency + w.importance + w.effort + w.dependence == 100
  }

  /** Every weight is a whole number of twentieths (0.05). */
  predicate InTwentieths(w: Weights) {
    w.urgency % 5 == 0 && w.importance % 5 == 0 && w.effort % 5 == 0 && w.dependence % 5 == 0
  }

  /** The weight table; a name outside it has no weights. */
  function StrategyWeights(name: string): (r: Option<Weights>)
    ensures r.Some? <==> name in {SmartBalance, DeadlineDriven, HighImpact, FastestWins}
    ensures r.Some? ==> WeightsSumToOne(r.value) && InTwentieths(r.value)
    ensures r.Some? ==> r.value.urgency > 0 && r.value.importance > 0 && r.value.effort > 0 && r.value.dependence > 0
  {
    if name == SmartBalance then Some(Weights(30, 35, 20, 15))
    else if name == DeadlineDriven then Some(Weights(60, 20, 10, 10))
    else if name == HighImpact then Some(Weights(15, 55, 15, 15))
    else if name == FastestWins then Some(Weights(20, 20, 45, 15))
    else None
  }

  /** Each named strategy leans on the factor its name promises. */
  lemma StrategyEmphasis()
    ensures var w := StrategyWeights(DeadlineDriven).value;
      w.urgency > w.importance && w.urgency > w.effort && w.urgency > w.dependence
    ensures var w := StrategyWeights(HighImpact).value;
      w.importance > w.urgency && w.importance > w.effort && w.importance > w.dependence
    ensures var w := StrategyWeights(FastestWins).value;
      w.effort > w.urgency && w.effort > w.importance && w.effort > w.dependence
  {
  }

  /** The weighted sum of the four sub-scores. */
  function WeightedBase(w: Weights, urgency: int, importance: int, effort: int, dependence: int): real {
    WeightedSum(w, urgency, importance, effort, dependence) as real / 100.0
  }

  /** The weighted sum in hundredths. */
  function WeightedSum(w: Weights, urgency: int, importance: int, effort: int, dependence: int): int {
    urgency * w.urgency + importance * w.importance + effort * w.effort + dependence * w.dependence
  }

  lemma ProductBounds(score: int, weight: nat)
    requires 0 <= score <= 100
    ensures 0 <= score * weight <= 100 * weight
  {
  }

  /** With weights summing to one, scores in [0, 100] give a base score in [0, 100]. */
  lemma WeightedBaseBounds(w: Weights, u: int, i: int, e: int, d: int)
    requires WeightsSumToOne(w)
    requires 0 <= u <= 100 && 0 <= i <= 100 && 0 <= e <= 100 && 0 <= d <= 100
    ensures 0 <= WeightedSum(w, u, i, e, d) <= 10000
    ensures 0.0 <= WeightedBase(w, u, i, e, d) <= 100.0
  {
    ProductBounds(u, w.urgency);
    ProductBounds(i, w.importance);
    ProductBounds(e, w.effort);
    ProductBounds(d, w.dependence);
  }

  /** Raising any one sub-score never lowers the base score. */
  lemma WeightedBaseMonotone(w: Weights, u: int, i: int, e: int, d: int, u': int, i': int, e': int, d': int)
    requires u <= u' && i <= i' && e <= e' && d <= d'
    ensures WeightedBase(w, u, i, e, d) <= WeightedBase(w, u', i', e', d')
  {
    assert u * w.urgency <= u' * w.urgency by { MultiplyMonotone(u, u', w.urgency); }
    assert i * w.importance <= i' * w.importance by { MultiplyMonotone(i, i', w.importance); }
    assert e * w.effort <= e' * w.effort by { MultiplyMonotone(e, e', w.effort); }
    assert d * w.dependence <= d' * w.dependence by { MultiplyMonotone(d, d', w.dependence); }
  }

  lemma MultiplyMonotone(a: int, b: int, k: nat)
    requires a <= b
    ensures a * k <= b * k
  {
  }

  /** The explanation attached to every scored task. */
  datatype Explanation = Explanation(
    baseScore: real,
    finalScore: real,
    urgency: SubScore<UrgencyReason>,
    importance: SubScore<ImportanceReason>,
    effort: SubScore<EffortReason>,
    forward: SubScore<ForwardReason>,
    backward: BackwardFactor
  )

  /** A base score scaled by a backward multiplier. */
  function Discount(base: real, multiplier: real): real {
    base * multiplier
  }

  /** The final score is the base score scaled by the backward multiplier. */
  predicate Discounted(x: Explanation) {
    x.finalScore == Discount(x.baseScore, x.backward.multiplier)
  }

  /** Combines the sub-scores under the weights and applies the backward multiplier. */
  function Aggregate(
    w: Weights,
    urgency: SubScore<UrgencyReason>,
    importance: SubScore<ImportanceReason>,
    effort: SubScore<EffortReason>,
    forward: SubScore<ForwardReason>,
    backward: BackwardFactor
  ): (x: Explanation)
    requires WeightsSumToOne(w)
    requires 0 <= urgency.score <= 100 && 0 <= importance.score <= 100
    requires 0 <= effort.score <= 100 && 0 <= forward.score <= 100
    requires InTwentieths(w)
    requires backward.multiplier in {1.0, 0.8, 0.6, 0.4}
    ensures x.baseScore == WeightedBase(w, urgency.score, importance.score, effort.score, forward.score)
    ensures 0.0 <= x.finalScore <= x.baseScore <= 100.0
    ensures Discounted(x)
    ensures OnCentGrid(x.baseScore) && OnCentGrid(x.finalScore)
    ensures x.urgency == urgency && x.importance == importance && x.effort == effort
    ensures x.forward == forward && x.backward == backward
  {
    var sum := WeightedSum(w, urgency.score, importance.score, effort.score, forward.score);
    WeightedBaseBounds(w, urgency.score, importance.score, effort.score, forward.score);
    WeightedSumOfFives(w, urgency.score, importance.score, effort.score, forward.score);
    var base := WeightedBase(w, urgency.score, importance.score, effort.score, forward.score);
    var final := Discount(base, backward.multiplier);
    DiscountedCents(sum, base, backward.multiplier, final);
    Explanation(base, final, urgency, importance, effort, forward, backward)
  }

  predicate KnownStrategy(name: string) {
    name in {SmartBalance, DeadlineDriven, HighImpact, FastestWins}
  }

  /**
   * Scores one task against the whole collection. The forward-dependency lookup runs before
   * the weights are read, so a task with one dependent fails with UnboundReason even under
   * an unknown strategy.
   */
  function PriorityScore(task: Task, tasks: seq<Task>, strategy: string): (r: Result<Explanation, ScoreError>)
    ensures r.Failure? <==> |DependentPositions(task.id, tasks)| == 1 || !KnownStrategy(strategy)
    ensures r.Failure? ==> (r.error == UnboundReason <==> |DependentPositions(task.id, tasks)| == 1)
    ensures r.Success? ==>
      r.value.forward == ForwardDependency(task.id, tasks).value
      && r.value.baseScore == WeightedBase(StrategyWeights(strategy).value, r.value.urgency.score,
           r.value.importance.score, r.value.effort.score, r.value.forward.score)
    ensures r.Success? ==> 0.0 <= r.value.finalScore <= r.value.baseScore <= 100.0
    ensures r.Success? ==> Discounted(r.value)
    ensures r.Success? ==> OnCentGrid(r.value.baseScore) && OnCentGrid(r.value.finalScore)
    ensures r.Success? ==>
      (r.value.urgency == Urgency(task.daysUntilDue) && r.value.importance == Importance(task.importance)
       && r.value.effort == Effort(task.hours) && r.value.backward == Backward(task, tasks))
  {
    match ForwardDependency(task.id, tasks)
    case Failure(e) => Failure(e)
    case Success(forward) =>
      match StrategyWeights(strategy)
      case None => Failure(UnknownStrategy)
      case Some(w) =>
        var x := Aggregate(w, Urgency(task.daysUntilDue), Importance(task.importance), Effort(task.hours),
          forward, Backward(task, tasks));
        Success(x)
  }

  lemma DiscountBounds(base: real, m: real)
    requires 0.0 <= base && 0.0 < m <= 1.0
    ensures 0.0 <= base * m <= base
  {
  }

  /** A real with at most two decimals: rounding it to two places changes nothing. */
  predicate OnCentGrid(x: real) {
    (x * 100.0).Floor as real == x * 100.0
  }

  lemma ScaledByFive(a: int, k: nat)
    requires k % 5 == 0
    ensures a * k == 5 * (a * (k / 5))
  {
    var q := k / 5;
    assert k == 5 * q;
    assert a * (5 * q) == 5 * (a * q);
  }

  lemma {:induction false} WeightedSumOfFives(w: Weights, u: int, i: int, e: int, d: int)
    requires InTwentieths(w)
    ensures WeightedSum(w, u, i, e, d) % 5 == 0
  {
    ScaledByFive(u, w.urgency);
    ScaledByFive(i, w.importance);
    ScaledByFive(e, w.effort);
    ScaledByFive(d, w.dependence);
    var s := u * (w.urgency / 5) + i * (w.importance / 5) + e * (w.effort / 5) + d * (w.dependence / 5);
    assert WeightedSum(w, u, i, e, d) == 5 * s;
  }

  lemma {:induction false} CentsOfDiscount(sum: int, m: real)
    requires sum % 5 == 0
    requires m in {1.0, 0.8, 0.6, 0.4}
    ensures OnCentGrid(sum as real / 100.0)
    ensures OnCentGrid((sum as real / 100.0) * m)
  {
    var k := sum / 5;
    assert sum == 5 * k;
    assert (sum as real / 100.0) * 100.0 == sum as real;
    var c := (sum as real / 100.0) * m * 100.0;
    if m == 1.0 {
      assert c == (5 * k) as real;
    } else if m == 0.8 {
      assert c == (4 * k) as real;
    } else if m == 0.6 {
      assert c == (3 * k) as real;
    } else {
      assert c == (2 * k) as real;
    }
  }

  /** A base score on the grid of twentieths, discounted, stays in range and on the cent grid. */
  lemma DiscountedCents(sum: int, base: real, m: real, final: real)
    requires 0 <= sum <= 10000 && sum % 5 == 0
    requires base == sum as real / 100.0
    requires m in {1.0, 0.8, 0.6, 0.4} && final == Discount(base, m)
    ensures 0.0 <= final <= base <= 100.0
    ensures OnCentGrid(base) && OnCentGrid(final)
  {
    DiscountBounds(base, m);
    CentsOfDiscount(sum, m);
  }
}
