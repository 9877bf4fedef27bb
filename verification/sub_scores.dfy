/**
 * The three per-attribute sub-scores: urgency from the days left until the due date,
 * importance from the user's 1..10 rating, and effort from the estimated hours.
 * Each is a step function returning a score together with a reason tag.
 */
module SubScores {
  import opened Wrappers

  /** A sub-score and the reason shown for it. */
  datatype SubScore<R> = SubScore(score: int, reason: R)

  datatype UrgencyReason =
    | NoDueDate
    | Overdue
    | DueToday
    | DueTomorrow
    | DueInDays(days: int)

  datatype Level = Critical | High | Medium | Low

  /** The "<LEVEL> importance (<value>/10)" reason, with the value actually scored. */
  datatype ImportanceReason = ImportanceReason(level: Level, value: int)

  /** The three effort reason templates, each carrying the hours (in hundredths) scored. */
  datatype EffortReason =
    | QuickWin(hours: int)      // "High priority as this only takes ..."
    | ModerateEffort(hours: int) // "Medium priority as this takes ..."
    | TakesHours(hours: int)     // "This takes ..."

  function Abs(x: int): nat {
    if x < 0 then -x else x
  }

  function Min(a: int, b: int): int {
    if a <= b then a else b
  }

  /**
   * Urgency. Overdue tasks get min(100, 5 * days overdue + 100), which is 100 already
   * one day late; the remaining tiers shrink as the due date moves away.
   */
  function Urgency(daysUntilDue: Option<int>): (r: SubScore<UrgencyReason>)
    ensures daysUntilDue.None? ==> r.score == 10
    ensures daysUntilDue.Some? && daysUntilDue.value < 0 ==> r.score == 100
    ensures daysUntilDue.Some? ==> 20 <= r.score <= 100
    ensures r.reason == NoDueDate <==> daysUntilDue.None?
    ensures r.reason == Overdue <==> daysUntilDue.Some? && daysUntilDue.value < 0
    ensures r.reason == DueToday <==> daysUntilDue == Some(0)
    ensures r.reason == DueTomorrow <==> daysUntilDue == Some(1)
    ensures r.reason.DueInDays? <==> daysUntilDue.Some? && daysUntilDue.value >= 2
    ensures r.reason.DueInDays? ==> r.reason.days == daysUntilDue.value
  {
    match daysUntilDue
    case None => SubScore(10, NoDueDate)
    case Some(d) =>
      if d < 0 then SubScore(Min(100, Abs(d) * 5 + 100), Overdue)
      else if d == 0 then SubScore(95, DueToday)
      else if d == 1 then SubScore(90, DueTomorrow)
      else if d == 2 then SubScore(80, DueInDays(d))
      else if d == 3 then SubScore(70, DueInDays(d))
      else if d <= 7 then SubScore(50, DueInDays(d))
      else if d <= 14 then SubScore(30, DueInDays(d))
      else SubScore(20, DueInDays(d))
  }

  /** A later due date never makes a task more urgent. */
  lemma UrgencyNonIncreasing(d1: int, d2: int)
    requires 0 <= d1 <= d2
    ensures Urgency(Some(d2)).score <= Urgency(Some(d1)).score
  {
  }

  /** An overdue task is at least as urgent as any other, and strictly more than one with no due date. */
  lemma OverdueOutranksAll(overdue: int, other: Option<int>)
    requires overdue < 0
    ensures Urgency(other).score <= Urgency(Some(overdue)).score
    ensures Urgency(None).score < Urgency(Some(overdue)).score
  {
  }

  /** The urgency tiers, day by day, up to the 8..14 and beyond-14 plateaus. */
  lemma UrgencyTiers(d: int)
    requires d >= 0
    ensures d == 0 ==> Urgency(Some(d)).score == 95
    ensures d == 1 ==> Urgency(Some(d)).score == 90
    ensures d == 2 ==> Urgency(Some(d)).score == 80
    ensures d == 3 ==> Urgency(Some(d)).score == 70
    ensures 4 <= d <= 7 <==> Urgency(Some(d)).score == 50
    ensures 8 <= d <= 14 <==> Urgency(Some(d)).score == 30
    ensures 14 < d <==> Urgency(Some(d)).score == 20
  {
  }

  /** The rating actually scored: a missing or out-of-range rating is replaced by 5. */
  function EffectiveImportance(importance: Option<int>): (v: int)
    ensures 1 <= v <= 10
    ensures importance.Some? && 1 <= importance.value <= 10 ==> v == importance.value
    ensures !(importance.Some? && 1 <= importance.value <= 10) ==> v == 5
  {
    if importance.None? || 1 > importance.value || importance.value > 10 then 5 else importance.value
  }

  /** Importance: ten points per rating step; the label follows the score. */
  function Importance(importance: Option<int>): (r: SubScore<ImportanceReason>)
    ensures 10 <= r.score <= 100 && r.score % 10 == 0
    ensures importance.Some? && 1 <= importance.value <= 10 ==> r.score == 10 * importance.value
    ensures !(importance.Some? && 1 <= importance.value <= 10) ==> r.score == 50
    ensures r.reason.value * 10 == r.score
  {
    var v := EffectiveImportance(importance);
    var score := v * 10;
    var level :=
      if score >= 80 then Critical
      else if score >= 60 then High
      else if score >= 40 then Medium
      else Low;
    SubScore(score, ImportanceReason(level, v))
  }

  /** The label in terms of the rating: 8..10 critical, 6..7 high, 4..5 medium, 1..3 low. */
  lemma ImportanceLevels(importance: Option<int>)
    ensures var v := EffectiveImportance(importance);
      var level := Importance(importance).reason.level;
      && (level == Critical <==> 8 <= v)
      && (level == High <==> 6 <= v < 8)
      && (level == Medium <==> 4 <= v < 6)
      && (level == Low <==> v < 4)
  {
  }

  /** A higher valid rating never scores lower. */
  lemma ImportanceMonotone(a: int, b: int)
    requires 1 <= a <= b <= 10
    ensures Importance(Some(a)).score <= Importance(Some(b)).score
  {
  }

  /** The hours actually scored, in hundredths: blank, zero or negative hours become 4 hours. */
  function EffectiveHours(hours: Option<int>): (h: int)
    ensures h > 0
    ensures hours.Some? && hours.value > 0 ==> h == hours.value
    ensures hours.None? || hours.value <= 0 ==> h == 400
  {
    if hours.None? || hours.value <= 0 then 400 else hours.value
  }

  /** Effort: quick tasks score high, the score falling by 20 at 1, 2, 4 and 8 hours. */
  function Effort(hours: Option<int>): (r: SubScore<EffortReason>)
    ensures r.score in {20, 40, 60, 80, 100}
    ensures (hours.None? || hours.value <= 0) ==> r.score == 60
    ensures r.reason.hours == EffectiveHours(hours)
    ensures r.reason.QuickWin? <==> r.score == 100
    ensures r.reason.ModerateEffort? <==> r.score == 80
    ensures r.reason.TakesHours? <==> r.score <= 60
  {
    var h := EffectiveHours(hours);
    if h <= 100 then SubScore(100, QuickWin(h))
    else if h <= 200 then SubScore(80, ModerateEffort(h))
    else if h <= 400 then SubScore(60, TakesHours(h))
    else if h <= 800 then SubScore(40, TakesHours(h))
    else SubScore(20, TakesHours(h))
  }

  /** More hours never score higher. */
  lemma EffortNonIncreasing(h1: int, h2: int)
    requires 0 < h1 <= h2
    ensures Effort(Some(h2)).score <= Effort(Some(h1)).score
  {
  }

  /** Across a tier boundary (1, 2, 4 or 8 hours) the score strictly drops. */
  lemma EffortStrictAcrossBoundary(h1: int, h2: int, boundary: int)
    requires boundary in {100, 200, 400, 800}
    requires 0 < h1 <= boundary < h2
    ensures Effort(Some(h2)).score < Effort(Some(h1)).score
  {
  }
}
