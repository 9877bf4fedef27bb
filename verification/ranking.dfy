/**
 * The ranker: score every task against the whole collection, attach the score and its
 * explanation, then order the annotated tasks by score, highest first, keeping the input
 * order among equal scores (a stable sort in reverse).
 */
module Ranking {
  import opened Wrappers
  import opened Tasks
  import opened DependencyScores
  import opened Strategy
  import opened StableSort

  /** A task with priority_score and priority_explanation added; the task itself is untouched. */
  datatype ScoredTask = ScoredTask(task: Task, priorityScore: real, explanation: Explanation)

  /** A per-task scorer: PriorityScore with the collection and strategy fixed. */
  type Scorer = Task -> Result<Explanation, ScoreError>

  /** Some pending task fails to score. */
  predicate SomeTaskFails(pending: seq<Task>, score: Scorer) {
    exists i :: 0 <= i < |pending| && score(pending[i]).Failure?
  }

  /** st is task t annotated with its score. */
  predicate ScoredAs(st: ScoredTask, t: Task, score: Scorer) {
    && st.task == t
    && score(t) == Success(st.explanation)
    && st.priorityScore == st.explanation.finalScore
  }

  /** The i-th pending task is the first to fail, and it fails with e. */
  predicate FirstFailure(pending: seq<Task>, score: Scorer, i: int, e: ScoreError) {
    && 0 <= i < |pending|
    && score(pending[i]) == Failure(e)
    && forall j :: 0 <= j < i ==> score(pending[j]).Success?
  }

  /** Scores each pending task in order; the first failure aborts the loop and is what the caller sees. */
  function ScoreEach(pending: seq<Task>, score: Scorer): (r: Result<seq<ScoredTask>, ScoreError>)
    ensures r.Failure? <==> SomeTaskFails(pending, score)
    ensures r.Failure? ==> exists i :: FirstFailure(pending, score, i, r.error)
    ensures r.Success? ==> |r.value| == |pending|
    ensures r.Success? ==> forall i :: 0 <= i < |pending| ==> ScoredAs(r.value[i], pending[i], score)
  {
    if |pending| == 0 then Success([])
    else
      var head := score(pending[0]);
      if head.Failure? then
        assert FirstFailure(pending, score, 0, head.error);
        Failure(head.error)
      else
        var x := head.value;
        var rest := ScoreEach(pending[1..], score);
        if rest.Failure? then
          var i :| FirstFailure(pending[1..], score, i, rest.error);
          assert FirstFailure(pending, score, i + 1, rest.error) by {
            assert forall j :: 1 <= j <= i + 1 ==> pending[j] == pending[1..][j - 1];
          }
          Failure(rest.error)
        else
          var r := [ScoredTask(pending[0], x.finalScore, x)] + rest.value;
          assert forall i :: 1 <= i < |pending| ==> pending[i] == pending[1..][i - 1] && r[i] == rest.value[i - 1];
          assert !SomeTaskFails(pending, score) by {
            forall i | 0 <= i < |pending|
              ensures score(pending[i]).Success?
            {
              if i > 0 {
                assert ScoredAs(rest.value[i - 1], pending[1..][i - 1], score);
              }
            }
          }
          Success(r)
  }

  /** The error a failed scoring pass reports is the one the first failing task raised. */
  lemma ScoreEachReportsFirstFailure(pending: seq<Task>, score: Scorer, i: int, e: ScoreError)
    requires FirstFailure(pending, score, i, e)
    ensures ScoreEach(pending, score) == Failure(e)
  {
    var r := ScoreEach(pending, score);
    assert r.Failure?;
    var j :| FirstFailure(pending, score, j, r.error);
    assert !(j < i) && !(i < j);
  }

  /** The scorer of one ranking call: every task is scored against the whole collection. */
  function ScorerFor(tasks: seq<Task>, strategy: string): Scorer {
    (t: Task) => PriorityScore(t, tasks, strategy)
  }

  /** Annotates every task, in input order, with its score against the whole collection. */
  function Prioritize(tasks: seq<Task>, strategy: string): Result<seq<ScoredTask>, ScoreError> {
    ScoreEach(tasks, ScorerFor(tasks, strategy))
  }

  /** Ranking fails exactly when some task has one dependent or the strategy is unknown. */
  lemma PrioritizeFailsIff(tasks: seq<Task>, strategy: string)
    ensures Prioritize(tasks, strategy).Failure? <==>
      (|tasks| > 0 && !KnownStrategy(strategy))
      || exists i :: 0 <= i < |tasks| && |DependentPositions(tasks[i].id, tasks)| == 1
  {
    var score := ScorerFor(tasks, strategy);
    if Prioritize(tasks, strategy).Failure? {
      var i :| 0 <= i < |tasks| && score(tasks[i]).Failure?;
      assert PriorityScore(tasks[i], tasks, strategy).Failure?;
    } else {
      if |tasks| > 0 {
        assert score(tasks[0]).Success?;
      }
      forall i | 0 <= i < |tasks|
        ensures |DependentPositions(tasks[i].id, tasks)| != 1
      {
        assert score(tasks[i]).Success?;
      }
    }
  }

  /** The sort key: the attached priority score. */
  function PriorityOf(st: ScoredTask): real {
    st.priorityScore
  }

  /** The ranked collection: every task scored, highest score first, ties in input order. */
  function GetSortedTasks(tasks: seq<Task>, strategy: string): (r: Result<seq<ScoredTask>, ScoreError>)
    ensures r.Success? <==> Prioritize(tasks, strategy).Success?
    ensures r.Failure? ==> r.error == Prioritize(tasks, strategy).error
    ensures r.Success? ==> SortedDescending(PriorityOf, r.value)
    ensures r.Success? ==> multiset(r.value) == multiset(Prioritize(tasks, strategy).value)
    ensures r.Success? ==> forall score :: WithKey(PriorityOf, r.value, score) == WithKey(PriorityOf, Prioritize(tasks, strategy).value, score)
  {
    match Prioritize(tasks, strategy)
    case Failure(e) => Failure(e)
    case Success(scored) =>
      var sorted := SortDescending(PriorityOf, scored);
      assert forall score :: WithKey(PriorityOf, sorted, score) == WithKey(PriorityOf, scored, score) by {
        forall score
          ensures WithKey(PriorityOf, sorted, score) == WithKey(PriorityOf, scored, score)
        {
          SortDescendingStable(PriorityOf, scored, score);
        }
      }
      Success(sorted)
  }

  /**
   * Every input task appears in the ranking, unchanged and with its own score. That each
   * occurrence appears once is the multiset clause of GetSortedTasks.
   */
  lemma RankingCoversEveryTask(tasks: seq<Task>, strategy: string, i: int)
    requires GetSortedTasks(tasks, strategy).Success?
    requires 0 <= i < |tasks|
    ensures exists k :: 0 <= k < |tasks| && ScoredAs(GetSortedTasks(tasks, strategy).value[k], tasks[i], ScorerFor(tasks, strategy))
  {
    var scored := Prioritize(tasks, strategy).value;
    var ranked := GetSortedTasks(tasks, strategy).value;
    assert ScoredAs(scored[i], tasks[i], ScorerFor(tasks, strategy));
    PermutationKeepsElement(scored, ranked, i);
    var k :| 0 <= k < |ranked| && ranked[k] == scored[i];
  }
}
