/** Concrete rankings: the two-task ranking of the repository's API test and a few worked examples. */
module Scenarios {
  import opened Wrappers
  import opened Tasks
  import opened DependencyList
  import opened SubScores
  import opened DependencyScores
  import opened Strategy
  import opened StableSort
  import opened Ranking

  /** The shared shape of the test's two tasks: 3.5 hours, no dependencies. */
  predicate TestTask(t: Task, days: int, importance: int) {
    && t.daysUntilDue == Some(days)
    && t.importance == Some(importance)
    && t.hours == Some(350)
    && t.dependencies == ""
  }

  lemma NoDependencyIsListed(t: Task, id: int)
    requires t.dependencies == ""
    ensures !DependsOn(t, id)
  {
    ParseExampleEmpty();
  }

  lemma NobodyDependsOnAnything(tasks: seq<Task>)
    requires forall k :: 0 <= k < |tasks| ==> tasks[k].dependencies == ""
    ensures forall id :: Dependents(id, tasks) == 0
  {
    forall id
      ensures Dependents(id, tasks) == 0
    {
      forall k | 0 <= k < |tasks|
        ensures !DependsOn(tasks[k], id)
      {
        NoDependencyIsListed(tasks[k], id);
      }
      NoDependentsIffNobodyLists(id, tasks);
    }
  }

  /** A task nobody waits on and with no prerequisites scores exactly its weighted base. */
  lemma UnblockedScore(t: Task, tasks: seq<Task>, strategy: string)
    requires Dependents(t.id, tasks) == 0
    requires ParseIds(t.dependencies) == []
    requires KnownStrategy(strategy)
    ensures PriorityScore(t, tasks, strategy).Success?
    ensures PriorityScore(t, tasks, strategy).value.finalScore ==
      WeightedBase(StrategyWeights(strategy).value, Urgency(t.daysUntilDue).score,
        Importance(t.importance).score, Effort(t.hours).score, 0)
  {
    DependentsCountsTasks(t.id, tasks);
    assert ForwardDependency(t.id, tasks) == Success(SubScore(0, NoTasksBlocked));
    assert Backward(t, tasks) == BackwardFactor(1.0, NoDependencies);
    var w := StrategyWeights(strategy).value;
    var x := Aggregate(w, Urgency(t.daysUntilDue), Importance(t.importance), Effort(t.hours),
      SubScore(0, NoTasksBlocked), BackwardFactor(1.0, NoDependencies));
    assert PriorityScore(t, tasks, strategy) == Success(x);
  }

  lemma TestTaskScore(t: Task, tasks: seq<Task>, days: int, importance: int)
    requires TestTask(t, days, importance)
    requires forall k :: 0 <= k < |tasks| ==> tasks[k].dependencies == ""
    ensures PriorityScore(t, tasks, SmartBalance).Success?
    ensures PriorityScore(t, tasks, SmartBalance).value.finalScore ==
      WeightedBase(Weights(30, 35, 20, 15), Urgency(Some(days)).score, Importance(Some(importance)).score, 60, 0)
  {
    ParseExampleEmpty();
    NobodyDependsOnAnything(tasks);
    UnblockedScore(t, tasks, SmartBalance);
  }

  lemma TestScores()
    ensures WeightedBase(Weights(30, 35, 20, 15), Urgency(Some(1)).score, Importance(Some(9)).score, 60, 0) == 70.5
    ensures WeightedBase(Weights(30, 35, 20, 15), Urgency(Some(10)).score, Importance(Some(3)).score, 60, 0) == 31.5
  {
    assert Urgency(Some(1)).score == 90 && Urgency(Some(10)).score == 30;
    assert Importance(Some(9)).score == 90 && Importance(Some(3)).score == 30;
  }

  /** A task annotated with its successful score, as the scoring pass records it. */
  function Annotated(t: Task, score: Scorer): (st: ScoredTask)
    requires score(t).Success?
    ensures ScoredAs(st, t, score)
  {
    ScoredTask(t, score(t).value.finalScore, score(t).value)
  }

  lemma ScoreTwo(x: Task, y: Task, score: Scorer)
    requires score(x).Success? && score(y).Success?
    ensures ScoreEach([x, y], score) == Success([Annotated(x, score), Annotated(y, score)])
  {
    var pending := [x, y];
    assert !SomeTaskFails(pending, score);
    var r := ScoreEach(pending, score).value;
    assert ScoredAs(r[0], x, score) && ScoredAs(r[1], y, score);
    assert r == [Annotated(x, score), Annotated(y, score)];
  }

  /** Two tasks that both score are ranked higher score first, whatever their input order. */
  lemma RankPair(x: Task, y: Task, score: Scorer, xFirst: bool)
    requires score(x).Success? && score(y).Success?
    requires score(x).value.finalScore > score(y).value.finalScore
    ensures var pending := if xFirst then [x, y] else [y, x];
      var r := ScoreEach(pending, score);
      && r.Success?
      && var ranked := SortDescending(PriorityOf, r.value);
      && |ranked| == 2
      && ranked[0].task == x && ranked[1].task == y
      && ranked[0].priorityScore > ranked[1].priorityScore
  {
    var sx := Annotated(x, score);
    var sy := Annotated(y, score);
    ScoreTwo(x, y, score);
    ScoreTwo(y, x, score);
    SortTwo(PriorityOf, sx, sy);
  }

  /**
   * The API test's ranking: under Smart Balance, a task due tomorrow with importance 9
   * ranks above one due in ten days with importance 3, whichever order they arrive in.
   */
  lemma UrgentImportantTaskRanksFirst(a: Task, b: Task, aFirst: bool)
    requires TestTask(a, 1, 9) && TestTask(b, 10, 3)
    ensures var tasks := if aFirst then [a, b] else [b, a];
      var r := GetSortedTasks(tasks, SmartBalance);
      && r.Success?
      && |r.value| == 2
      && r.value[0].task == a && r.value[1].task == b
      && r.value[0].priorityScore > r.value[1].priorityScore
  {
    var tasks := if aFirst then [a, b] else [b, a];
    assert forall k :: 0 <= k < |tasks| ==> tasks[k].dependencies == "";
    TestTaskScore(a, tasks, 1, 9);
    TestTaskScore(b, tasks, 10, 3);
    TestScores();
    var score := ScorerFor(tasks, SmartBalance);
    assert score(a) == PriorityScore(a, tasks, SmartBalance);
    assert score(b) == PriorityScore(b, tasks, SmartBalance);
    RankPair(a, b, score, aFirst);
  }

  lemma ParseOneTwoThree(task: Task)
    requires task.dependencies == "1,2,3"
    ensures ParseIdsGuarded(task.dependencies) == [1, 2, 3]
  {
    ParseThreeDigits('1', '2', '3');
    assert "1,2,3" == ['1', ',', '2', ',', '3'];
    ParsersAgree(task.dependencies);
  }

  lemma ThreeBlockers(tasks: seq<Task>)
    requires Blocks(1, tasks) && Blocks(2, tasks) && Blocks(3, tasks)
    ensures OpenBlockers([1, 2, 3], tasks) == 3
  {
    var ids: seq<nat> := [1, 2, 3];
    var blocks := (id: nat) => Blocks(id, tasks);
    EachOfThree(blocks, ids);
    assert OpenBlockers(ids, tasks) == |ids|;
  }

  /** A property of each of three elements holds at every position. */
  lemma EachOfThree<T>(p: T -> bool, xs: seq<T>)
    requires |xs| == 3 && p(xs[0]) && p(xs[1]) && p(xs[2])
    ensures forall k :: 0 <= k < |xs| ==> p(xs[k])
  {
  }

  /** Dependencies "1,2,3" on three open tasks: the floor multiplier 0.4, citing three blockers. */
  lemma ThreeOpenPrerequisites(task: Task, tasks: seq<Task>)
    requires task.dependencies == "1,2,3"
    requires UniqueIds(tasks)
    requires OpenTaskWithId(tasks, 1) && OpenTaskWithId(tasks, 2) && OpenTaskWithId(tasks, 3)
    ensures Backward(task, tasks) == BackwardFactor(0.4, BlockedBy(3))
  {
    ParseOneTwoThree(task);
    BlocksWithUniqueIds(1, tasks);
    BlocksWithUniqueIds(2, tasks);
    BlocksWithUniqueIds(3, tasks);
    ThreeBlockers(tasks);
  }

  /** With the second task waiting on the first, the first has exactly one dependent. */
  lemma LoneDependent(a: Task, b: Task)
    requires a.id == 1 && a.dependencies == ""
    requires b.id == 2 && b.dependencies == "1"
    ensures DependentPositions(1, [a, b]) == {1}
  {
    ParseExampleEmpty();
    ParseExampleOne();
    SecondOfTwo(a, b, 1);
  }

  lemma ParseExampleOne()
    ensures ParseIds("1") == [1]
  {
    ParseFormatRoundTrip([1]);
    assert FormatIds([1]) == "1";
  }

  lemma OnlySecondPosition<T>(p: T -> bool, a: T, b: T)
    requires p(b) && !p(a)
    ensures PositionsWhere(p, [a, b]) == {1}
  {
    var xs := [a, b];
    assert xs[0] == a && xs[1] == b;
    assert forall i :: i in PositionsWhere(p, xs) ==> i == 1;
  }

  /** Of two tasks, only the second depends on id. */
  lemma SecondOfTwo(a: Task, b: Task, id: int)
    requires DependsOn(b, id) && !DependsOn(a, id)
    ensures DependentPositions(id, [a, b]) == {1}
  {
    var p := (t: Task) => DependsOn(t, id);
    OnlySecondPosition(p, a, b);
    assert PositionsWhere(p, [a, b]) == DependentPositions(id, [a, b]);
  }

  /**
   * One task waiting on another is enough to abort the whole ranking: the awaited task has
   * exactly one dependent, and that failure comes before the strategy is even looked up.
   */
  lemma SingleDependentAbortsRanking(a: Task, b: Task, strategy: string)
    requires a.id == 1 && a.dependencies == ""
    requires b.id == 2 && b.dependencies == "1"
    ensures GetSortedTasks([a, b], strategy) == Failure(UnboundReason)
  {
    var tasks := [a, b];
    LoneDependent(a, b);
    var score := ScorerFor(tasks, strategy);
    assert score(tasks[0]) == Failure(UnboundReason);
    ScoreEachReportsFirstFailure(tasks, score, 0, UnboundReason);
  }
}
