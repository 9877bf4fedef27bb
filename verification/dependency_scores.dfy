/**
 * The two dependency-based factors. The forward score rewards a task that other tasks
 * wait on; the backward multiplier discounts a task whose own prerequisites are open.
 */
module DependencyScores {
  import opened Wrappers
  import opened Tasks
  import opened DependencyList
  import opened SubScores

  datatype ForwardReason =
    | NoTasksBlocked      // "No tasks are blocked by this task"
    | Blocking(count: nat) // "This task is blocking <count> tasks"

  datatype BackwardReason =
    | NoDependencies             // "No dependencies - ready to start"
    | AllDependenciesCompleted   // "All dependencies completed - ready to start"
    | BlockedBy(count: nat)      // "Blocked by <count> incomplete task(s)"

  /** The backward multiplier and its reason. */
  datatype BackwardFactor = BackwardFactor(multiplier: real, reason: BackwardReason)

  /** Whether task t lists id among its parsed dependencies. */
  predicate DependsOn(t: Task, id: int) {
    id in ParseIds(t.dependencies)
  }

  /** The number of elements satisfying p. */
  function CountWhere<T>(p: T -> bool, xs: seq<T>): nat {
    if |xs| == 0 then 0
    else CountWhere(p, xs[..|xs| - 1]) + (if p(xs[|xs| - 1]) then 1 else 0)
  }

  /** The positions of the elements satisfying p. */
  ghost function PositionsWhere<T>(p: T -> bool, xs: seq<T>): set<int> {
    set i | 0 <= i < |xs| && p(xs[i])
  }

  lemma {:induction false} CountWhereCountsPositions<T>(p: T -> bool, xs: seq<T>)
    ensures CountWhere(p, xs) == |PositionsWhere(p, xs)|
  {
    if |xs| > 0 {
      var n := |xs| - 1;
      var prefix := xs[..n];
      CountWhereCountsPositions(p, prefix);
      var before := PositionsWhere(p, prefix);
      var last: set<int> := if p(xs[n]) then {n} else {};
      forall i
        ensures i in PositionsWhere(p, xs) <==> i in before + last
      {
        if 0 <= i < n {
          assert prefix[i] == xs[i];
        }
      }
      assert PositionsWhere(p, xs) == before + last;
      assert before !! last;
    }
  }

  /** No element satisfies p exactly when the count is zero; all do exactly when it is the length. */
  lemma {:induction false} CountWhereNoneOrAll<T>(p: T -> bool, xs: seq<T>)
    ensures CountWhere(p, xs) <= |xs|
    ensures CountWhere(p, xs) == 0 <==> forall k :: 0 <= k < |xs| ==> !p(xs[k])
    ensures CountWhere(p, xs) == |xs| <==> forall k :: 0 <= k < |xs| ==> p(xs[k])
  {
    if |xs| > 0 {
      var n := |xs| - 1;
      CountWhereNoneOrAll(p, xs[..n]);
      assert forall k :: 0 <= k < n ==> xs[..n][k] == xs[k];
    }
  }

  /** The number of tasks in the collection, the task itself included, whose dependencies list id. */
  function Dependents(id: int, tasks: seq<Task>): nat {
    CountWhere((t: Task) => DependsOn(t, id), tasks)
  }

  /** The positions of the tasks that depend on id. */
  ghost function DependentPositions(id: int, tasks: seq<Task>): set<int> {
    set i | 0 <= i < |tasks| && DependsOn(tasks[i], id)
  }

  /** The count is the number of distinct dependent tasks: each task counts once, however often it lists id. */
  lemma DependentsCountsTasks(id: int, tasks: seq<Task>)
    ensures Dependents(id, tasks) == |DependentPositions(id, tasks)|
  {
    var p := (t: Task) => DependsOn(t, id);
    CountWhereCountsPositions(p, tasks);
    assert PositionsWhere(p, tasks) == DependentPositions(id, tasks);
  }

  /** A collection in which nobody lists id gives a count of zero, and conversely. */
  lemma NoDependentsIffNobodyLists(id: int, tasks: seq<Task>)
    ensures Dependents(id, tasks) == 0 <==> forall i :: 0 <= i < |tasks| ==> !DependsOn(tasks[i], id)
  {
    DependentsCountsTasks(id, tasks);
    if Dependents(id, tasks) == 0 {
      forall i | 0 <= i < |tasks|
        ensures !DependsOn(tasks[i], id)
      {
        assert i !in DependentPositions(id, tasks);
      }
    } else {
      var i :| i in DependentPositions(id, tasks);
    }
  }

  /**
   * The forward tier for a dependent count: 0 -> 0, 2 -> 60, 3 or more -> 100.
   * A count of exactly one reaches a branch that never assigns its reason and raises.
   */
  function ForwardTier(count: nat): (r: Result<SubScore<ForwardReason>, ScoreError>)
    ensures r.Failure? <==> count == 1
    ensures r.Failure? ==> r.error == UnboundReason
    ensures r.Success? ==> r.value.score in {0, 60, 100}
    ensures r.Success? ==> (r.value.score == 0 <==> count == 0)
    ensures count == 2 ==> r == Success(SubScore(60, Blocking(2)))
    ensures count >= 3 ==> r == Success(SubScore(100, Blocking(count)))
    ensures count == 0 ==> r == Success(SubScore(0, NoTasksBlocked))
  {
    if count <= 0 then Success(SubScore(0, NoTasksBlocked))
    else if count <= 1 then Failure(UnboundReason)
    else if count <= 2 then Success(SubScore(60, Blocking(count)))
    else Success(SubScore(100, Blocking(count)))
  }

  /** More dependents never lower the forward score. */
  lemma ForwardTierMonotone(a: nat, b: nat)
    requires a <= b
    requires ForwardTier(a).Success? && ForwardTier(b).Success?
    ensures ForwardTier(a).value.score <= ForwardTier(b).value.score
  {
  }

  /** The forward-dependency sub-score of task id within the whole collection. */
  function ForwardDependency(id: int, tasks: seq<Task>): (r: Result<SubScore<ForwardReason>, ScoreError>)
    ensures r.Failure? <==> |DependentPositions(id, tasks)| == 1
    ensures r.Success? ==> r.value.score in {0, 60, 100}
    ensures r.Success? && r.value.score == 0 ==> forall i :: 0 <= i < |tasks| ==> !DependsOn(tasks[i], id)
    ensures |DependentPositions(id, tasks)| == 0 ==> r == Success(SubScore(0, NoTasksBlocked))
    ensures |DependentPositions(id, tasks)| == 2 ==> r == Success(SubScore(60, Blocking(2)))
    ensures |DependentPositions(id, tasks)| >= 3 ==>
      r == Success(SubScore(100, Blocking(|DependentPositions(id, tasks)|)))
  {
    DependentsCountsTasks(id, tasks);
    NoDependentsIffNobodyLists(id, tasks);
    ForwardTier(Dependents(id, tasks))
  }

  /** The position of the first task carrying the id, as a linear search finds it. */
  function FirstIndexWithId(id: int, tasks: seq<Task>): (r: Option<nat>)
    ensures r.None? <==> forall i :: 0 <= i < |tasks| ==> tasks[i].id != id
    ensures r.Some? ==> r.value < |tasks| && tasks[r.value].id == id
    ensures r.Some? ==> forall j :: 0 <= j < r.value ==> tasks[j].id != id
  {
    if |tasks| == 0 then None
    else if tasks[0].id == id then Some(0)
    else
      match FirstIndexWithId(id, tasks[1..])
      case None => None
      case Some(k) => Some(k + 1)
  }

  /** The first task carrying the id, or None when no task has it. */
  function FirstWithId(id: int, tasks: seq<Task>): (r: Option<Task>)
    ensures r.None? <==> forall i :: 0 <= i < |tasks| ==> tasks[i].id != id
    ensures r.Some? ==> r.value in tasks && r.value.id == id
    ensures r.Some? ==> exists k :: FirstIndexWithId(id, tasks) == Some(k) && r.value == tasks[k]
  {
    match FirstIndexWithId(id, tasks)
    case None => None
    case Some(k) => Some(tasks[k])
  }

  /** A dependency entry blocks when its first matching task exists and is not completed. */
  predicate Blocks(id: int, tasks: seq<Task>) {
    var t := FirstWithId(id, tasks);
    t.Some? && !t.value.completed
  }

  /** The number of blocking entries; an id listed twice counts twice. */
  function OpenBlockers(ids: seq<nat>, tasks: seq<Task>): (n: nat)
    ensures n <= |ids|
    ensures n == 0 <==> forall k :: 0 <= k < |ids| ==> !Blocks(ids[k], tasks)
    ensures n == |ids| <==> forall k :: 0 <= k < |ids| ==> Blocks(ids[k], tasks)
    ensures n == |BlockingPositions(ids, tasks)|
  {
    var blocks := (id: nat) => Blocks(id, tasks);
    CountWhereNoneOrAll(blocks, ids);
    CountWhereCountsPositions(blocks, ids);
    assert PositionsWhere(blocks, ids) == BlockingPositions(ids, tasks);
    CountWhere(blocks, ids)
  }

  /** The positions of the dependency entries that block. */
  ghost function BlockingPositions(ids: seq<nat>, tasks: seq<Task>): set<int> {
    set k | 0 <= k < |ids| && Blocks(ids[k], tasks)
  }

  /** Some task with this id is still open. */
  predicate OpenTaskWithId(tasks: seq<Task>, id: int) {
    exists i :: 0 <= i < |tasks| && tasks[i].id == id && !tasks[i].completed
  }

  /** With distinct ids, an entry blocks exactly when some task with that id is still open. */
  lemma BlocksWithUniqueIds(id: int, tasks: seq<Task>)
    requires UniqueIds(tasks)
    ensures Blocks(id, tasks) <==> OpenTaskWithId(tasks, id)
  {
    var first := FirstIndexWithId(id, tasks);
    if first.Some? {
      var i := first.value;
      forall k | 0 <= k < |tasks| && tasks[k].id == id
        ensures tasks[k] == tasks[i]
      {
        if k < i {
          assert false;
        } else if k > i {
          assert false;
        }
      }
    }
  }

  /** The multiplier for a blocker count: 1.0, 0.8, 0.6, then 0.4 from three blockers on. */
  function MultiplierTier(count: nat): (r: BackwardFactor)
    ensures r.multiplier in {1.0, 0.8, 0.6, 0.4}
    ensures r.multiplier == 1.0 - 0.2 * (Min(count, 3) as real)
    ensures r.reason == if count == 0 then AllDependenciesCompleted else BlockedBy(count)
  {
    if count == 0 then BackwardFactor(1.0, AllDependenciesCompleted)
    else if count == 1 then BackwardFactor(0.8, BlockedBy(count))
    else if count == 2 then BackwardFactor(0.6, BlockedBy(count))
    else BackwardFactor(0.4, BlockedBy(count))
  }

  /** More blockers never raise the multiplier. */
  lemma MultiplierNonIncreasing(a: nat, b: nat)
    requires a <= b
    ensures MultiplierTier(b).multiplier <= MultiplierTier(a).multiplier
  {
  }

  /** The backward factor of a task: its parsed dependencies resolved against the whole collection. */
  function Backward(task: Task, tasks: seq<Task>): (r: BackwardFactor)
    ensures r.multiplier in {1.0, 0.8, 0.6, 0.4}
    ensures 0.0 < r.multiplier <= 1.0
    ensures ParseIds(task.dependencies) == [] ==> r == BackwardFactor(1.0, NoDependencies)
    ensures ParseIds(task.dependencies) != [] ==>
      r == MultiplierTier(OpenBlockers(ParseIds(task.dependencies), tasks))
    ensures r.multiplier == 1.0 - 0.2 * (Min(OpenBlockers(ParseIds(task.dependencies), tasks), 3) as real)
  {
    ParsersAgree(task.dependencies);
    var ids := ParseIdsGuarded(task.dependencies);
    if ids == [] then BackwardFactor(1.0, NoDependencies)
    else MultiplierTier(OpenBlockers(ids, tasks))
  }

  /** When every listed id is missing or completed, the multiplier is 1.0. */
  lemma CompletedDependenciesDoNotDiscount(task: Task, tasks: seq<Task>)
    requires forall t :: t in tasks && t.id in ParseIds(task.dependencies) ==> t.completed
    ensures Backward(task, tasks).multiplier == 1.0
  {
    var ids := ParseIds(task.dependencies);
    forall k | 0 <= k < |ids|
      ensures !Blocks(ids[k], tasks)
    {
      assert ids[k] in ids;
    }
  }

  /** Three or more open prerequisites give the floor multiplier 0.4. */
  lemma ThreeOpenDependenciesFloor(task: Task, tasks: seq<Task>)
    requires OpenBlockers(ParseIds(task.dependencies), tasks) >= 3
    ensures Backward(task, tasks).multiplier == 0.4
  {
  }
}
