/** The task record the scoring engine reads, as the storage layer supplies it. */
module Tasks {
  import opened Wrappers

  /**
   * One task.
   * - daysUntilDue: the due date minus today, in calendar days; None when no due date is set.
   * - hours: the estimated effort in hundredths of an hour (a two-decimal field); None when blank.
   * - importance: the user's rating, nominally 1..10; None when absent.
   * - dependencies: the comma-separated ids this task depends on, e.g. "1,3,5".
   */
  datatype Task = Task(
    id: int,
    title: string,
    daysUntilDue: Option<int>,
    hours: Option<int>,
    importance: Option<int>,
    dependencies: string,
    completed: bool
  )

  /** The two ways scoring raises instead of returning. */
  datatype ScoreError =
    | UnboundReason    // a task with exactly one dependent reads an unassigned reason
    | UnknownStrategy  // the strategy name is not in the weight table

  /** Every id in the collection is distinct (what the database guarantees). */
  predicate UniqueIds(tasks: seq<Task>) {
    forall i, j :: 0 <= i < j < |tasks| ==> tasks[i].id != tasks[j].id
  }
}
