# Task priority scoring, modelled in Dafny

This project models the priority scoring engine of the task-analyzer backend. The engine ranks a collection of tasks. For each task it computes four sub-scores:

- urgency, from the days left until the due date;
- importance, from the user's 1..10 rating;
- effort, from the estimated hours;
- forward dependency, from how many tasks in the collection list this task as a dependency.

A strategy weight table combines the four sub-scores into a base score. A backward-dependency multiplier then discounts the base score by how many of the task's own prerequisites are still open. The ranker attaches the score and an explanation to every task and sorts the tasks by score, highest first.

Every function of the engine is modelled as a pure Dafny function. The modules follow the pipeline:

- `Wrappers` (wrappers.dfy) defines `Option` and `Result`.
- `Tasks` (tasks.dfy) holds the task record and the two errors scoring can raise.
- `DependencyList` (dependency_list.dfy) models the comma-separated dependency field. This covers `split(",")`, `strip()`, `isdigit()`, `int()` and the two copies of the parser.
- `SubScores` (sub_scores.dfy) holds the urgency, importance and effort step functions.
- `DependencyScores` (dependency_scores.dfy) holds the forward-dependency count and score, and the backward multiplier.
- `Strategy` (strategy.dfy) holds the weight table, the weighted aggregation and the explanation record.
- `StableSort` (stable_sort.dfy) is a generic insertion sort on a real key, highest key first, that keeps equal keys in input order. This is Python's `sorted(..., reverse=True)`.
- `Ranking` (ranking.dfy) models `prioritized_tasks` and `get_sorted_tasks`. The latter sorts with `StableSort` on the priority score.
- `Scenarios` (scenarios.dfy) holds concrete rankings: the API test's two-task ranking and a few worked examples.

Representation choices:

- The clock is a parameter. A task carries `daysUntilDue`, the due date minus today, as an `Option<int>`.
- Hours are an `Option<int>` in hundredths of an hour, matching the two-decimal database field.
- Weights are whole percentages, and scores are exact reals.
- Reasons are tags, one datatype per sub-score, carrying the values the source would print.

On the inputs modelled here, the source raises in two places, and each becomes a `Failure`:

- `UnboundReason`: a task with exactly one dependent reaches a branch that reads the unassigned local `reason`.
- `UnknownStrategy`: the strategy name is missing from the weight table, so the lookup yields `None` and is then indexed.

The forward-dependency lookup runs before the weights are read. So `UnboundReason` takes precedence over `UnknownStrategy`, and the first failing task aborts the whole ranking.

Behaviours of the code that the model keeps, and that a reader might not expect:

- The forward count includes the task itself when it lists its own id.
- A task with exactly one dependent makes scoring fail.
- The backward resolver counts a duplicated dependency entry once per entry.
- An unknown strategy fails deep in the aggregator, at the weight lookup. It is not rejected up front.

## Model

| member | source | states |
|---|---|---|
| SubScores.Urgency | backend/task_analyzer/tasks/scoring.py:4-37 | No due date scores 10. Every overdue day count scores exactly 100, because min(100, 5·d+100) saturates at one day late. Any due date scores between 20 and 100. The reason is "no due date" exactly without a date, "overdue" exactly for a past date, "today" and "tomorrow" exactly for 0 and 1 days, and "due in d days", carrying d, exactly for d ≥ 2. |
| SubScores.UrgencyNonIncreasing | backend/task_analyzer/tasks/scoring.py:16-36 | For days ≥ 0, a later due date never scores higher. |
| SubScores.OverdueOutranksAll | backend/task_analyzer/tasks/scoring.py:5-15 | An overdue task is at least as urgent as any other input, and strictly more urgent than a task with no due date. |
| SubScores.UrgencyTiers | backend/task_analyzer/tasks/scoring.py:16-36 | Days 0/1/2/3 score 95/90/80/70. The scores 50, 30 and 20 occur exactly for days 4–7, 8–14 and beyond 14. |
| SubScores.EffectiveImportance | backend/task_analyzer/tasks/scoring.py:41-42 | The scored rating always lies in 1..10. It equals the given rating whenever that rating is valid, and is the default 5 otherwise. |
| SubScores.Importance | backend/task_analyzer/tasks/scoring.py:40-55 | A valid rating v scores exactly 10·v. A missing or out-of-range rating scores 50. The score is a multiple of 10 in [10,100]. The reason carries the rating actually scored. |
| SubScores.ImportanceLevels | backend/task_analyzer/tasks/scoring.py:44-54 | Stated in terms of the scored rating: 8–10 is CRITICAL, 6–7 HIGH, 4–5 MEDIUM and 1–3 LOW. |
| SubScores.ImportanceMonotone | backend/task_analyzer/tasks/scoring.py:43 | A higher valid rating never scores lower. |
| SubScores.EffectiveHours | backend/task_analyzer/tasks/scoring.py:59-61 | The scored hours are always positive. They equal the given hours whenever those are positive, and are the 4-hour default (400 hundredths) when blank, zero or negative. |
| SubScores.Effort | backend/task_analyzer/tasks/scoring.py:58-78 | The score is one of 20/40/60/80/100. Missing, zero or negative hours score 60, the 4-hour default. The reason carries the hours actually scored. Its template is the quick-win one exactly at score 100, the moderate one exactly at 80, and the plain "this takes" one exactly at 60 or below. |
| SubScores.EffortNonIncreasing | backend/task_analyzer/tasks/scoring.py:63-77 | Among positive hours, more hours never score higher. |
| SubScores.EffortStrictAcrossBoundary | backend/task_analyzer/tasks/scoring.py:63-77 | Crossing the 1, 2, 4 or 8 hour boundary strictly lowers the score. |
| DependencyList.StripLeft | backend/task_analyzer/tasks/scoring.py:113 | The result is a suffix of the input. Everything removed is whitespace, and the result does not start with whitespace. |
| DependencyList.StripRight | backend/task_analyzer/tasks/scoring.py:113 | The result is a prefix of the input. Everything removed is whitespace, and the result does not end with whitespace. |
| DependencyList.Strip | backend/task_analyzer/tasks/scoring.py:110 | The result is a contiguous slice of the input, and everything outside that slice is whitespace. A non-empty result has non-whitespace at both ends. The result is empty exactly when the input is all whitespace. |
| DependencyList.ShowNatRoundTrip | backend/task_analyzer/tasks/scoring.py:113 | `int()` of the decimal text of n gives back n. |
| DependencyList.Split | backend/task_analyzer/tasks/scoring.py:84 | Splitting on "," yields at least one token, and no token contains a comma. |
| DependencyList.JoinSplit | backend/task_analyzer/tasks/scoring.py:84 | Joining the tokens of a split with "," gives back the original text. |
| DependencyList.SplitJoin | backend/task_analyzer/tasks/scoring.py:84 | Splitting the join of a non-empty list of comma-free tokens gives back the tokens. |
| DependencyList.ParsersAgree | backend/task_analyzer/tasks/scoring.py:106-113 | The resolver's guarded parser, which maps empty or blank text to [], agrees on every string with the inline parser of the forward count. |
| DependencyList.ParseFormatRoundTrip | backend/task_analyzer/tasks/scoring.py:84 | Parsing the comma-separated decimal text of any id list gives back that list, in order and with duplicates. The empty list is stored as "". |
| DependencyList.ParseExampleList | backend/task_analyzer/tasks/scoring.py:108-113 | "1,3,5" parses to [1, 3, 5]. |
| DependencyList.ParseExampleEmpty | backend/task_analyzer/tasks/scoring.py:110-111 | An empty field parses to []. |
| DependencyList.MalformedEntriesDropped | backend/task_analyzer/tasks/scoring.py:84 | For any whitespace w, digits d, e, f and non-digit, non-whitespace, non-comma characters s and l, the list "w d w , w s e , l , , f" keeps only the padded d and the final f. A signed entry, a letter entry and an empty entry are all dropped. |
| DependencyList.ParseExampleMalformed | backend/task_analyzer/tasks/scoring.py:113 | In " 2 , -1,a,,7", the tokens "-1", "a" and "" are dropped and the padded " 2 " is kept, giving [2, 7]. |
| DependencyScores.DependentsCountsTasks | backend/task_analyzer/tasks/scoring.py:82-86 | The forward count is the number of distinct positions in the collection whose task lists the id. Each task counts once, however often it lists the id, and the task itself is included. |
| DependencyScores.NoDependentsIffNobodyLists | backend/task_analyzer/tasks/scoring.py:82-89 | The count is zero exactly when no task in the collection lists the id. |
| DependencyScores.ForwardTier | backend/task_analyzer/tasks/scoring.py:87-100 | The tier fails, with the unbound reason, exactly for a count of 1. Otherwise the score is 0 exactly for a count of 0, where the reason is that no tasks are blocked, 60 with reason Blocking(2) for a count of 2, and 100 with reason Blocking(count) for a count of 3 or more. |
| DependencyScores.ForwardTierMonotone | backend/task_analyzer/tasks/scoring.py:87-98 | Where the tier is defined, more dependents never lower the score. |
| DependencyScores.ForwardDependency | backend/task_analyzer/tasks/scoring.py:81-100 | Scoring fails exactly when one task in the collection lists the id. When no task lists the id, the score is 0 with the no-tasks-blocked reason, and a score of 0 means no task lists the id. Two listing tasks score 60, and three or more score 100, with the count as the reason. |
| DependencyScores.FirstIndexWithId | backend/task_analyzer/tasks/scoring.py:123 | The search finds no position exactly when no task carries the id. Otherwise it finds a position carrying the id with no earlier such position, which is the generator's first match. |
| DependencyScores.FirstWithId | backend/task_analyzer/tasks/scoring.py:123 | The result is None exactly when no task carries the id. Otherwise it is the task at the first position carrying the id, which is what `next(...)` returns. |
| DependencyScores.OpenBlockers | backend/task_analyzer/tasks/scoring.py:121-125 | The blocker count is the number of positions in the entry list whose entry blocks, so a repeated entry counts once per occurrence. In particular it is 0 exactly when no entry blocks, and equals the number of entries exactly when every entry blocks. |
| DependencyScores.BlocksWithUniqueIds | backend/task_analyzer/tasks/scoring.py:123-124 | When ids are distinct, an entry blocks exactly when some task with that id is not completed. |
| DependencyScores.MultiplierTier | backend/task_analyzer/tasks/scoring.py:127-140 | The multiplier is one of 1.0/0.8/0.6/0.4. It equals 1 − 0.2·min(count, 3). The reason is "all dependencies completed" for a count of 0, and otherwise cites the blocker count. |
| DependencyScores.MultiplierNonIncreasing | backend/task_analyzer/tasks/scoring.py:127-138 | More blockers never raise the multiplier. |
| DependencyScores.Backward | backend/task_analyzer/tasks/scoring.py:102-140 | The multiplier lies in (0, 1]. A task with no parsed dependencies gets 1.0 with the no-dependencies reason. Otherwise the factor, reason included, is the tier of the open-blocker count, so the multiplier is 1 − 0.2·min(open blockers, 3). |
| DependencyScores.CompletedDependenciesDoNotDiscount | backend/task_analyzer/tasks/scoring.py:117-129 | If every listed task that exists is completed, the multiplier is 1.0. |
| DependencyScores.ThreeOpenDependenciesFloor | backend/task_analyzer/tasks/scoring.py:136-138 | Three or more open blocking entries give the floor multiplier 0.4. |
| Strategy.StrategyWeights | backend/task_analyzer/tasks/scoring.py:144-171 | Exactly the four strategy names have weights. Every row sums to 100% in steps of 5%, and every weight is positive. |
| Strategy.StrategyEmphasis | backend/task_analyzer/tasks/scoring.py:151-168 | Deadline Driven weighs urgency most, High Impact weighs importance most, and Fastest Wins weighs effort most. |
| Strategy.WeightedBaseBounds | backend/task_analyzer/tasks/scoring.py:179-184 | With weights summing to 1 and sub-scores in [0,100], the base score lies in [0,100]. |
| Strategy.WeightedBaseMonotone | backend/task_analyzer/tasks/scoring.py:179-184 | Raising any sub-score never lowers the base score. |
| Strategy.Aggregate | backend/task_analyzer/tasks/scoring.py:179-197 | The base score is the weighted sum Σ sub-score × weight of the four sub-scores. The explanation keeps the four sub-scores and the backward factor it was given. It satisfies 0 ≤ final ≤ base ≤ 100 and final = base × multiplier. Both scores are exact multiples of 0.01. |
| Strategy.PriorityScore | backend/task_analyzer/tasks/scoring.py:142-198 | Scoring fails exactly when the task has one dependent or the strategy is unknown. The one-dependent failure takes precedence. On success, 0 ≤ final ≤ base ≤ 100 and final = base × multiplier. Both scores lie on the 0.01 grid, so rounding them to two places is the identity. The explanation holds the task's own urgency, importance, effort, forward-dependency and backward factors. The base score is the weighted sum of those sub-scores under the named strategy's own row of the weight table. |
| Ranking.ScoreEach | backend/task_analyzer/tasks/scoring.py:200-212 | Annotating fails exactly when some task fails, and it fails with the first failing task's error. On success it keeps length and order. Element i is input task i, unchanged, with its own explanation attached and a score equal to that explanation's final score. |
| Ranking.PrioritizeFailsIff | backend/task_analyzer/tasks/scoring.py:200-204 | Annotating a collection fails exactly when it is non-empty and the strategy is unknown, or when some task in it has exactly one dependent. |
| Ranking.ScoreEachReportsFirstFailure | backend/task_analyzer/tasks/scoring.py:202-204 | If task i is the first whose scoring raises, annotating the collection fails with task i's error. |
| StableSort.InsertDescendingSorted | backend/task_analyzer/tasks/scoring.py:217 | Inserting into a list that is non-increasing by key keeps it non-increasing. |
| StableSort.InsertDescendingPermutes | backend/task_analyzer/tasks/scoring.py:217 | Inserting adds exactly the one element: the result's multiset is the list's plus x. |
| StableSort.WithKeyInsert | backend/task_analyzer/tasks/scoring.py:217 | Inserting x puts it at the front of the elements sharing its key and leaves the order of every key class unchanged otherwise. |
| StableSort.SortDescending | backend/task_analyzer/tasks/scoring.py:217 | The result is non-increasing by key and is a permutation of the input. |
| StableSort.SortDescendingStable | backend/task_analyzer/tasks/scoring.py:217 | For every key value, the elements with that key appear in the same order as in the input. This is the stability of sorting with reverse=True. |
| Ranking.GetSortedTasks | backend/task_analyzer/tasks/scoring.py:214-218 | The ranking succeeds exactly when annotating does, and fails with the same error. On success it is non-increasing by score, a permutation of the annotated list, and keeps input order among equal scores. |
| Ranking.RankingCoversEveryTask | backend/task_analyzer/tasks/scoring.py:214-218 | Every input task appears in the ranking, unchanged and carrying its own score. |
| Scenarios.UnblockedScore | backend/task_analyzer/tasks/scoring.py:179-186 | A task that nothing depends on and that has no prerequisites scores exactly its weighted base. |
| Scenarios.RankPair | backend/task_analyzer/tasks/scoring.py:214-218 | Two tasks that both score are ranked higher score first, in either input order. |
| Scenarios.UrgentImportantTaskRanksFirst | backend/task_analyzer/tasks/test_task_api.py:66-92 | Under Smart Balance, take a task due tomorrow with importance 9 (70.5) and one due in 10 days with importance 3 (31.5), both 3.5 hours. The first ranks first with the strictly higher score, in either input order. |
| Scenarios.ThreeOpenPrerequisites | backend/task_analyzer/tasks/scoring.py:106-138 | Dependencies "1,2,3" on three open tasks with distinct ids give multiplier 0.4, with a reason citing 3 blockers. |
| Scenarios.SingleDependentAbortsRanking | backend/task_analyzer/tasks/scoring.py:90-92 | If task 2 depends on task 1, the whole ranking fails with the unbound-reason error, under any strategy name, even an unknown one. |

## Left out

- Date handling. Parsing `due_date` with `strptime` and reading today's date from the clock are environmental. The model takes the day difference as an input, so a malformed date string, which raises in the source, is not modelled.
- Floating point. The source's weights and multipliers are binary floats, and it applies `round(x, 2)` to the base, final and priority scores. The model computes exactly, with whole-percent weights and real multipliers. It proves every base and final score is a multiple of 0.01, so the rounding is the identity on the exact values. Float representation error is not modelled.
- Reason text. The f-string formatting of day counts, hours and blocker counts is not modelled. Reasons are tags carrying the printed values.
- The list branch of the backward resolver (scoring.py:114-115). It applies only when the dependency field is already a list, and the storage layer always supplies a string.
- A dependency field that is missing or null. The source would then call `.split` on a default or on `None`. The field is always a string here.
- Non-ASCII digits. `isdigit()` and `int()` also accept digits from other scripts, and `isdigit()` accepts superscripts, on which `int()` then raises. The model recognises only the ASCII digits 0–9.
- Request handling, persistence and serialization (views.py, urls.py, models.py). This includes the analyze view, which never forwards the strategy query parameter, so the default strategy is always used. The serializer is not part of this model.
- frontend/script.js: page rendering and HTTP calls. Its score-to-colour mapping is presentation only.
- The HTTP and database tests. Only the ranking scenario of test_task_api.py is modelled.
