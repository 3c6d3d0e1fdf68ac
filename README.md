# Task priority scoring, modelled in Dafny

This project models the scoring engine of a task-priority analyzer
(`tasks/scoring.py`). Given a list of tasks, the engine rates each one on four
components:

- urgency, from the days left until the due date;
- importance, from a 1–10 rating;
- effort, from the estimated hours;
- dependencies, from how many other tasks wait on this one.

It blends the four ratings with the weights of one of four strategies into a
priority score, explains the score factor by factor, detects circular
dependencies by depth-first search, sorts the tasks by score and suggests the
top few with a reason for each.

Modules, one per concern of the source file:

| file | module | what it holds |
|---|---|---|
| `wrappers.dfy` | `Wrappers` | `Option` and `Result` |
| `tasks.dfy` | `Tasks` | the task record and the dictionary-lookup conventions |
| `components.dfy` | `Components` | the four component scorers, each returning a score and a structured note |
| `stable_sort.dfy` | `StableSort` | `list.sort(key=..., reverse=True)` as a stable insertion sort, with its permutation, order and stability lemmas |
| `priority.dfy` | `Priority` | the strategy table, the blend, `round(x, 2)`, and the score explanation |
| `cycles.dfy` | `Cycles` | the dependency graph and the cycle-detecting search |
| `analysis.dfy` | `Analysis` | `analyze_tasks`, `get_suggestions` and the reason clauses |

How the model represents the source:

- **Task fields.** A task is a record whose numeric fields are `Attr` values:
  absent, `None`, a number, or some other value. This records what Python's
  `float(...)` and comparisons would make of each.
- **Dates.** A due date is a day number that has already been parsed.
- **Dependencies.** A dependency list is `None` when the key is absent, `None`,
  empty or not a list.
- **Today's date** is a parameter.
- **Numbers.** Scores and weights are exact reals.
- **Notes and reasons.** The text the source formats is modelled as structured
  notes and reason clauses: the model records which label or clause is
  chosen, not the string.
- **Imperative parts stay imperative.** These are methods with loops, each
  proved equal to a specification function:
  - the blocking count in the dependency scorer;
  - building the graph;
  - the scoring loop of `analyze_tasks`;
  - the suggestion loop.
- **The search is specified by properties.** The recursive search and the
  detection method that drives it are not equal to any function. Their
  contracts state what the reported cycles are:
  - each is a simple cycle of declared edges;
  - every self-dependency is reported;
  - nothing is reported exactly when the graph is acyclic.
- **Cycle search completeness.** The search carries a proof-only record of
  the order in which nodes leave the recursion stack. This is how the model
  proves that nothing is reported exactly when the dependency graph has no
  cycle.

Where the source's docstrings and its code disagree, the model follows the code:

- The effort docstring gives 70–89 for 3–4 hours, but the code's formula
  `80 - (hours - 2) * 5` gives at most 75 at 3 hours and 70 at 4 hours.
- The importance docstring speaks of a 0–100 score, but the clamp to [1, 10]
  makes the range 10–100.

## Model

| member | source | states |
|---|---|---|
| Tasks.Coerce | tasks/scoring.py:145-149 | a number, or a value `float` accepts, gives its value; absent, `None` or unconvertible gives the default |
| Tasks.DepList | tasks/scoring.py:228-231 | the dependency list is empty exactly when the key is absent, `None`, empty or not a list, and is the stored list otherwise |
| Components.UrgencyScore | tasks/scoring.py:85-127 | score in [10,100]; no due date gives 50, overdue gives 100 with the overdue days, due today gives 95; days 1–3 give [80,94], 4–7 [50,79], 8–14 [30,49], later [10,29], each with its band |
| Components.UrgencyMonotone | tasks/scoring.py:108-127 | a later due date never raises urgency; it strictly falls from today to 34 days out and is 10 from then on |
| Components.ImportanceRating | tasks/scoring.py:139-149 | the rating used is always within [1,10] |
| Components.ImportanceScore | tasks/scoring.py:130-162 | score is 10 × the clamped rating, in [10,100]; missing, `None` or non-numeric gives 50 rated Medium 5; the level is Critical/High/Medium/Low exactly on the score bands ≥80, [60,80), [40,60), <40; the shown rating is the integer part |
| Components.ImportanceMonotone | tasks/scoring.py:146-151 | a higher rating never lowers the importance score |
| Components.EffectiveHours | tasks/scoring.py:179-189 | hours are at least 0.5; missing or unusable hours count as 4; a number, or a value `float` accepts, x gives max(0.5, x) |
| Components.EffortForHours | tasks/scoring.py:165-210 | score in [10,100]; 100 exactly when hours ≤ 1; each category holds exactly on its hour range; quick win scores 90, half-day [70,80), full-day [40,70), multi-day [20,40), major effort [10,20) |
| Components.EffortScore | tasks/scoring.py:165-210 | score in [10,100] for hours of at least 0.5; missing or unusable hours give 70 as a half-day task of 4h; a numeric estimate scores 100 exactly when at most 1h; the score is at least 90 exactly when the hours used are at most 2 |
| Components.EffortMonotone | tasks/scoring.py:191-208 | more hours never give a higher effort score |
| Components.EffortExamples | tasks/scoring.py:179-210 | missing hours give 70 as a half-day task of 4h; 1h gives 100; 0.1h is raised to 0.5h; 20h gives below 20, a major effort |
| Components.BlockingCount | tasks/scoring.py:233-238 | the count never exceeds the number of tasks, and is 0 exactly when no task lists the id |
| Components.DependencyScore | tasks/scoring.py:213-260 | score in [20,100]; 20 exactly when the task has dependencies, noting how many; otherwise 40/60/80/100 for 0/1/2/≥3 dependents, with the matching note |
| Components.CalculateDependencyScore | tasks/scoring.py:227-260 | the counting loop computes exactly the specified score and note |
| Components.NewDependentNeverLowers | tasks/scoring.py:233-258 | adding a task that lists this one raises the count by one, never lowers the score, and raises it while the task is unblocked with fewer than 3 dependents |
| StableSort.SortDesc | tasks/scoring.py:338 | `list.sort(key=..., reverse=True)`: the result has the input's length; that it is a permutation, in descending key order and stable is proved by the four lemmas below |
| StableSort.SortDescPermutes | tasks/scoring.py:338 | sorting keeps exactly the input's elements, each as often |
| StableSort.SortDescNonIncreasing | tasks/scoring.py:443 | the sorted list is in non-increasing key order |
| StableSort.SortDescStable | tasks/scoring.py:443 | for every key value, the elements carrying it keep their input order |
| StableSort.SortDescKeyThenRank | tasks/scoring.py:338 | items listed in increasing rank come out by key descending, equal keys by rank |
| Priority.WeightsFor | tasks/scoring.py:19-44 | every preset's weights are non-negative and sum to 1; an unknown name gets the smart_balance weights |
| Priority.EffectiveStrategy | tasks/scoring.py:418-419 | the validated name is a preset, has the same weights as the requested name, and is the requested name when that is a preset |
| Priority.Round2 | tasks/scoring.py:299 | the rounded value is within 0.005 of the input and is a whole number of hundredths |
| Priority.Round2Monotone | tasks/scoring.py:299 | rounding to two decimals preserves ≤ |
| Priority.Round2Exact | tasks/scoring.py:299 | a whole number of hundredths rounds to itself |
| Priority.Round2HalfEven | tasks/scoring.py:299 | for every k, the tie (2k+1)/200 rounds to whichever of k/100 and (k+1)/100 has an even numerator, as Python's `round` does |
| Priority.Round2HalfEvenExamples | tasks/scoring.py:299 | 0.125 rounds to 0.12, 0.135 to 0.14, -0.125 to -0.12 |
| Priority.Round2Gap | tasks/scoring.py:299 | values more than 0.01 apart stay strictly ordered after rounding |
| Priority.BlendBounds | tasks/scoring.py:292-297 | a blend with preset weights lies between the smallest and the largest blended value |
| Priority.RawPriority | tasks/scoring.py:283-297 | the unrounded weighted score lies in [10,100] |
| Priority.PriorityScore | tasks/scoring.py:263-299 | the priority score lies in [10,100] and within 0.005 of the unrounded score |
| Priority.UnknownStrategyFallsBack | tasks/scoring.py:283 | any name outside the table scores every task exactly as smart_balance |
| Priority.PriorityNonIncreasingInHours | tasks/scoring.py:263-299 | under every strategy, more estimated hours never raise a task's priority score |
| Priority.QuickWinsFavoursShortTasks | tasks/scoring.py:26-31 | under quick_wins a 1-hour task outranks an otherwise identical 20-hour task |
| Priority.HighImpactFavoursImportance | tasks/scoring.py:32-37 | under high_impact importance 10 beats importance 2 by more than 30 points |
| Priority.ScoreExplanation | tasks/scoring.py:302-344 | four parts, by weight descending, equal weights in the order urgency, importance, effort, dependencies |
| Priority.ExplanationPermutes | tasks/scoring.py:332-338 | the explanation lists each of the four factors exactly once |
| Priority.ExplanationOrder | tasks/scoring.py:330-338 | for each preset, the factor order is the one its weights dictate (e.g. effort first under quick_wins) |
| Cycles.GraphOf | tasks/scoring.py:360-366 | the graph's keys are exactly the ids of the tasks |
| Cycles.GraphOfLastWins | tasks/scoring.py:361-366 | a task's entry is its own dependency list unless a later task has the same id (a later duplicate overwrites it) |
| Cycles.KeyOrder | tasks/scoring.py:361-366 | the graph's keys in first-insertion order: exactly the graph's keys, each once |
| Cycles.IndexOf | tasks/scoring.py:377 | `path.index(node)`: the first position holding the node |
| Cycles.BuildGraph | tasks/scoring.py:360-366 | the loop builds exactly the specified graph and key order |
| Cycles.PathSuffixIsCycle | tasks/scoring.py:376-379 | the reported `path[start:] + [node]` is a simple cycle of declared edges |
| Cycles.Dfs | tasks/scoring.py:372-393 | `rec_stack` is restored, `visited` only grows and gains the node; meeting a node on the stack appends exactly `path[path.index(node):] + [node]`; every reported cycle is simple; self-dependencies appear as `[id, id]`; with no cycle reported, finished nodes follow their dependencies |
| Cycles.DetectCircularDependencies | tasks/scoring.py:347-400 | every reported cycle is a simple cycle of declared edges between task ids; every self-dependency is reported as `[id, id]`; nothing is reported exactly when the graph is acyclic |
| Cycles.OrderedAcyclic | tasks/scoring.py:372-398 | an order in which every node follows its dependencies rules out every cycle |
| Cycles.CyclicExamples | tasks/tests.py:172-197 | a self-dependency, a two-task loop and a three-task loop each make the graph cyclic |
| Cycles.ChainIsAcyclic | tasks/tests.py:162-170 | the chain 3→2→1 is acyclic |
| Analysis.ScoreTask | tasks/scoring.py:425-439 | the copy keeps the record, its score is in [10,100], its level is high/medium/low exactly for ≥70, [40,70), <40, and it has four explanation parts |
| Analysis.ScoreEach | tasks/scoring.py:424-441 | one scored copy per task, each carrying its own record, in input order |
| Analysis.ScoreEachElements | tasks/scoring.py:424-441 | every scored copy is the scoring of the record it carries |
| Analysis.Ranked | tasks/scoring.py:443 | one analysed task per input task, in non-increasing priority score |
| Analysis.ScoreOne | tasks/scoring.py:425-439 | the loop body computes exactly the specified scored copy |
| Analysis.ScoreAll | tasks/scoring.py:424-441 | the scoring loop computes exactly the specified list of copies |
| Analysis.AnalyzeTasks | tasks/scoring.py:403-450 | strategy used is the validated preset; the count is the input length; the tasks are the stable descending sort of the scored copies; cycles as reported by detection (simple, none exactly when acyclic) |
| Analysis.RankedFacts | tasks/scoring.py:443 | the analysed tasks are a permutation of the scored copies, in non-increasing score, equal scores in input order, each the scoring of its own record |
| Analysis.ScoreTaskSameWeights | tasks/scoring.py:418-419 | scoring depends on the strategy only through its weights |
| Analysis.Comparable | tasks/scoring.py:513-518 | a comparison raises exactly for `None` or a non-number; absent keys use the default |
| Analysis.DueClauseOf | tasks/scoring.py:504-511 | a due clause exactly when overdue or due within 3 days: overdue by N, due today, or due in N days |
| Analysis.MentionsBlocks | tasks/scoring.py:522 | `'Blocks' in explanation` holds exactly when some factor of the explanation has a Blocks note, whatever the factors' order |
| Analysis.SuggestionReason | tasks/scoring.py:484-529 | fails exactly when importance or hours cannot be compared (importance checked first); otherwise rank and score, a due clause iff due within 3 days, "highly important" iff numeric importance ≥ 8, "quick win" iff numeric hours ≤ 2, "blocking" iff the explanation mentions blocking |
| Analysis.DueClauseIffUrgent | tasks/scoring.py:504-511 | the due clause appears exactly when the urgency score is at least 80 |
| Analysis.ImportantClauseIffCritical | tasks/scoring.py:513-515 | for a numeric importance, the clause appears exactly when the importance level is Critical |
| Analysis.QuickWinIffEffortAtLeast90 | tasks/scoring.py:517-519 | for numeric hours, the clause appears exactly when the effort score is at least 90 |
| Analysis.BlockingClauseIffBlocker | tasks/scoring.py:521-523 | the blocking clause appears exactly for a task with no dependencies that some task lists |
| Analysis.SliceEnd | tasks/scoring.py:470 | `[:count]` keeps min(count, n) items for count ≥ 0 and max(0, n + count) for negative count |
| Analysis.Top | tasks/scoring.py:470 | the chosen tasks are a prefix of the analysed tasks, as long as Python's `[:count]` makes it |
| Analysis.TopAreBest | tasks/scoring.py:469-470 | no task left out of the suggestions scores above a suggested one |
| Analysis.Suggest | tasks/scoring.py:472-481 | ranks 1..k in order, each with its reason; the first reason that fails makes the call fail with that error |
| Analysis.GetSuggestions | tasks/scoring.py:453-481 | the suggestions are the first `count` analysed tasks, ranked from 1, each with its reason; failure exactly when some chosen task's reason fails, and then with the first such error |

## Left out

- `parse_date` (string parsing through `strptime`/`fromisoformat`): a due date is taken as an already-parsed day number, or none.
- `date.today()`: today's date is a single parameter. The source reads the clock several times: once per urgency computation (tasks/scoring.py:106), which runs twice per task (lines 428-429, score and explanation), and once more per suggestion reason (line 500). Across midnight these reads can disagree. `Analysis.DueClauseIffUrgent`, and the agreement between a task's score and its explanation, rely on all of them seeing the same date.
- Floating point: scores, hours and weights are exact reals. Binary rounding error, NaN and infinities are not modelled. `round(x, 2)` is exact round-half-even on the real value.
- Tasks.Coerce: an integer too large for a float (a 400-digit importance or estimated_hours, say) makes `float()` raise `OverflowError`. The `try` blocks at tasks/scoring.py:145-149 and 185-189 do not catch it, so the importance and effort scorers raise and `analyze_tasks` and `get_suggestions` abort. The model treats every `Number` as convertible and scores it.
- The contribution `round(score * weight, 1)` shown in each explanation part is not computed. A factor carries its score and weight.
- Text rendering: f-string formatting, `" | ".join`, `", ".join` and `capitalize()`. Notes and reasons are structured values. `'Blocks' in explanation` is modelled as "some factor's note is a Blocks note", the only note whose text contains that word.
- Task ids are integers and dependency entries are integers. The model assumes this; it does not model a task whose id is `None` or absent, or ids and dependency entries of other types.
- Python's recursion limit: `dfs` recurses once per node on the current path, so a long enough dependency chain (around a thousand tasks) makes `detect_circular_dependencies`, and with it `analyze_tasks`, raise `RecursionError`. `Cycles.Dfs` and `Cycles.DetectCircularDependencies` always return.
- `generate_suggestion_reason` reads `priority_score` and `explanation` through `.get` with defaults; the model takes them from the analysed task, which always has them.
- The `TypeError` that `importance >= 8` or `hours <= 2` raises on a non-number is modelled as an error result of the whole suggestion call; which Python exception type is raised is not distinguished.
- Priority.BlendBounds: stated for the four preset weight vectors, not for every convex weighting. Every weighting the source uses is a preset, and `WeightsFor` states separately that each preset is convex.
- `STRATEGY_WEIGHTS` being a mutable module-level dict: the model treats it as a constant.
- `DEFAULTS['dependencies']` and the other defaults are inlined where they are used (5 for importance, 4 for hours, the empty list for dependencies).
