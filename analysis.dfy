/**
 * Orchestration (tasks/scoring.py): `analyze_tasks` scores a copy of every
 * task, labels it high/medium/low and sorts the copies by score, highest
 * first; `get_suggestions` ranks the first few and gives each a reason.
 */
module Analysis {
  import opened Wrappers
  import opened Tasks
  import opened Components
  import opened Priority
  import StableSort
  import Cycles

  datatype Level = HighPriority | MediumPriority | LowPriority

  /** A task copy extended with `priority_score`, `explanation` and `priority_level`. */
  datatype ScoredTask = ScoredTask(task: Task, priorityScore: real, explanation: seq<Factor>, level: Level)

  datatype Analysis = Analysis(
    tasks: seq<ScoredTask>,
    circularDependencies: seq<seq<int>>,
    strategyUsed: string,
    totalTasks: nat)

  /** The scored copy of one task, with the full task list as dependency context. */
  function ScoreTask(t: Task, all: seq<Task>, strategy: string, today: int): (s: ScoredTask)
    ensures s.task == t
    ensures 10.0 <= s.priorityScore <= 100.0
    ensures s.level == HighPriority <==> s.priorityScore >= 70.0
    ensures s.level == MediumPriority <==> 40.0 <= s.priorityScore < 70.0
    ensures s.level == LowPriority <==> s.priorityScore < 40.0
    ensures |s.explanation| == 4
  {
    var score := PriorityScore(t, all, strategy, today);
    var level := if score >= 70.0 then HighPriority else if score >= 40.0 then MediumPriority else LowPriority;
    ScoredTask(t, score, ScoreExplanation(t, all, strategy, today), level)
  }

  /** The scored copies of `ts`, in the order of `ts`. */
  function ScoreEach(ts: seq<Task>, all: seq<Task>, strategy: string, today: int): (r: seq<ScoredTask>)
    ensures |r| == |ts|
    ensures forall k :: 0 <= k < |ts| ==> r[k].task == ts[k]
  {
    seq(|ts|, k requires 0 <= k < |ts| => ScoreTask(ts[k], all, strategy, today))
  }

  /** Every scored copy is the scoring of the record it carries. */
  lemma ScoreEachElements(ts: seq<Task>, all: seq<Task>, strategy: string, today: int)
    ensures forall s :: s in ScoreEach(ts, all, strategy, today) ==> s == ScoreTask(s.task, all, strategy, today)
  {
  }

  function PriorityKey(s: ScoredTask): real { s.priorityScore }

  /** The analysed tasks in the order `analyze_tasks` returns them. */
  function Ranked(tasks: seq<Task>, strategy: string, today: int): (r: seq<ScoredTask>)
    ensures |r| == |tasks|
    ensures forall i, j :: 0 <= i < j < |r| ==> r[i].priorityScore >= r[j].priorityScore
  {
    var scored := ScoreEach(tasks, tasks, EffectiveStrategy(strategy), today);
    StableSort.SortDescNonIncreasing(scored, PriorityKey);
    StableSort.SortDesc(scored, PriorityKey)
  }

  /**
   * `analyze_tasks`: one scored copy per input task, sorted by priority score
   * from highest to lowest with equal scores kept in input order, plus the
   * cycles of the dependency graph, the strategy used and the task count.
   */
  method AnalyzeTasks(tasks: seq<Task>, strategy: string, today: int) returns (a: Analysis)
    ensures a.strategyUsed == EffectiveStrategy(strategy) && a.strategyUsed in StrategyWeights
    ensures a.totalTasks == |tasks| && |a.tasks| == |tasks|
    ensures a.tasks == Ranked(tasks, strategy, today)
    ensures forall c :: c in a.circularDependencies ==> Cycles.SimpleCycle(Cycles.GraphOf(tasks), c)
    ensures a.circularDependencies == [] <==> Cycles.Acyclic(Cycles.GraphOf(tasks))
  {
    var used := if strategy in StrategyWeights then strategy else SmartBalance;
    var scored := ScoreAll(tasks, used, today);
    var sorted := StableSort.SortDesc(scored, PriorityKey);
    var circular := Cycles.DetectCircularDependencies(tasks);
    a := Analysis(sorted, circular, used, |tasks|);
  }

  /** The scoring loop of `analyze_tasks`: one scored copy per task, in input order. */
  method ScoreAll(tasks: seq<Task>, strategy: string, today: int) returns (scored: seq<ScoredTask>)
    ensures scored == ScoreEach(tasks, tasks, strategy, today)
  {
    scored := [];
    var i := 0;
    while i < |tasks|
      invariant 0 <= i <= |tasks|
      invariant |scored| == i
      invariant forall k :: 0 <= k < i ==> scored[k] == ScoreTask(tasks[k], tasks, strategy, today)
    {
      var t := tasks[i];
      var copy := ScoreOne(t, tasks, strategy, today);
      scored := scored + [copy];
      i := i + 1;
    }
  }

  /**
   * The body of the scoring loop: score, explain and label one task. It is
   * the imperative form of `ScoreTask`, kept as its own method so that the
   * loop in `ScoreAll` has a small proof obligation per step.
   */
  method ScoreOne(t: Task, all: seq<Task>, strategy: string, today: int) returns (copy: ScoredTask)
    ensures copy == ScoreTask(t, all, strategy, today)
  {
    var score := PriorityScore(t, all, strategy, today);
    var explanation := ScoreExplanation(t, all, strategy, today);
    var level;
    if score >= 70.0 {
      level := HighPriority;
    } else if score >= 40.0 {
      level := MediumPriority;
    } else {
      level := LowPriority;
    }
    copy := ScoredTask(t, score, explanation, level);
  }

  /** What ranking keeps of the scored copies. */
  lemma RankedFacts(tasks: seq<Task>, strategy: string, today: int)
    ensures var ranked, scored := Ranked(tasks, strategy, today), ScoreEach(tasks, tasks, strategy, today);
      && multiset(ranked) == multiset(scored)
      && StableSort.NonIncreasing(ranked, PriorityKey)
      && (forall v :: StableSort.WithKey(ranked, PriorityKey, v) == StableSort.WithKey(scored, PriorityKey, v))
      && (forall s :: s in ranked ==> s == ScoreTask(s.task, tasks, strategy, today))
  {
    var scored := ScoreEach(tasks, tasks, strategy, today);
    ScoreEachSameWeights(tasks, tasks, EffectiveStrategy(strategy), strategy, today);
    var ranked := StableSort.SortDesc(scored, PriorityKey);
    StableSort.SortDescPermutes(scored, PriorityKey);
    StableSort.SortDescNonIncreasing(scored, PriorityKey);
    forall v ensures StableSort.WithKey(ranked, PriorityKey, v) == StableSort.WithKey(scored, PriorityKey, v) {
      StableSort.SortDescStable(scored, PriorityKey, v);
    }
    ScoreEachElements(tasks, tasks, strategy, today);
    forall s | s in ranked ensures s == ScoreTask(s.task, tasks, strategy, today) {
      assert s in multiset(ranked);
    }
  }

  lemma ScoreEachSameWeights(ts: seq<Task>, all: seq<Task>, s1: string, s2: string, today: int)
    requires WeightsFor(s1) == WeightsFor(s2)
    ensures ScoreEach(ts, all, s1, today) == ScoreEach(ts, all, s2, today)
  {
    forall k | 0 <= k < |ts| ensures ScoreEach(ts, all, s1, today)[k] == ScoreEach(ts, all, s2, today)[k] {
      ScoreTaskSameWeights(ts[k], all, s1, s2, today);
    }
  }

  /** Scoring depends on the strategy only through its weights. */
  lemma ScoreTaskSameWeights(t: Task, all: seq<Task>, s1: string, s2: string, today: int)
    requires WeightsFor(s1) == WeightsFor(s2)
    ensures ScoreTask(t, all, s1, today) == ScoreTask(t, all, s2, today)
  {
    assert Factors(t, all, s1, today) == Factors(t, all, s2, today);
  }

  // ------------------------------------------------------------ suggestions

  /** The due-date clause of a reason. */
  datatype DueClause =
    | OverdueBy(days: nat)     // "overdue by N day(s)"
    | DueTodayClause           // "due today"
    | DueSoon(days: nat)       // "due in N day(s)", N <= 3

  /**
   * A reason: rank, score and the clauses it lists, in the order the reason
   * joins them (due date, importance, quick win, blocking). No clause at all
   * stands for the "good balance" sentence.
   */
  datatype Reason = Reason(rank: int, score: real, due: Option<DueClause>,
                           important: bool, quickWin: bool, blocking: bool)

  /** The comparison `value >= 8` or `value <= 2` raises a TypeError. */
  datatype ReasonError = ImportanceNotComparable | HoursNotComparable

  datatype Suggestion = Suggestion(rank: int, task: ScoredTask, reason: Reason)

  /** What `task.get(key, default)` gives a numeric comparison; None when the comparison raises. */
  function Comparable(a: Attr, default: real): (v: Option<real>)
    ensures v.None? <==> a.Null? || a.Other?
    ensures a.Missing? ==> v == Some(default)
    ensures a.Number? ==> v == Some(a.x)
  {
    match a
    case Missing => Some(default)
    case Number(x) => Some(x)
    case _ => None
  }

  /** The due-date clause: present exactly when the task is overdue or due within three days. */
  function DueClauseOf(due: Option<int>, today: int): (c: Option<DueClause>)
    ensures c.Some? <==> due.Some? && due.value - today <= 3
    ensures due.Some? && due.value < today ==> c == Some(OverdueBy(today - due.value))
    ensures due.Some? && due.value == today ==> c == Some(DueTodayClause)
    ensures due.Some? && today < due.value <= today + 3 ==> c == Some(DueSoon(due.value - today))
  {
    match due
    case None => None
    case Some(day) =>
      var d := day - today;
      if d < 0 then Some(OverdueBy(-d))
      else if d == 0 then Some(DueTodayClause)
      else if d <= 3 then Some(DueSoon(d))
      else None
  }

  /** `'Blocks' in explanation`: some factor of the explanation says the task blocks others. */
  predicate MentionsBlocks(parts: seq<Factor>): (b: bool)
    ensures b <==> exists f :: f in multiset(parts) && f.note.Blocks?
  {
    exists k :: 0 <= k < |parts| && parts[k].note.Blocks?
  }

  /** `generate_suggestion_reason` for an analysed task at `rank`. */
  function SuggestionReason(s: ScoredTask, rank: int, today: int): (r: Result<Reason, ReasonError>)
    ensures r.Err? <==> Comparable(s.task.importance, 5.0).None? || Comparable(s.task.estimatedHours, 4.0).None?
    ensures r.Err? ==> (r.error == ImportanceNotComparable <==> Comparable(s.task.importance, 5.0).None?)
    ensures r.Ok? ==> r.value.rank == rank && r.value.score == s.priorityScore
    ensures r.Ok? ==> (r.value.due.Some? <==> s.task.dueDate.Some? && s.task.dueDate.value - today <= 3)
    ensures r.Ok? ==> (r.value.important <==> s.task.importance.Number? && s.task.importance.x >= 8.0)
    ensures r.Ok? ==> (r.value.quickWin <==> s.task.estimatedHours.Number? && s.task.estimatedHours.x <= 2.0)
    ensures r.Ok? ==> (r.value.blocking <==> MentionsBlocks(s.explanation))
  {
    var importance := Comparable(s.task.importance, 5.0);
    var hours := Comparable(s.task.estimatedHours, 4.0);
    if importance.None? then Err(ImportanceNotComparable)
    else if hours.None? then Err(HoursNotComparable)
    else Ok(Reason(rank, s.priorityScore, DueClauseOf(s.task.dueDate, today),
                   importance.value >= 8.0, hours.value <= 2.0, MentionsBlocks(s.explanation)))
  }

  /** The due clause appears exactly for tasks whose urgency score is at least 80. */
  lemma DueClauseIffUrgent(due: Option<int>, today: int)
    ensures DueClauseOf(due, today).Some? <==> UrgencyScore(due, today).score >= 80.0
  {
  }

  /** For a numeric importance, the clause appears exactly when the importance factor is critical. */
  lemma ImportantClauseIffCritical(x: real)
    ensures x >= 8.0 <==> ImportanceScore(Number(x)).note.level == Critical
  {
  }

  /** For a numeric estimate, the clause appears exactly when the effort score is at least 90. */
  lemma QuickWinIffEffortAtLeast90(x: real)
    ensures x <= 2.0 <==> EffortScore(Number(x)).score >= 90.0
  {
  }

  /**
   * The blocking clause appears exactly for an unblocked task that some task
   * of the list depends on.
   */
  lemma {:induction false} BlockingClauseIffBlocker(t: Task, all: seq<Task>, strategy: string, today: int)
    ensures MentionsBlocks(ScoreTask(t, all, strategy, today).explanation)
        <==> DepList(t) == [] && BlockingCount(t.id, all) >= 1
  {
    var fs := Factors(t, all, strategy, today);
    ExplanationPermutes(t, all, strategy, today);
    BlocksOnlyFromLast(ScoreExplanation(t, all, strategy, today), fs);
  }

  /** Of four factors only the last can mention blocking; reordering them keeps that mention. */
  lemma BlocksOnlyFromLast(parts: seq<Factor>, fs: seq<Factor>)
    requires multiset(parts) == multiset(fs) && |fs| == 4
    requires !fs[0].note.Blocks? && !fs[1].note.Blocks? && !fs[2].note.Blocks?
    ensures MentionsBlocks(parts) <==> fs[3].note.Blocks?
  {
    if MentionsBlocks(parts) {
      var k :| 0 <= k < |parts| && parts[k].note.Blocks?;
      assert parts[k] in multiset(fs);
    }
    if fs[3].note.Blocks? {
      assert fs[3] in multiset(parts);
      var k :| 0 <= k < |parts| && parts[k] == fs[3];
    }
  }

  /** The end of `xs[:count]` for a list of length `n`, as Python slicing computes it. */
  function SliceEnd(n: nat, count: int): (m: nat)
    ensures m <= n
    ensures 0 <= count ==> m == if count <= n then count else n
    ensures count < 0 ==> m == if n + count >= 0 then n + count else 0
  {
    if count >= 0 then (if count <= n then count else n)
    else if n + count >= 0 then n + count else 0
  }

  /** The analysed tasks `get_suggestions` takes. */
  function Top(tasks: seq<Task>, strategy: string, today: int, count: int): (r: seq<ScoredTask>)
    ensures |r| == SliceEnd(|tasks|, count)
    ensures r <= Ranked(tasks, strategy, today)
  {
    var ranked := Ranked(tasks, strategy, today);
    ranked[..SliceEnd(|ranked|, count)]
  }

  /** No task left out of the suggestions scores higher than a suggested one. */
  lemma {:induction false} TopAreBest(tasks: seq<Task>, strategy: string, today: int, count: int)
    ensures var ranked, top := Ranked(tasks, strategy, today), Top(tasks, strategy, today, count);
      forall i, j :: 0 <= i < |top| <= j < |ranked| ==> top[i].priorityScore >= ranked[j].priorityScore
  {
    var ranked := Ranked(tasks, strategy, today);
    RankedFacts(tasks, strategy, today);
    forall i, j | 0 <= i < SliceEnd(|ranked|, count) <= j < |ranked|
      ensures ranked[i].priorityScore >= ranked[j].priorityScore
    {
      assert PriorityKey(ranked[i]) >= PriorityKey(ranked[j]);
    }
  }

  /**
   * `get_suggestions`: the first `count` analysed tasks, ranked from 1, each
   * with its reason; the first reason that raises makes the whole call fail.
   */
  method GetSuggestions(tasks: seq<Task>, strategy: string, count: int, today: int)
    returns (r: Result<seq<Suggestion>, ReasonError>)
    ensures var top := Top(tasks, strategy, today, count);
      && (r.Ok? <==> forall k :: 0 <= k < |top| ==> SuggestionReason(top[k], k + 1, today).Ok?)
      && (r.Ok? ==>
            && |r.value| == |top|
            && forall k :: 0 <= k < |top| ==>
                 r.value[k] == Suggestion(k + 1, top[k], SuggestionReason(top[k], k + 1, today).value))
      && (r.Err? ==>
            exists k :: 0 <= k < |top| && SuggestionReason(top[k], k + 1, today) == Err(r.error)
                        && forall j :: 0 <= j < k ==> SuggestionReason(top[j], j + 1, today).Ok?)
  {
    var analysis := AnalyzeTasks(tasks, strategy, today);
    var top := analysis.tasks[..SliceEnd(|analysis.tasks|, count)];
    assert top == Top(tasks, strategy, today, count);
    r := Suggest(top, today);
  }

  /** The loop of `get_suggestions`: rank the chosen tasks from 1 and give each its reason. */
  method Suggest(top: seq<ScoredTask>, today: int) returns (r: Result<seq<Suggestion>, ReasonError>)
    ensures r.Ok? <==> forall k :: 0 <= k < |top| ==> SuggestionReason(top[k], k + 1, today).Ok?
    ensures r.Ok? ==>
              && |r.value| == |top|
              && forall k :: 0 <= k < |top| ==>
                   r.value[k] == Suggestion(k + 1, top[k], SuggestionReason(top[k], k + 1, today).value)
    ensures r.Err? ==>
              exists k :: 0 <= k < |top| && SuggestionReason(top[k], k + 1, today) == Err(r.error)
                          && forall j :: 0 <= j < k ==> SuggestionReason(top[j], j + 1, today).Ok?
  {
    var suggestions: seq<Suggestion> := [];
    var i := 0;
    while i < |top|
      invariant 0 <= i <= |top| && |suggestions| == i
      invariant forall k :: 0 <= k < i ==> SuggestionReason(top[k], k + 1, today).Ok?
      invariant forall k :: 0 <= k < i ==>
                  suggestions[k] == Suggestion(k + 1, top[k], SuggestionReason(top[k], k + 1, today).value)
    {
      var reason := SuggestionReason(top[i], i + 1, today);
      if reason.Err? {
        return Err(reason.error);
      }
      suggestions := suggestions + [Suggestion(i + 1, top[i], reason.value)];
      i := i + 1;
    }
    r := Ok(suggestions);
  }
}
