/**
 * The four component scorers of tasks/scoring.py: urgency, importance,
 * effort and dependency impact. Each maps a task (and, for dependencies, the
 * whole task list) to a score in [0, 100] and a note saying why; the note
 * stands for the explanation text the source formats.
 */
module Components {
  import opened Wrappers
  import opened Tasks

  datatype UrgencyBand = HighUrgency | MediumUrgency | LowUrgency | NotUrgent
  datatype ImportanceLevel = Critical | High | Medium | Low
  datatype EffortCategory = QuickTask | QuickWin | HalfDayTask | FullDayTask | MultiDayTask | MajorEffort

  /** The explanation a scorer gives with its score. */
  datatype Note =
    | NoDueDate
    | Overdue(days: nat)
    | DueToday
    | DueIn(days: nat, band: UrgencyBand)
    | Rated(level: ImportanceLevel, rating: int)
    | Estimated(category: EffortCategory, hours: real)
    | BlockedBy(count: nat)
    | Blocks(count: nat)                 // "Blocks N task(s)", "- Critical path!" from 3 on
    | Independent

  datatype Component = Component(score: real, note: Note)

  function Max(a: int, b: int): int { if a >= b then a else b }
  function MaxReal(a: real, b: real): real { if a >= b then a else b }
  function MinReal(a: real, b: real): real { if a <= b then a else b }

  // ---------------------------------------------------------------- urgency

  /** Urgency from the number of days until the due date (`today` is the wall-clock date). */
  function UrgencyScore(due: Option<int>, today: int): (c: Component)
    ensures 10.0 <= c.score <= 100.0
    ensures due.None? ==> c == Component(50.0, NoDueDate)
    ensures due.Some? && due.value < today ==> c == Component(100.0, Overdue(today - due.value))
    ensures due.Some? && due.value == today ==> c == Component(95.0, DueToday)
    ensures due.Some? && 1 <= due.value - today <= 3 ==>
              80.0 <= c.score <= 94.0 && c.note == DueIn(due.value - today, HighUrgency)
    ensures due.Some? && 4 <= due.value - today <= 7 ==>
              50.0 <= c.score <= 79.0 && c.note == DueIn(due.value - today, MediumUrgency)
    ensures due.Some? && 8 <= due.value - today <= 14 ==>
              30.0 <= c.score <= 49.0 && c.note == DueIn(due.value - today, LowUrgency)
    ensures due.Some? && 15 <= due.value - today ==>
              10.0 <= c.score <= 29.0 && c.note == DueIn(due.value - today, NotUrgent)
  {
    match due
    case None => Component(50.0, NoDueDate)
    case Some(day) =>
      var d := day - today;
      if d < 0 then Component(100.0, Overdue(-d))
      else if d == 0 then Component(95.0, DueToday)
      else if d <= 3 then Component((94 - (d - 1) * 5) as real, DueIn(d, HighUrgency))
      else if d <= 7 then Component((79 - (d - 4) * 7) as real, DueIn(d, MediumUrgency))
      else if d <= 14 then Component((49 - (d - 8) * 3) as real, DueIn(d, LowUrgency))
      else Component(Max(10, 29 - (d - 15)) as real, DueIn(d, NotUrgent))
  }

  /**
   * The nearer the due date, the more urgent: urgency never increases as the
   * due date moves later, strictly decreases from due-today to 34 days out,
   * and is 10 from then on.
   */
  lemma UrgencyMonotone(a: int, b: int, today: int)
    requires a <= b
    ensures UrgencyScore(Some(a), today).score >= UrgencyScore(Some(b), today).score
    ensures today <= a < b <= today + 34 ==>
              UrgencyScore(Some(a), today).score > UrgencyScore(Some(b), today).score
    ensures b >= today + 34 ==> UrgencyScore(Some(b), today).score == 10.0
  {
  }

  // ------------------------------------------------------------- importance

  /** The rating used for scoring: coerced (5 when missing or not numeric), then clamped to [1, 10]. */
  function ImportanceRating(a: Attr): (v: real)
    ensures 1.0 <= v <= 10.0
  {
    MaxReal(1.0, MinReal(10.0, Coerce(a, 5.0)))
  }

  /** Importance score: ten times the clamped 1-10 rating, with a level label. */
  function ImportanceScore(a: Attr): (c: Component)
    ensures 10.0 <= c.score <= 100.0
    ensures 1.0 <= Coerce(a, 5.0) <= 10.0 ==> c.score == 10.0 * Coerce(a, 5.0)
    ensures Coerce(a, 5.0) <= 1.0 ==> c.score == 10.0
    ensures Coerce(a, 5.0) >= 10.0 ==> c.score == 100.0
    ensures a.Missing? || a.Null? || a == Other(None) ==> c == Component(50.0, Rated(Medium, 5))
    ensures c.note.Rated? && 1 <= c.note.rating <= 10
    ensures c.note.rating as real * 10.0 <= c.score < c.note.rating as real * 10.0 + 10.0
    ensures c.note.level == Critical <==> c.score >= 80.0
    ensures c.note.level == High <==> 60.0 <= c.score < 80.0
    ensures c.note.level == Medium <==> 40.0 <= c.score < 60.0
    ensures c.note.level == Low <==> c.score < 40.0
  {
    var v := ImportanceRating(a);
    var level := if v >= 8.0 then Critical else if v >= 6.0 then High else if v >= 4.0 then Medium else Low;
    Component(v * 10.0, Rated(level, v.Floor))
  }

  /** A higher rating never yields a lower importance score. */
  lemma ImportanceMonotone(x: real, y: real)
    requires x <= y
    ensures ImportanceScore(Number(x)).score <= ImportanceScore(Number(y)).score
  {
  }

  // ----------------------------------------------------------------- effort

  /** The hours used for scoring: coerced (4 when missing or not numeric), floored at half an hour. */
  function EffectiveHours(a: Attr): (h: real)
    ensures h >= 0.5
    ensures a.Missing? || a.Null? || a == Other(None) ==> h == 4.0
    ensures a.Number? ==> h == MaxReal(0.5, a.x)
    ensures a.Other? && a.asFloat.Some? ==> h == MaxReal(0.5, a.asFloat.value)
  {
    match a
    case Number(x) => MaxReal(0.5, x)
    case Other(Some(x)) => MaxReal(0.5, x)
    case _ => 4.0
  }

  /** The piecewise-linear effort policy: the less effort, the higher the score. */
  function EffortForHours(h: real): (c: Component)
    ensures 10.0 <= c.score <= 100.0
    ensures c.score == 100.0 <==> h <= 1.0
    ensures c.note.Estimated? && c.note.hours == h
    ensures c.note.category == QuickTask <==> h <= 1.0
    ensures c.note.category == QuickWin <==> 1.0 < h <= 2.0
    ensures c.note.category == HalfDayTask <==> 2.0 < h <= 4.0
    ensures c.note.category == FullDayTask <==> 4.0 < h <= 8.0
    ensures c.note.category == MultiDayTask <==> 8.0 < h <= 16.0
    ensures c.note.category == MajorEffort <==> 16.0 < h
    ensures c.note.category == QuickWin ==> c.score == 90.0
    ensures c.note.category == HalfDayTask ==> 70.0 <= c.score < 80.0
    ensures c.note.category == FullDayTask ==> 40.0 <= c.score < 70.0
    ensures c.note.category == MultiDayTask ==> 20.0 <= c.score < 40.0
    ensures c.note.category == MajorEffort ==> 10.0 <= c.score < 20.0
  {
    if h <= 1.0 then Component(100.0, Estimated(QuickTask, h))
    else if h <= 2.0 then Component(90.0, Estimated(QuickWin, h))
    else if h <= 4.0 then Component(80.0 - (h - 2.0) * 5.0, Estimated(HalfDayTask, h))
    else if h <= 8.0 then Component(70.0 - (h - 4.0) * 7.5, Estimated(FullDayTask, h))
    else if h <= 16.0 then Component(40.0 - (h - 8.0) * 2.5, Estimated(MultiDayTask, h))
    else Component(MaxReal(10.0, 20.0 - (h - 16.0) * 0.5), Estimated(MajorEffort, h))
  }

  function EffortScore(a: Attr): (c: Component)
    ensures 10.0 <= c.score <= 100.0
    ensures c.note.Estimated? && c.note.hours >= 0.5
    ensures a.Missing? || a.Null? || a == Other(None) ==> c == Component(70.0, Estimated(HalfDayTask, 4.0))
    ensures a.Number? ==> (c.score == 100.0 <==> a.x <= 1.0)
    ensures c.score >= 90.0 <==> c.note.hours <= 2.0
  {
    EffortForHours(EffectiveHours(a))
  }

  /** More hours never yield a higher effort score. */
  lemma EffortMonotone(g: real, h: real)
    requires g <= h
    ensures EffortForHours(g).score >= EffortForHours(h).score
  {
  }

  /** Missing hours count as a half-day task; twenty hours is a major effort scoring below 20. */
  lemma EffortExamples()
    ensures EffortScore(Missing) == Component(70.0, Estimated(HalfDayTask, 4.0))
    ensures EffortScore(Number(1.0)).score == 100.0
    ensures EffortScore(Number(0.1)) == Component(100.0, Estimated(QuickTask, 0.5))
    ensures EffortScore(Number(20.0)).score < 20.0
    ensures EffortScore(Number(20.0)).note.category == MajorEffort
  {
  }

  // ------------------------------------------------------------- dependency

  /** How many tasks of `tasks` list `id` as a dependency. */
  function BlockingCount(id: int, tasks: seq<Task>): (n: nat)
    ensures n <= |tasks|
    ensures n == 0 <==> forall k :: 0 <= k < |tasks| ==> !ListsDependency(tasks[k], id)
  {
    if tasks == [] then 0
    else BlockingCount(id, tasks[..|tasks| - 1]) + (if ListsDependency(tasks[|tasks| - 1], id) then 1 else 0)
  }

  /**
   * Dependency score: a task that lists dependencies of its own is blocked and
   * scores 20 whatever it blocks; otherwise the more tasks it blocks, the higher.
   */
  function DependencyScore(t: Task, all: seq<Task>): (c: Component)
    ensures 20.0 <= c.score <= 100.0
    ensures c.score == 20.0 <==> DepList(t) != []
    ensures DepList(t) != [] ==> c.note == BlockedBy(|DepList(t)|)
    ensures DepList(t) == [] ==>
              var n := BlockingCount(t.id, all);
              c.score == 40.0 + 20.0 * (if n >= 3 then 3.0 else n as real) &&
              c.note == (if n == 0 then Independent else Blocks(n))
  {
    var n := BlockingCount(t.id, all);
    if |DepList(t)| > 0 then Component(20.0, BlockedBy(|DepList(t)|))
    else if n >= 3 then Component(100.0, Blocks(n))
    else if n == 2 then Component(80.0, Blocks(n))
    else if n == 1 then Component(60.0, Blocks(n))
    else Component(40.0, Independent)
  }

  /** The counting loop of the source: one pass over all tasks, one increment per dependent. */
  method CalculateDependencyScore(t: Task, all: seq<Task>) returns (c: Component)
    ensures c == DependencyScore(t, all)
  {
    var blocking := 0;
    var i := 0;
    while i < |all|
      invariant 0 <= i <= |all|
      invariant blocking == BlockingCount(t.id, all[..i])
    {
      var otherDeps := DepList(all[i]);
      if t.id in otherDeps {
        blocking := blocking + 1;
      }
      assert all[..i + 1][..i] == all[..i];
      i := i + 1;
    }
    assert all[..i] == all;
    var deps := DepList(t);
    if |deps| > 0 {
      c := Component(20.0, BlockedBy(|deps|));
    } else if blocking >= 3 {
      c := Component(100.0, Blocks(blocking));
    } else if blocking == 2 {
      c := Component(80.0, Blocks(blocking));
    } else if blocking == 1 {
      c := Component(60.0, Blocks(blocking));
    } else {
      c := Component(40.0, Independent);
    }
  }

  /** One more task depending on `t` never lowers `t`'s dependency score. */
  lemma {:induction false} NewDependentNeverLowers(t: Task, all: seq<Task>, u: Task)
    requires ListsDependency(u, t.id)
    ensures BlockingCount(t.id, all + [u]) == BlockingCount(t.id, all) + 1
    ensures DependencyScore(t, all + [u]).score >= DependencyScore(t, all).score
    ensures DepList(t) == [] && BlockingCount(t.id, all) < 3 ==>
              DependencyScore(t, all + [u]).score > DependencyScore(t, all).score
  {
    assert (all + [u])[..|all + [u]| - 1] == all;
  }
}
