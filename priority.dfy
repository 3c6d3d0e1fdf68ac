/**
 * Strategy weights, the weighted blend of the four component scores into one
 * priority score, and the score explanation that lists the four factors in
 * order of weight (tasks/scoring.py).
 */
module Priority {
  import opened Wrappers
  import opened Tasks
  import opened Components
  import StableSort

  datatype Weights = Weights(urgency: real, importance: real, effort: real, dependencies: real)

  const SmartBalance: string := "smart_balance"

  /** The four strategy presets. */
  const StrategyWeights: map<string, Weights> := map[
    "smart_balance" := Weights(0.35, 0.30, 0.15, 0.20),
    "quick_wins" := Weights(0.15, 0.15, 0.55, 0.15),
    "high_impact" := Weights(0.15, 0.60, 0.10, 0.15),
    "deadline_driven" := Weights(0.60, 0.15, 0.10, 0.15)
  ]

  /** Non-negative weights that sum to one: a blend with them is a convex combination. */
  predicate Convex(w: Weights) {
    w.urgency >= 0.0 && w.importance >= 0.0 && w.effort >= 0.0 && w.dependencies >= 0.0 &&
    w.urgency + w.importance + w.effort + w.dependencies == 1.0
  }

  /** One of the four presets, written out so that blends with it stay linear. */
  predicate Preset(w: Weights) {
    || w == Weights(0.35, 0.30, 0.15, 0.20)
    || w == Weights(0.15, 0.15, 0.55, 0.15)
    || w == Weights(0.15, 0.60, 0.10, 0.15)
    || w == Weights(0.60, 0.15, 0.10, 0.15)
  }

  /** `STRATEGY_WEIGHTS.get(strategy, STRATEGY_WEIGHTS['smart_balance'])`. */
  function WeightsFor(strategy: string): (w: Weights)
    ensures Convex(w) && Preset(w)
    ensures w in StrategyWeights.Values
    ensures strategy !in StrategyWeights ==> w == Weights(0.35, 0.30, 0.15, 0.20)
  {
    if strategy in StrategyWeights then StrategyWeights[strategy] else StrategyWeights[SmartBalance]
  }

  /** The strategy a name stands for: itself when it is a preset, `smart_balance` otherwise. */
  function EffectiveStrategy(strategy: string): (s: string)
    ensures s in StrategyWeights
    ensures WeightsFor(s) == WeightsFor(strategy)
    ensures strategy in StrategyWeights ==> s == strategy
  {
    if strategy in StrategyWeights then strategy else SmartBalance
  }

  // --------------------------------------------------------------- rounding

  /**
   * `round(x, 2)`: the nearest multiple of 1/100, ties to the even
   * multiple, taken on the exact value.
   */
  function Round2(x: real): (r: real)
    ensures -0.005 <= r - x <= 0.005
    ensures (r * 100.0).Floor as real == r * 100.0
  {
    var y := x * 100.0;
    var f := y.Floor;
    var frac := y - f as real;
    var n := if frac < 0.5 then f else if frac > 0.5 then f + 1 else if f % 2 == 0 then f else f + 1;
    n as real / 100.0
  }

  lemma Round2Monotone(x: real, y: real)
    requires x <= y
    ensures Round2(x) <= Round2(y)
  {
    var fx, fy := (x * 100.0).Floor, (y * 100.0).Floor;
    assert fx <= fy;
    if fx < fy {
      assert Round2(x) * 100.0 <= (fx + 1) as real <= fy as real <= Round2(y) * 100.0;
    }
  }

  /** A multiple of 1/100 rounds to itself. */
  lemma Round2Exact(k: int)
    ensures Round2(k as real / 100.0) == k as real / 100.0
  {
    assert (k as real / 100.0) * 100.0 == k as real;
  }

  /** An exact half of a hundredth, (2k+1)/200, goes to the even neighbour among k/100 and (k+1)/100. */
  lemma Round2HalfEven(k: int)
    ensures Round2((2 * k + 1) as real / 200.0) == (if k % 2 == 0 then k else k + 1) as real / 100.0
  {
    var x := (2 * k + 1) as real / 200.0;
    assert x * 100.0 == k as real + 0.5;
    assert (x * 100.0).Floor == k;
  }

  /** Instances of the tie rule: 0.125 and -0.125 go down to the even hundredth, 0.135 up. */
  lemma Round2HalfEvenExamples()
    ensures Round2(0.125) == 0.12 && Round2(0.135) == 0.14 && Round2(-0.125) == -0.12
  {
    Round2HalfEven(12);
    Round2HalfEven(13);
    Round2HalfEven(-13);
  }

  /** Rounding keeps an order whose gap exceeds 1/100. */
  lemma Round2Gap(x: real, y: real)
    requires x + 0.01 < y
    ensures Round2(x) < Round2(y)
  {
  }

  // ------------------------------------------------------------------ blend

  function Blend(w: Weights, u: real, i: real, e: real, d: real): real {
    u * w.urgency + i * w.importance + e * w.effort + d * w.dependencies
  }

  /** A blend with preset weights lies between the lowest and the highest of the blended values. */
  lemma BlendBounds(w: Weights, u: real, i: real, e: real, d: real, lo: real, hi: real)
    requires Preset(w)
    requires lo <= u <= hi && lo <= i <= hi && lo <= e <= hi && lo <= d <= hi
    ensures lo <= Blend(w, u, i, e, d) <= hi
  {
  }

  /** The weighted sum of the four component scores before rounding. */
  function RawPriority(t: Task, all: seq<Task>, strategy: string, today: int): (r: real)
    ensures 10.0 <= r <= 100.0
  {
    var w := WeightsFor(strategy);
    var u, i, e, d := UrgencyScore(t.dueDate, today).score, ImportanceScore(t.importance).score,
                      EffortScore(t.estimatedHours).score, DependencyScore(t, all).score;
    BlendBounds(w, u, i, e, d, 10.0, 100.0);
    Blend(w, u, i, e, d)
  }

  /** The priority score: the blend rounded to two decimals. */
  function PriorityScore(t: Task, all: seq<Task>, strategy: string, today: int): (r: real)
    ensures 10.0 <= r <= 100.0
    ensures -0.005 <= r - RawPriority(t, all, strategy, today) <= 0.005
  {
    var raw := RawPriority(t, all, strategy, today);
    Round2Monotone(10.0, raw);
    Round2Monotone(raw, 100.0);
    Round2Exact(1000);
    Round2Exact(10000);
    Round2(raw)
  }

  /** An unknown strategy name scores exactly as `smart_balance`. */
  lemma UnknownStrategyFallsBack(t: Task, all: seq<Task>, strategy: string, today: int)
    requires strategy !in StrategyWeights
    ensures PriorityScore(t, all, strategy, today) == PriorityScore(t, all, SmartBalance, today)
  {
  }

  /** Under every strategy, more estimated hours never raise the priority score. */
  lemma {:induction false} PriorityNonIncreasingInHours(t: Task, all: seq<Task>, strategy: string, today: int, g: real, h: real)
    requires g <= h
    ensures PriorityScore(t.(estimatedHours := Number(g)), all, strategy, today)
         >= PriorityScore(t.(estimatedHours := Number(h)), all, strategy, today)
  {
    var tg, th := t.(estimatedHours := Number(g)), t.(estimatedHours := Number(h));
    var w := WeightsFor(strategy);
    EffortMonotone(EffectiveHours(Number(g)), EffectiveHours(Number(h)));
    assert DependencyScore(tg, all) == DependencyScore(th, all);
    Round2Monotone(RawPriority(th, all, strategy, today), RawPriority(tg, all, strategy, today));
  }

  /** Under `quick_wins`, a one-hour task outranks an otherwise identical twenty-hour task. */
  lemma QuickWinsFavoursShortTasks(t: Task, all: seq<Task>, today: int)
    ensures PriorityScore(t.(estimatedHours := Number(1.0)), all, "quick_wins", today)
          > PriorityScore(t.(estimatedHours := Number(20.0)), all, "quick_wins", today)
  {
    var short, long := t.(estimatedHours := Number(1.0)), t.(estimatedHours := Number(20.0));
    assert DependencyScore(short, all) == DependencyScore(long, all);
    assert EffortScore(short.estimatedHours).score == 100.0;
    assert EffortScore(long.estimatedHours).score == 18.0;
    Round2Gap(RawPriority(long, all, "quick_wins", today), RawPriority(short, all, "quick_wins", today));
  }

  /** Under `high_impact`, importance 10 beats an otherwise identical importance 2 by more than 30 points. */
  lemma HighImpactFavoursImportance(t: Task, all: seq<Task>, today: int)
    ensures PriorityScore(t.(importance := Number(10.0)), all, "high_impact", today)
          - PriorityScore(t.(importance := Number(2.0)), all, "high_impact", today) > 30.0
  {
    var hi, lo := t.(importance := Number(10.0)), t.(importance := Number(2.0));
    assert DependencyScore(hi, all) == DependencyScore(lo, all);
    assert RawPriority(hi, all, "high_impact", today) - RawPriority(lo, all, "high_impact", today) == 48.0;
  }

  // ------------------------------------------------------------ explanation

  datatype FactorName = UrgencyFactor | ImportanceFactor | EffortFactor | DependenciesFactor

  /** The position of a factor in the list the source builds before sorting. */
  function NameRank(n: FactorName): int {
    match n
    case UrgencyFactor => 0
    case ImportanceFactor => 1
    case EffortFactor => 2
    case DependenciesFactor => 3
  }

  /** One part of the explanation; its contribution is `score * weight`. */
  datatype Factor = Factor(name: FactorName, score: real, note: Note, weight: real)

  function WeightKey(f: Factor): real { f.weight }
  function FactorRank(f: Factor): int { NameRank(f.name) }

  /** The four factors in the order the source lists them. */
  function Factors(t: Task, all: seq<Task>, strategy: string, today: int): seq<Factor> {
    var w := WeightsFor(strategy);
    var u, i := UrgencyScore(t.dueDate, today), ImportanceScore(t.importance);
    var e, d := EffortScore(t.estimatedHours), DependencyScore(t, all);
    [Factor(UrgencyFactor, u.score, u.note, w.urgency),
     Factor(ImportanceFactor, i.score, i.note, w.importance),
     Factor(EffortFactor, e.score, e.note, w.effort),
     Factor(DependenciesFactor, d.score, d.note, w.dependencies)]
  }

  /** Four factors in the source's order come out sorted by weight, ties in that order. */
  lemma {:induction false} RankedByWeight(fs: seq<Factor>)
    requires |fs| == 4 && forall k :: 0 <= k < 4 ==> FactorRank(fs[k]) == k
    ensures StableSort.KeyThenRank(StableSort.SortDesc(fs, WeightKey), WeightKey, FactorRank)
  {
    StableSort.SortDescKeyThenRank(fs, WeightKey, FactorRank);
  }

  /**
   * The explanation: the four factors sorted by weight, heaviest first, with
   * equal weights left in the order urgency, importance, effort, dependencies.
   */
  function ScoreExplanation(t: Task, all: seq<Task>, strategy: string, today: int): (parts: seq<Factor>)
    ensures |parts| == 4
    ensures forall i, j :: 0 <= i < j < |parts| ==>
              parts[i].weight > parts[j].weight ||
              (parts[i].weight == parts[j].weight && NameRank(parts[i].name) < NameRank(parts[j].name))
  {
    var fs := Factors(t, all, strategy, today);
    RankedByWeight(fs);
    StableSort.SortDesc(fs, WeightKey)
  }

  /** The explanation holds exactly the four factors, each once. */
  lemma ExplanationPermutes(t: Task, all: seq<Task>, strategy: string, today: int)
    ensures multiset(ScoreExplanation(t, all, strategy, today)) == multiset(Factors(t, all, strategy, today))
  {
    StableSort.SortDescPermutes(Factors(t, all, strategy, today), WeightKey);
  }

  function Names(parts: seq<Factor>): seq<FactorName> {
    if parts == [] then [] else [parts[0].name] + Names(parts[1..])
  }

  /** The factor order each preset produces, heaviest weight first. */
  function PresetOrder(strategy: string): seq<FactorName> {
    if strategy == "quick_wins" then [EffortFactor, UrgencyFactor, ImportanceFactor, DependenciesFactor]
    else if strategy == "high_impact" then [ImportanceFactor, UrgencyFactor, DependenciesFactor, EffortFactor]
    else [UrgencyFactor, ImportanceFactor, DependenciesFactor, EffortFactor]
  }

  /** Sorting four factors whose weights are ordered as `urgency > importance >= dependencies > effort`. */
  lemma SortedUrgencyFirst(f0: Factor, f1: Factor, f2: Factor, f3: Factor)
    requires f0.weight > f1.weight >= f3.weight > f2.weight
    ensures StableSort.SortDesc([f0, f1, f2, f3], WeightKey) == [f0, f1, f3, f2]
  {
    StableSort.SortFour(f0, f1, f2, f3, WeightKey);
    StableSort.InsertBehind(f2, f3, [], WeightKey);
    StableSort.InsertFront(f2, [], WeightKey);
    StableSort.InsertFront(f1, [f3, f2], WeightKey);
    StableSort.InsertFront(f0, [f1, f3, f2], WeightKey);
  }

  /** Sorting four factors whose weights are ordered as `importance > urgency == dependencies > effort`. */
  lemma SortedImportanceFirst(f0: Factor, f1: Factor, f2: Factor, f3: Factor)
    requires f1.weight > f0.weight == f3.weight > f2.weight
    ensures StableSort.SortDesc([f0, f1, f2, f3], WeightKey) == [f1, f0, f3, f2]
  {
    StableSort.SortFour(f0, f1, f2, f3, WeightKey);
    StableSort.InsertBehind(f2, f3, [], WeightKey);
    StableSort.InsertFront(f2, [], WeightKey);
    StableSort.InsertFront(f1, [f3, f2], WeightKey);
    StableSort.InsertBehind(f0, f1, [f3, f2], WeightKey);
    StableSort.InsertFront(f0, [f3, f2], WeightKey);
  }

  /** Sorting four factors whose weights are ordered as `effort > urgency == importance == dependencies`. */
  lemma SortedEffortFirst(f0: Factor, f1: Factor, f2: Factor, f3: Factor)
    requires f2.weight > f0.weight == f1.weight == f3.weight
    ensures StableSort.SortDesc([f0, f1, f2, f3], WeightKey) == [f2, f0, f1, f3]
  {
    StableSort.SortFour(f0, f1, f2, f3, WeightKey);
    StableSort.InsertFront(f2, [f3], WeightKey);
    StableSort.InsertBehind(f1, f2, [f3], WeightKey);
    StableSort.InsertFront(f1, [f3], WeightKey);
    StableSort.InsertBehind(f0, f2, [f1, f3], WeightKey);
    StableSort.InsertFront(f0, [f1, f3], WeightKey);
  }

  lemma NamesOfFour(r: seq<Factor>)
    requires |r| == 4
    ensures Names(r) == [r[0].name, r[1].name, r[2].name, r[3].name]
  {
    assert Names(r[3..]) == [r[3].name] by { assert r[3..][1..] == []; }
    assert Names(r[2..]) == [r[2].name] + Names(r[3..]) by { assert r[2..][1..] == r[3..]; }
    assert Names(r[1..]) == [r[1].name] + Names(r[2..]) by { assert r[1..][1..] == r[2..]; }
  }

  /** The order in which each preset lists the factors of any task. */
  lemma ExplanationOrder(t: Task, all: seq<Task>, strategy: string, today: int)
    requires strategy in StrategyWeights
    ensures Names(ScoreExplanation(t, all, strategy, today)) == PresetOrder(strategy)
  {
    var fs := Factors(t, all, strategy, today);
    var w := WeightsFor(strategy);
    var f0, f1, f2, f3 := fs[0], fs[1], fs[2], fs[3];
    assert fs == [f0, f1, f2, f3];
    assert f0.name == UrgencyFactor && f0.weight == w.urgency;
    assert f1.name == ImportanceFactor && f1.weight == w.importance;
    assert f2.name == EffortFactor && f2.weight == w.effort;
    assert f3.name == DependenciesFactor && f3.weight == w.dependencies;
    var r: seq<Factor>;
    if strategy == "quick_wins" {
      SortedEffortFirst(f0, f1, f2, f3);
      r := [f2, f0, f1, f3];
    } else if strategy == "high_impact" {
      SortedImportanceFirst(f0, f1, f2, f3);
      r := [f1, f0, f3, f2];
    } else {
      assert strategy == "smart_balance" || strategy == "deadline_driven";
      SortedUrgencyFirst(f0, f1, f2, f3);
      r := [f0, f1, f3, f2];
    }
    assert ScoreExplanation(t, all, strategy, today) == r;
    NamesOfFour(r);
  }
}
