/**
 * The task record handed to the scoring engine (tasks/scoring.py works on
 * plain dictionaries; here each key becomes a field with its own type).
 */
module Tasks {
  import opened Wrappers

  /** The value stored under a numeric key of a task dictionary. */
  datatype Attr =
    | Missing                        // the key is absent
    | Null                           // the key maps to None
    | Number(x: real)                // an int, float or bool
    | Other(asFloat: Option<real>)   // any other value; what float() makes of it, if anything

  /**
   * A task record. The due date is already parsed into a day number
   * (None when absent or unparsable); `dependencies` is None when the key is
   * absent, None, empty or not a list.
   */
  datatype Task = Task(
    id: int,
    title: string,
    dueDate: Option<int>,
    estimatedHours: Attr,
    importance: Attr,
    dependencies: Option<seq<int>>)

  /** `task.get(key)` coerced with `float(...)`, or the default when that is impossible. */
  function Coerce(a: Attr, default: real): (r: real)
    ensures a.Number? ==> r == a.x
    ensures a.Other? && a.asFloat.Some? ==> r == a.asFloat.value
    ensures a.Missing? || a.Null? || a == Other(None) ==> r == default
  {
    match a
    case Number(x) => x
    case Other(Some(x)) => x
    case _ => default
  }

  /** `task.get('dependencies') or []`, with a non-list treated as empty. */
  function DepList(t: Task): (d: seq<int>)
    ensures d == [] <==> t.dependencies == None || t.dependencies == Some([])
    ensures t.dependencies.Some? ==> d == t.dependencies.value
  {
    t.dependencies.GetOr([])
  }

  /** Does `t` list `id` among its dependencies? */
  predicate ListsDependency(t: Task, id: int) {
    id in DepList(t)
  }
}
