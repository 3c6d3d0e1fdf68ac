/**
 * Circular-dependency detection (tasks/scoring.py, detect_circular_dependencies):
 * build the dependency graph, then a depth-first search that keeps a global
 * `visited` set and a `rec_stack` of the nodes on the current path, and
 * reports `path[path.index(node):] + [node]` whenever it meets a node that is
 * already on the path.
 */
module Cycles {
  import opened Tasks

  /** Task id to the ids it declares as dependencies. */
  type Graph = map<int, seq<int>>

  /** `graph[task_id] = deps` for each task in turn: a later task with the same id wins. */
  function GraphOf(tasks: seq<Task>): (g: Graph)
    ensures g.Keys == set k | 0 <= k < |tasks| :: tasks[k].id
  {
    if tasks == [] then map[]
    else
      var init := tasks[..|tasks| - 1];
      assert forall k :: 0 <= k < |init| ==> init[k] == tasks[k];
      GraphOf(init)[tasks[|tasks| - 1].id := DepList(tasks[|tasks| - 1])]
  }

  /** A task's entry is its own dependency list unless a later task has the same id. */
  lemma {:induction false} GraphOfLastWins(tasks: seq<Task>, k: int)
    requires 0 <= k < |tasks|
    requires forall j :: k < j < |tasks| ==> tasks[j].id != tasks[k].id
    ensures GraphOf(tasks)[tasks[k].id] == DepList(tasks[k])
  {
    var n := |tasks| - 1;
    if k < n {
      var init := tasks[..n];
      GraphOfLastWins(init, k);
    }
  }

  /** The order in which `for task_id in graph` visits the keys: first insertion order. */
  function KeyOrder(tasks: seq<Task>): (order: seq<int>)
    ensures forall x :: x in order <==> x in GraphOf(tasks)
    ensures Distinct(order)
  {
    if tasks == [] then []
    else
      var prev := KeyOrder(tasks[..|tasks| - 1]);
      var id := tasks[|tasks| - 1].id;
      if id in prev then prev else prev + [id]
  }

  ghost predicate Distinct(s: seq<int>) {
    forall i, j :: 0 <= i < j < |s| ==> s[i] != s[j]
  }

  function Elems(s: seq<int>): set<int> {
    set x | x in s
  }

  /** `s.index(x)`: the first position of `x`. */
  function IndexOf(s: seq<int>, x: int): (i: nat)
    requires x in s
    ensures i < |s| && s[i] == x && x !in s[..i]
  {
    if s[0] == x then 0 else 1 + IndexOf(s[1..], x)
  }

  // ------------------------------------------------------- graph properties

  /** An edge the search follows: `b` is a declared dependency of `a` and both are task ids. */
  ghost predicate IsEdge(g: Graph, a: int, b: int) {
    a in g && b in g && b in g[a]
  }

  /** A closed walk along edges: first and last ids equal, at least one edge. */
  ghost predicate IsCycle(g: Graph, c: seq<int>) {
    |c| >= 2 && c[0] == c[|c| - 1] &&
    forall k :: 0 <= k < |c| - 1 ==> IsEdge(g, c[k], c[k + 1])
  }

  /** A cycle that passes through each of its ids once before closing. */
  ghost predicate SimpleCycle(g: Graph, c: seq<int>) {
    IsCycle(g, c) && Distinct(c[..|c| - 1])
  }

  ghost predicate Acyclic(g: Graph) {
    forall c :: !IsCycle(g, c)
  }

  /** A walk along edges, as the search's `path` is. */
  ghost predicate IsPath(g: Graph, p: seq<int>) {
    (forall k :: 0 <= k < |p| ==> p[k] in g) &&
    (forall k :: 0 <= k < |p| - 1 ==> p[k + 1] in g[p[k]])
  }

  /** Every node of `fin` has all its in-graph dependencies earlier in `fin`. */
  ghost predicate Ordered(g: Graph, fin: seq<int>) {
    forall i, v :: 0 <= i < |fin| && fin[i] in g && v in g[fin[i]] && v in g ==> v in fin[..i]
  }

  lemma {:induction false} EdgeGoesEarlier(g: Graph, fin: seq<int>, a: int, b: int)
    requires Ordered(g, fin) && a in fin && IsEdge(g, a, b)
    ensures b in fin && IndexOf(fin, b) < IndexOf(fin, a)
  {
    var i := IndexOf(fin, a);
    assert b in fin[..i];
    var j :| 0 <= j < i && fin[..i][j] == b;
    assert fin[j] == b;
  }

  /** A finishing order in which every node follows its dependencies rules out every cycle. */
  lemma {:induction false} OrderedAcyclic(g: Graph, fin: seq<int>)
    requires Ordered(g, fin)
    requires forall x :: x in g ==> x in fin
    ensures Acyclic(g)
  {
    forall c | IsCycle(g, c) ensures false {
      assert IsEdge(g, c[0], c[1]);
      var k := 0;
      while k < |c| - 1
        invariant 0 <= k <= |c| - 1
        invariant c[0] in fin && c[k] in fin
        invariant IndexOf(fin, c[k]) <= IndexOf(fin, c[0]) - k
      {
        EdgeGoesEarlier(g, fin, c[k], c[k + 1]);
        k := k + 1;
      }
    }
  }

  lemma CycleNotAcyclic(g: Graph, c: seq<int>)
    requires IsCycle(g, c)
    ensures !Acyclic(g)
  {
  }

  /** The cycle the search reports on meeting `node` again: the path from `node`'s position, then `node`. */
  lemma PathSuffixIsCycle(g: Graph, path: seq<int>, node: int)
    requires IsPath(g, path) && Distinct(path) && node in path
    requires node in g[path[|path| - 1]]
    ensures SimpleCycle(g, path[IndexOf(path, node)..] + [node])
  {
    var start := IndexOf(path, node);
    var cycle := path[start..] + [node];
    forall k | 0 <= k < |cycle| - 1 ensures IsEdge(g, cycle[k], cycle[k + 1]) {
      if k < |cycle| - 2 {
        assert cycle[k] == path[start + k] && cycle[k + 1] == path[start + k + 1];
      }
    }
    assert cycle[..|cycle| - 1] == path[start..];
  }

  /** Meeting `node` right after putting it on the path reports `[node, node]`. */
  lemma SelfLoopReported(path: seq<int>, node: int)
    requires node !in path
    ensures (path + [node])[IndexOf(path + [node], node)..] + [node] == [node, node]
  {
    assert IndexOf(path + [node], node) == |path| by {
      assert (path + [node])[..|path|] == path;
    }
  }

  /** Appending a node whose in-graph dependencies are all in the order keeps the order. */
  lemma OrderedExtend(g: Graph, fin: seq<int>, node: int)
    requires Ordered(g, fin) && node in g
    requires forall v :: v in g[node] && v in g ==> v in fin
    ensures Ordered(g, fin + [node])
  {
    var f := fin + [node];
    forall j, v | 0 <= j < |f| && f[j] in g && v in g[f[j]] && v in g
      ensures v in f[..j]
    {
      if j < |fin| {
        assert f[..j] == fin[..j];
      } else {
        assert f[..j] == fin;
      }
    }
  }

  // ---------------------------------------------------------------- search

  /** The loop that builds the adjacency mapping and remembers its key order. */
  method BuildGraph(tasks: seq<Task>) returns (graph: Graph, order: seq<int>)
    ensures graph == GraphOf(tasks) && order == KeyOrder(tasks)
  {
    graph, order := map[], [];
    var i := 0;
    while i < |tasks|
      invariant 0 <= i <= |tasks|
      invariant graph == GraphOf(tasks[..i]) && order == KeyOrder(tasks[..i])
    {
      assert tasks[..i + 1][..i] == tasks[..i];
      var id := tasks[i].id;
      if id !in graph {
        order := order + [id];
      }
      graph := graph[id := DepList(tasks[i])];
      i := i + 1;
    }
    assert tasks[..i] == tasks;
  }

  /**
   * The recursive `dfs(node, path)`. The sets and the cycle list the source
   * shares through its closure are passed in and returned; `finished` is a
   * proof-only record of the order in which nodes leave the recursion stack.
   */
  method Dfs(g: Graph, node: int, path: seq<int>, visited: set<int>, onStack: set<int>,
             cycles: seq<seq<int>>, ghost finished: seq<int>)
    returns (visited': set<int>, onStack': set<int>, cycles': seq<seq<int>>, ghost finished': seq<int>)
    requires node in g
    requires IsPath(g, path) && Distinct(path)
    requires |path| > 0 ==> node in g[path[|path| - 1]]
    requires onStack == Elems(path)
    requires visited <= g.Keys && visited == onStack + Elems(finished) && onStack !! Elems(finished)
    requires forall c :: c in cycles ==> SimpleCycle(g, c)
    requires cycles == [] ==> Ordered(g, finished)
    requires forall x :: x in finished && x in g[x] ==> [x, x] in cycles
    ensures onStack' == onStack
    ensures visited <= visited' <= g.Keys && node in visited'
    ensures visited' == onStack + Elems(finished') && onStack !! Elems(finished')
    ensures finished <= finished' && cycles <= cycles'
    ensures node in onStack ==> cycles' == cycles + [path[IndexOf(path, node)..] + [node]]
    ensures forall c :: c in cycles' ==> SimpleCycle(g, c)
    ensures cycles' == [] ==> Ordered(g, finished') && node in finished'
    ensures forall x :: x in finished' && x in g[x] ==> [x, x] in cycles'
    decreases g.Keys - visited
  {
    visited', onStack', cycles', finished' := visited, onStack, cycles, finished;
    if node in onStack {
      var cycle := path[IndexOf(path, node)..] + [node];
      PathSuffixIsCycle(g, path, node);
      cycles' := cycles + [cycle];
      return;
    }
    if node in visited {
      return;
    }
    visited' := visited' + {node};
    onStack' := onStack' + {node};
    var path' := path + [node];
    assert onStack' == Elems(path');
    var neighbors := g[node];
    var i := 0;
    while i < |neighbors|
      invariant 0 <= i <= |neighbors|
      invariant onStack' == onStack + {node}
      invariant visited + {node} <= visited' <= g.Keys
      invariant visited' == onStack' + Elems(finished') && onStack' !! Elems(finished')
      invariant finished <= finished' && cycles <= cycles'
      invariant forall c :: c in cycles' ==> SimpleCycle(g, c)
      invariant cycles' == [] ==> Ordered(g, finished')
      invariant cycles' == [] ==> forall j :: 0 <= j < i && neighbors[j] in g ==> neighbors[j] in finished'
      invariant forall x :: x in finished' && x in g[x] ==> [x, x] in cycles'
      invariant forall j :: 0 <= j < i && neighbors[j] == node ==> [node, node] in cycles'
    {
      var neighbor := neighbors[i];
      if neighbor in g {
        ghost var stackBefore := onStack';
        visited', onStack', cycles', finished' := Dfs(g, neighbor, path', visited', onStack', cycles', finished');
        if neighbor == node {
          assert node in stackBefore;
          SelfLoopReported(path, node);
        }
      }
      i := i + 1;
    }
    onStack' := onStack' - {node};
    if cycles' == [] {
      OrderedExtend(g, finished', node);
    }
    finished' := finished' + [node];
  }

  /**
   * `detect_circular_dependencies`: every reported cycle is a simple cycle of
   * the dependency graph, every self-dependency is reported as `[id, id]`,
   * and nothing is reported exactly when the graph has no cycle.
   */
  method DetectCircularDependencies(tasks: seq<Task>) returns (cycles: seq<seq<int>>)
    ensures forall c :: c in cycles ==> SimpleCycle(GraphOf(tasks), c)
    ensures forall x :: x in GraphOf(tasks) && x in GraphOf(tasks)[x] ==> [x, x] in cycles
    ensures cycles == [] <==> Acyclic(GraphOf(tasks))
  {
    var graph, order := BuildGraph(tasks);
    cycles := [];
    var visited: set<int> := {};
    var onStack: set<int> := {};
    ghost var finished: seq<int> := [];
    var i := 0;
    while i < |order|
      invariant 0 <= i <= |order|
      invariant onStack == {}
      invariant visited <= graph.Keys && visited == Elems(finished)
      invariant forall j :: 0 <= j < i ==> order[j] in visited
      invariant forall c :: c in cycles ==> SimpleCycle(graph, c)
      invariant cycles == [] ==> Ordered(graph, finished)
      invariant forall x :: x in finished && x in graph[x] ==> [x, x] in cycles
    {
      var id := order[i];
      if id !in visited {
        assert Elems([]) == {};
        visited, onStack, cycles, finished := Dfs(graph, id, [], visited, onStack, cycles, finished);
      }
      i := i + 1;
    }
    assert forall x :: x in graph ==> x in finished by {
      forall x | x in graph ensures x in finished {
        var j :| 0 <= j < |order| && order[j] == x;
      }
    }
    if cycles == [] {
      OrderedAcyclic(graph, finished);
    } else {
      assert cycles[0] in cycles;
      CycleNotAcyclic(graph, cycles[0]);
    }
  }

  // -------------------------------------------------------------- examples

  function DependsOn(id: int, deps: seq<int>): Task {
    Task(id, "", Wrappers.None, Missing, Missing, Wrappers.Some(deps))
  }

  /** A task listing itself, a two-task loop and a three-task loop each contain a cycle. */
  lemma CyclicExamples()
    ensures !Acyclic(GraphOf([DependsOn(1, [1])]))
    ensures !Acyclic(GraphOf([DependsOn(1, [2]), DependsOn(2, [1])]))
    ensures !Acyclic(GraphOf([DependsOn(1, [3]), DependsOn(2, [1]), DependsOn(3, [2])]))
  {
    var g1 := GraphOf([DependsOn(1, [1])]);
    assert [DependsOn(1, [1])][..0] == [];
    assert IsCycle(g1, [1, 1]);
    var two := [DependsOn(1, [2]), DependsOn(2, [1])];
    assert two[..1] == [DependsOn(1, [2])] && two[..1][..0] == [];
    assert IsCycle(GraphOf(two), [1, 2, 1]);
    var three := [DependsOn(1, [3]), DependsOn(2, [1]), DependsOn(3, [2])];
    assert three[..2] == [DependsOn(1, [3]), DependsOn(2, [1])];
    assert three[..2][..1] == [DependsOn(1, [3])] && three[..2][..1][..0] == [];
    assert IsCycle(GraphOf(three), [1, 3, 2, 1]);
  }

  /** A chain of dependencies has no cycle. */
  lemma ChainIsAcyclic()
    ensures Acyclic(GraphOf([DependsOn(1, []), DependsOn(2, [1]), DependsOn(3, [2])]))
  {
    var chain := [DependsOn(1, []), DependsOn(2, [1]), DependsOn(3, [2])];
    assert chain[..2] == [DependsOn(1, []), DependsOn(2, [1])];
    assert chain[..2][..1] == [DependsOn(1, [])] && chain[..2][..1][..0] == [];
    var g := GraphOf(chain);
    assert GraphOf(chain[..2][..1]) == map[1 := []];
    assert GraphOf(chain[..2]) == map[1 := [], 2 := [1]];
    assert g == map[1 := [], 2 := [1], 3 := [2]];
    var fin := [1, 2, 3];
    assert fin[..0] == [] && fin[..1] == [1] && fin[..2] == [1, 2];
    assert Ordered(g, fin) by {
      forall i, v | 0 <= i < |fin| && fin[i] in g && v in g[fin[i]] && v in g ensures v in fin[..i] {
        assert i == 0 || i == 1 || i == 2;
      }
    }
    OrderedAcyclic(g, fin);
  }
}
