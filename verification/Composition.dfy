/** The dependency-graph composer: registration, graph validation, lazy resolution and eager building. */
module FactoryGraph {
  type Name = string

  /** What each registered component declares it needs. */
  type Graph = map<Name, seq<Name>>

  ghost predicate Edge(g: Graph, a: Name, b: Name) {
    a in g && b in g[a]
  }

  /** Every dependency that a registered component names is itself registered. */
  ghost predicate Closed(g: Graph) {
    forall a, b :: Edge(g, a, b) ==> b in g
  }

  ghost predicate IsPath(g: Graph, p: seq<Name>) {
    p != [] && forall i :: 0 <= i < |p| - 1 ==> Edge(g, p[i], p[i + 1])
  }

  ghost predicate IsCycle(g: Graph, c: seq<Name>) {
    |c| >= 2 && IsPath(g, c) && c[0] == c[|c| - 1]
  }

  ghost predicate Acyclic(g: Graph) {
    forall c :: !IsCycle(g, c)
  }

  ghost predicate Distinct(s: seq<Name>) {
    forall i, j :: 0 <= i < j < |s| ==> s[i] != s[j]
  }

  ghost predicate PathBetween(g: Graph, p: seq<Name>, a: Name, b: Name) {
    IsPath(g, p) && p[0] == a && p[|p| - 1] == b
  }

  ghost predicate Reaches(g: Graph, a: Name, b: Name) {
    exists p :: PathBetween(g, p, a, b)
  }

  /** `order` lists registered names without repetition, each after everything it needs. */
  ghost predicate Topological(g: Graph, order: seq<Name>) {
    && Distinct(order)
    && (forall i :: 0 <= i < |order| ==> order[i] in g)
    && (forall i {:trigger NeedsBefore(g, order, i)} :: 0 <= i < |order| ==> NeedsBefore(g, order, i))
  }

  ghost predicate NeedsBefore(g: Graph, order: seq<Name>, i: int)
    requires 0 <= i < |order| && order[i] in g
  {
    forall d :: d in g[order[i]] ==> d in order[..i]
  }

  lemma ReachesSelf(g: Graph, a: Name)
    ensures Reaches(g, a, a)
  {
    assert PathBetween(g, [a], a, a);
  }

  lemma ReachesStep(g: Graph, a: Name, b: Name, c: Name)
    requires Reaches(g, a, b) && Edge(g, b, c)
    ensures Reaches(g, a, c)
  {
    var p :| PathBetween(g, p, a, b);
    assert PathBetween(g, p + [c], a, c);
  }

  /** Following edges out of a topologically ordered prefix only ever moves to earlier positions. */
  lemma {:induction false} PathDescends(g: Graph, order: seq<Name>, p: seq<Name>, i: nat) returns (j: nat)
    requires Topological(g, order) && IsPath(g, p) && i < |order| && p[0] == order[i]
    ensures j <= i && order[j] == p[|p| - 1]
    ensures |p| >= 2 ==> j < i
  {
    if |p| == 1 {
      j := i;
    } else {
      assert Edge(g, p[0], p[1]) && NeedsBefore(g, order, i);
      var k :| 0 <= k < i && order[..i][k] == p[1];
      assert forall m :: 0 <= m < |p| - 2 ==> Edge(g, p[1..][m], p[1..][m + 1]) by {
        forall m | 0 <= m < |p| - 2 ensures Edge(g, p[1..][m], p[1..][m + 1]) {
          assert Edge(g, p[m + 1], p[m + 2]);
        }
      }
      j := PathDescends(g, order, p[1..], k);
    }
  }

  /** No cycle passes through a name of a topological order. */
  lemma TopologicalHasNoCycle(g: Graph, order: seq<Name>, c: seq<Name>)
    requires Topological(g, order) && c != [] && c[0] in order
    ensures !IsCycle(g, c)
  {
    if IsCycle(g, c) {
      var i :| 0 <= i < |order| && order[i] == c[0];
      var j := PathDescends(g, order, c, i);
    }
  }

  /** A graph whose names can all be put in topological order has no cycle and no missing name. */
  lemma TopologicalCoverImpliesAcyclic(g: Graph, order: seq<Name>)
    requires Topological(g, order) && forall n :: n in g ==> n in order
    ensures Closed(g) && Acyclic(g)
  {
    forall a, b | Edge(g, a, b) ensures b in g {
      var i :| 0 <= i < |order| && order[i] == a;
      assert NeedsBefore(g, order, i);
    }
    forall c ensures !IsCycle(g, c) {
      if IsCycle(g, c) {
        assert Edge(g, c[0], c[1]);
        TopologicalHasNoCycle(g, order, c);
      }
    }
  }

  /** Everything reachable from a name of a topological order is in the order. */
  lemma TopologicalIsReachClosed(g: Graph, order: seq<Name>, a: Name, b: Name)
    requires Topological(g, order) && a in order && Reaches(g, a, b)
    ensures b in order
  {
    var p :| PathBetween(g, p, a, b);
    var i :| 0 <= i < |order| && order[i] == a;
    var j := PathDescends(g, order, p, i);
  }

  /** Appending a name whose needs are already listed keeps the order topological. */
  lemma TopologicalAppend(g: Graph, order: seq<Name>, n: Name)
    requires Topological(g, order) && n in g && n !in order
    requires forall d :: d in g[n] ==> d in order
    ensures Topological(g, order + [n])
  {
    var o := order + [n];
    forall i | 0 <= i < |o| ensures NeedsBefore(g, o, i) {
      if i < |order| {
        assert NeedsBefore(g, order, i);
        assert o[..i] == order[..i];
      } else {
        assert o[..i] == order;
      }
    }
  }

  /** A walk that returns to one of its own names contains a cycle: the part from that name on. */
  lemma LassoContainsCycle(g: Graph, walk: seq<Name>, start: nat)
    requires IsPath(g, walk) && start < |walk| - 1 && walk[start] == walk[|walk| - 1]
    ensures IsCycle(g, walk[start..])
  {
    forall i | 0 <= i < |walk[start..]| - 1 ensures Edge(g, walk[start..][i], walk[start..][i + 1]) {
      assert Edge(g, walk[start + i], walk[start + i + 1]);
    }
  }

  lemma AcyclicPathIsDistinct(g: Graph, p: seq<Name>)
    requires Acyclic(g) && IsPath(g, p)
    ensures Distinct(p)
  {
    forall i, j | 0 <= i < j < |p| ensures p[i] != p[j] {
      if p[i] == p[j] {
        var walk := p[..j + 1];
        assert forall k :: 0 <= k < |walk| - 1 ==> Edge(g, p[k], p[k + 1]);
        LassoContainsCycle(g, walk, i);
      }
    }
  }

  lemma ReachIsRegistered(g: Graph, a: Name, b: Name)
    requires Closed(g) && a in g && Reaches(g, a, b)
    ensures b in g
  {
    var p :| PathBetween(g, p, a, b);
    if |p| >= 2 {
      assert Edge(g, p[|p| - 2], p[|p| - 1]);
    }
  }

  lemma DistinctWithinBound(s: seq<Name>, keys: set<Name>)
    requires Distinct(s) && forall n :: n in s ==> n in keys
    ensures |s| <= |keys|
    decreases |s|
  {
    if s != [] {
      var last := s[|s| - 1];
      assert last in s;
      forall n | n in s[..|s| - 1] ensures n in keys - {last} {
        assert n in s;
      }
      DistinctWithinBound(s[..|s| - 1], keys - {last});
    }
  }

  // ----- validate_factory_graph

  datatype Verdict =
    | Accepted
    | MissingDependency(owner: Name, dependency: Name)
    | CircularDependency(cycle: seq<Name>)

  datatype Mark = Visiting | Done

  /** The names on the path are those being visited, and the finished ones those marked as done. */
  ghost predicate Marked(g: Graph, states: map<Name, Mark>, path: seq<Name>, finished: seq<Name>) {
    && (forall n :: n in states ==> n in g)
    && (forall n :: n in path <==> n in states && states[n] == Visiting)
    && (forall n :: n in finished <==> n in states && states[n] == Done)
  }

  ghost predicate SimplePath(g: Graph, path: seq<Name>) {
    Distinct(path) && (path != [] ==> IsPath(g, path))
  }

  /** What `states`, `path` and the finishing order say about each other while a search is under way. */
  ghost predicate SearchState(g: Graph, states: map<Name, Mark>, path: seq<Name>, finished: seq<Name>) {
    SimplePath(g, path) && Marked(g, states, path, finished) && Topological(g, finished)
  }

  ghost predicate Extends(g: Graph, path: seq<Name>, name: Name) {
    path != [] ==> Edge(g, path[|path| - 1], name)
  }

  lemma PathExtends(g: Graph, path: seq<Name>, name: Name)
    requires path != [] ==> IsPath(g, path)
    requires Extends(g, path, name)
    ensures IsPath(g, path + [name])
  {
    var walk := path + [name];
    forall i | 0 <= i < |walk| - 1 ensures Edge(g, walk[i], walk[i + 1]) {
      if i < |path| - 1 {
        assert Edge(g, path[i], path[i + 1]);
      }
    }
  }

  /** A name met again while it is being visited closes a cycle with the path. */
  lemma VisitingIsOnPath(g: Graph, states: map<Name, Mark>, path: seq<Name>, finished: seq<Name>, name: Name)
    requires SearchState(g, states, path, finished) && Extends(g, path, name)
    requires name in states && states[name] == Visiting
    ensures path != [] && IsPath(g, path) && Distinct(path) && name in path && Edge(g, path[|path| - 1], name)
  {
  }

  lemma MarkKeys(states: map<Name, Mark>, name: Name, mark: Mark)
    ensures states[name := mark].Keys == states.Keys + {name}
  {
  }

  lemma InAppend(path: seq<Name>, name: Name)
    ensures forall n :: n in path + [name] <==> n in path || n == name
    ensures (path + [name])[|path|] == name && (path + [name])[..|path|] == path
  {
  }

  lemma SimplePathExtends(g: Graph, path: seq<Name>, name: Name)
    requires SimplePath(g, path) && Extends(g, path, name) && name !in path
    ensures SimplePath(g, path + [name])
  {
    PathExtends(g, path, name);
  }

  lemma SimplePathPrefix(g: Graph, path: seq<Name>, name: Name)
    requires SimplePath(g, path + [name])
    ensures SimplePath(g, path) && name !in path
  {
    var whole := path + [name];
    assert forall i :: 0 <= i < |path| ==> path[i] == whole[i];
    assert name == whole[|path|];
    forall i | 0 <= i < |path| - 1 ensures Edge(g, path[i], path[i + 1]) {
      assert Edge(g, whole[i], whole[i + 1]);
    }
  }

  lemma MarkedVisiting(g: Graph, states: map<Name, Mark>, path: seq<Name>, finished: seq<Name>, name: Name)
    requires Marked(g, states, path, finished) && name in g && name !in states
    ensures Marked(g, states[name := Visiting], path + [name], finished)
  {
    InAppend(path, name);
  }

  lemma MarkedDone(g: Graph, states: map<Name, Mark>, path: seq<Name>, finished: seq<Name>, name: Name)
    requires Marked(g, states, path + [name], finished) && name in g && name !in path
    ensures Marked(g, states[name := Done], path, finished + [name]) && name !in finished
  {
    InAppend(path, name);
    InAppend(finished, name);
    assert name in path + [name];
  }

  lemma EnterKeeps(g: Graph, states: map<Name, Mark>, path: seq<Name>, finished: seq<Name>, name: Name)
    requires SearchState(g, states, path, finished) && name in g && name !in states && Extends(g, path, name)
    ensures SearchState(g, states[name := Visiting], path + [name], finished)
  {
    assert name !in path;
    SimplePathExtends(g, path, name);
    MarkedVisiting(g, states, path, finished, name);
  }

  lemma LeaveKeeps(g: Graph, states: map<Name, Mark>, path: seq<Name>, finished: seq<Name>, name: Name)
    requires SearchState(g, states, path + [name], finished) && name in g
    requires forall d :: d in g[name] ==> d in finished
    ensures SearchState(g, states[name := Done], path, finished + [name])
  {
    SimplePathPrefix(g, path, name);
    MarkedDone(g, states, path, finished, name);
    TopologicalAppend(g, finished, name);
  }

  /** Cutting the walk at the first occurrence of the repeated name leaves a simple cycle. */
  method CloseCycle(ghost g: Graph, path: seq<Name>, name: Name) returns (cycle: seq<Name>)
    requires path != [] && IsPath(g, path) && Distinct(path) && name in path && Edge(g, path[|path| - 1], name)
    ensures IsCycle(g, cycle) && Distinct(cycle[1..]) && cycle[0] == name
  {
    var start := 0;
    while path[start] != name
      invariant 0 <= start < |path| && name !in path[..start]
      decreases |path| - start
    {
      start := start + 1;
    }
    cycle := path[start..] + [name];
    PathExtends(g, path, name);
    assert cycle == (path + [name])[start..];
    LassoContainsCycle(g, path + [name], start);
  }

  /** The `states` dictionary and the `path` list that the nested `visit` updates. */
  class GraphVisitor {
    const graph: Graph
    var states: map<Name, Mark>
    var path: seq<Name>
    ghost var finished: seq<Name>

    constructor (graph: Graph)
      ensures this.graph == graph && states == map[] && path == [] && finished == []
    {
      this.graph := graph;
      states, path, finished := map[], [], [];
    }

    ghost predicate Valid()
      reads this
    {
      SearchState(graph, states, path, finished)
    }

    /** Marks `name` and everything it needs as done, or reports a cycle met on the way. */
    method Visit(name: Name) returns (r: Verdict)
      requires Closed(graph) && Valid() && name in graph && Extends(graph, path, name)
      modifies this
      ensures !r.MissingDependency?
      ensures r.CircularDependency? ==> IsCycle(graph, r.cycle) && Distinct(r.cycle[1..])
      ensures r.Accepted? ==> Valid() && path == old(path) && name in finished
      ensures r.Accepted? ==> old(finished) <= finished && old(states.Keys) <= states.Keys
      decreases graph.Keys - states.Keys, 1
    {
      if name in states && states[name] == Visiting {
        VisitingIsOnPath(graph, states, path, finished, name);
        var cycle := CloseCycle(graph, path, name);
        return CircularDependency(cycle);
      }
      if name in states {
        return Accepted;
      }
      r := VisitNew(name);
    }

    /** A name without a mark: it is marked and put on the path, and after its dependencies taken off again. */
    method VisitNew(name: Name) returns (r: Verdict)
      requires Closed(graph) && Valid() && name in graph && name !in states && Extends(graph, path, name)
      modifies this
      ensures !r.MissingDependency?
      ensures r.CircularDependency? ==> IsCycle(graph, r.cycle) && Distinct(r.cycle[1..])
      ensures r.Accepted? ==> Valid() && path == old(path) && name in finished
      ensures r.Accepted? ==> old(finished) <= finished && old(states.Keys) <= states.Keys
      decreases graph.Keys - states.Keys, 0
    {
      Enter(name);
      r := VisitDependencies(name);
      if r.Accepted? {
        Leave(name);
      }
    }

    /** Before the dependencies. */
    method Enter(name: Name)
      requires Valid() && name in graph && name !in states && Extends(graph, path, name)
      modifies this
      ensures Valid() && path == old(path) + [name] && finished == old(finished)
      ensures states.Keys == old(states.Keys) + {name}
      ensures graph.Keys - states.Keys < graph.Keys - old(states.Keys)
    {
      EnterKeeps(graph, states, path, finished, name);
      MarkKeys(states, name, Visiting);
      assert name in graph.Keys - old(states.Keys);
      states := states[name := Visiting];
      path := path + [name];
    }

    /** After the dependencies. */
    method Leave(name: Name)
      requires Valid() && name in graph && path != [] && path[|path| - 1] == name
      requires forall d :: d in graph[name] ==> d in finished
      modifies this
      ensures Valid() && path == old(path)[..|old(path)| - 1] && finished == old(finished) + [name]
      ensures states.Keys == old(states.Keys) + {name}
    {
      assert path == path[..|path| - 1] + [name];
      LeaveKeeps(graph, states, path[..|path| - 1], finished, name);
      MarkKeys(states, name, Done);
      path := path[..|path| - 1];
      states := states[name := Done];
      finished := finished + [name];
    }

    /** The loop over the dependencies of `name`, which is on top of the path. */
    method VisitDependencies(name: Name) returns (r: Verdict)
      requires Closed(graph) && Valid() && name in graph && path != [] && path[|path| - 1] == name
      modifies this
      ensures !r.MissingDependency?
      ensures r.CircularDependency? ==> IsCycle(graph, r.cycle) && Distinct(r.cycle[1..])
      ensures r.Accepted? ==> Valid() && path == old(path) && forall d :: d in graph[name] ==> d in finished
      ensures r.Accepted? ==> old(finished) <= finished && old(states.Keys) <= states.Keys
      decreases graph.Keys - states.Keys, 2
    {
      var dependencies := graph[name];
      for i := 0 to |dependencies|
        invariant Valid() && path == old(path)
        invariant old(states.Keys) <= states.Keys && old(finished) <= finished
        invariant forall d :: d in dependencies[..i] ==> d in finished
      {
        assert Edge(graph, name, dependencies[i]);
        assert graph.Keys - states.Keys <= graph.Keys - old(states.Keys);
        r := Visit(dependencies[i]);
        if !r.Accepted? {
          return;
        }
      }
      return Accepted;
    }
  }

  ghost predicate FirstMissingAt(g: Graph, names: seq<Name>, i: nat, j: nat)
    requires forall n :: n in names ==> n in g
  {
    && i < |names| && j < |g[names[i]]| && g[names[i]][j] !in g
    && (forall k, d :: 0 <= k < i && d in g[names[k]] ==> d in g)
    && (forall k :: 0 <= k < j ==> g[names[i]][k] in g)
  }

  /** The first unregistered dependency in registration order, then declaration order. */
  ghost predicate FirstMissing(g: Graph, names: seq<Name>, owner: Name, dependency: Name)
    requires forall n :: n in names ==> n in g
  {
    exists i: nat, j: nat :: FirstMissingAt(g, names, i, j) && names[i] == owner && g[owner][j] == dependency
  }

  /** The first loop of the check: every declared dependency is registered, or the first that is not. */
  method CheckReferences(graph: Graph, names: seq<Name>) returns (r: Verdict)
    requires forall n :: n in names <==> n in graph
    ensures !r.CircularDependency? && (r.Accepted? <==> Closed(graph))
    ensures r.MissingDependency? ==> FirstMissing(graph, names, r.owner, r.dependency)
  {
    for i := 0 to |names|
      invariant forall k, d :: 0 <= k < i && d in graph[names[k]] ==> d in graph
    {
      var dependencies := graph[names[i]];
      for j := 0 to |dependencies|
        invariant forall k :: 0 <= k < j ==> dependencies[k] in graph
      {
        if dependencies[j] !in graph {
          assert Edge(graph, names[i], dependencies[j]);
          assert FirstMissingAt(graph, names, i, j);
          return MissingDependency(names[i], dependencies[j]);
        }
      }
    }
    forall a, b | Edge(graph, a, b) ensures b in graph {
      var k :| 0 <= k < |names| && names[k] == a;
    }
    return Accepted;
  }

  /** The second loop of the check: a search from every name, in registration order. */
  method SearchCycles(graph: Graph, names: seq<Name>) returns (r: Verdict)
    requires Closed(graph) && forall n :: n in names <==> n in graph
    ensures !r.MissingDependency?
    ensures r.Accepted? ==> Acyclic(graph)
    ensures r.CircularDependency? ==> IsCycle(graph, r.cycle) && Distinct(r.cycle[1..])
  {
    var visitor := new GraphVisitor(graph);
    for i := 0 to |names|
      invariant visitor.graph == graph && visitor.Valid() && visitor.path == []
      invariant fresh(visitor)
      invariant forall j :: 0 <= j < i ==> names[j] in visitor.finished
    {
      r := visitor.Visit(names[i]);
      if !r.Accepted? {
        return;
      }
    }
    TopologicalCoverImpliesAcyclic(graph, visitor.finished);
    return Accepted;
  }

  /** Completeness and soundness of the check, over every finite graph and registration order. */
  method ValidateFactoryGraph(graph: Graph, names: seq<Name>) returns (r: Verdict)
    requires forall n :: n in names <==> n in graph
    ensures r.Accepted? <==> Closed(graph) && Acyclic(graph)
    ensures r.MissingDependency? <==> !Closed(graph)
    ensures r.MissingDependency? ==> FirstMissing(graph, names, r.owner, r.dependency)
    ensures r.CircularDependency? ==> IsCycle(graph, r.cycle) && Distinct(r.cycle[1..])
  {
    r := CheckReferences(graph, names);
    if r.Accepted? {
      r := SearchCycles(graph, names);
    }
  }
}
