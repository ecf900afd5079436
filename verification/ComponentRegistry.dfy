/** Registration and construction of components over the validated (or unvalidated) factory graph. */
module ComponentRegistry {
  import opened Wrappers
  import opened FactoryGraph
  import opened Text

  datatype BuilderOutcome<+V> = Returned(component: V) | ReturnedNone | Raised

  /** A deterministic builder; `validator` is constantly true when the declaration has none. */
  datatype ComponentFactory<!V> = ComponentFactory(
    dependencies: seq<Name>, builder: seq<V> -> BuilderOutcome<V>, validator: V -> bool)
  {
    /** The component, or None where `create` raises FactoryValidationError. */
    function Create(arguments: seq<V>): Option<V> {
      match builder(arguments)
      case Returned(c) => if validator(c) then Some(c) else None
      case ReturnedNone => None
      case Raised => None
    }
  }

  type Factories<!V> = map<Name, ComponentFactory<V>>

  ghost function Needs<V>(fs: Factories<V>): Graph {
    map n | n in fs :: fs[n].dependencies
  }

  function Arguments<V>(dependencies: seq<Name>, values: map<Name, V>): seq<V>
    requires forall d :: d in dependencies ==> d in values
  {
    seq(|dependencies|, i requires 0 <= i < |dependencies| => values[dependencies[i]])
  }

  /** `calls` is a complete record of factory calls: each component once, after all it needs,
      and each value is what its factory returns on the values of its dependencies. */
  ghost predicate Construction<V(!new)>(fs: Factories<V>, calls: seq<Name>, values: map<Name, V>) {
    && Topological(Needs(fs), calls)
    && (forall n :: n in calls <==> n in values)
    && (forall n {:trigger MadeBy(fs, n, values)} :: n in calls ==> MadeBy(fs, n, values))
  }

  /** What a builder is given: the value of each declared dependency, in the order of declaration. */
  ghost predicate Given<V>(f: ComponentFactory<V>, values: map<Name, V>, given: seq<V>) {
    && |given| == |f.dependencies|
    && forall i :: 0 <= i < |given| ==> f.dependencies[i] in values && given[i] == values[f.dependencies[i]]
  }

  /** The builder raised, returned nothing, or returned what the validator refuses. */
  predicate Fails<V>(f: ComponentFactory<V>, outcome: BuilderOutcome<V>) {
    match outcome
    case Returned(c) => !f.validator(c)
    case ReturnedNone => true
    case Raised => true
  }

  ghost predicate MadeBy<V(!new)>(fs: Factories<V>, n: Name, values: map<Name, V>) {
    && n in fs && n in values && fs[n].validator(values[n])
    && exists given :: Given(fs[n], values, given) && fs[n].builder(given) == Returned(values[n])
  }

  /** Some run of factory calls that respects the dependencies reaches `n` without a failure. */
  ghost predicate Constructible<V(!new)>(fs: Factories<V>, n: Name) {
    exists calls, values: map<Name, V> :: Construction(fs, calls, values) && n in values
  }

  ghost predicate AllConstructible<V(!new)>(fs: Factories<V>) {
    forall n :: n in fs ==> Constructible(fs, n)
  }

  /** `n`'s factory fails on the values that a failure-free run gives its dependencies. */
  ghost predicate RefusedAfter<V(!new)>(fs: Factories<V>, calls: seq<Name>, values: map<Name, V>, n: Name) {
    && Construction(fs, calls, values) && n in fs
    && exists given :: Given(fs[n], values, given) && Fails(fs[n], fs[n].builder(given))
  }

  ghost predicate Refused<V(!new)>(fs: Factories<V>, n: Name) {
    exists calls, values: map<Name, V> :: RefusedAfter(fs, calls, values, n)
  }

  lemma ArgumentsAreGiven<V>(f: ComponentFactory<V>, values: map<Name, V>, given: seq<V>)
    requires Given(f, values, given)
    ensures forall d :: d in f.dependencies ==> d in values
    ensures Arguments(f.dependencies, values) == given
  {
  }

  /** `Create` on the dependencies' values makes what the builder and the validator agree on, or fails. */
  lemma CreateMakes<V(!new)>(fs: Factories<V>, n: Name, values: map<Name, V>, v: V)
    requires n in fs && forall d :: d in fs[n].dependencies ==> d in values
    ensures var given := Arguments(fs[n].dependencies, values);
      && Given(fs[n], values, given)
      && (fs[n].Create(given) == Some(v) <==> fs[n].builder(given) == Returned(v) && fs[n].validator(v))
      && (fs[n].Create(given) == None <==> Fails(fs[n], fs[n].builder(given)))
  {
  }

  lemma MadeCreates<V(!new)>(fs: Factories<V>, n: Name, values: map<Name, V>)
    requires MadeBy(fs, n, values)
    ensures forall d :: d in fs[n].dependencies ==> d in values
    ensures fs[n].Create(Arguments(fs[n].dependencies, values)) == Some(values[n])
  {
    var given :| Given(fs[n], values, given) && fs[n].builder(given) == Returned(values[n]);
    ArgumentsAreGiven(fs[n], values, given);
  }

  lemma RefusedCreatesNot<V(!new)>(fs: Factories<V>, calls: seq<Name>, values: map<Name, V>, n: Name)
    requires RefusedAfter(fs, calls, values, n)
    ensures forall d :: d in fs[n].dependencies ==> d in values
    ensures fs[n].Create(Arguments(fs[n].dependencies, values)) == None
  {
    var given :| Given(fs[n], values, given) && Fails(fs[n], fs[n].builder(given));
    ArgumentsAreGiven(fs[n], values, given);
  }

  /** Any two failure-free runs give every component they share the same value. */
  lemma {:induction false} ConstructionsAgree<V(!new)>(fs: Factories<V>, calls: seq<Name>, values: map<Name, V>,
                                                 calls': seq<Name>, values': map<Name, V>, i: nat)
    requires Construction(fs, calls, values) && Construction(fs, calls', values')
    requires i < |calls| && calls[i] in values'
    ensures values[calls[i]] == values'[calls[i]]
    decreases i
  {
    var n := calls[i];
    assert MadeBy(fs, n, values) && MadeBy(fs, n, values');
    MadeCreates(fs, n, values);
    MadeCreates(fs, n, values');
    assert NeedsBefore(Needs(fs), calls, i);
    var needs := fs[n].dependencies;
    forall k | 0 <= k < |needs| ensures values[needs[k]] == values'[needs[k]] {
      assert needs[k] in Needs(fs)[n];
      var j :| 0 <= j < i && calls[..i][j] == needs[k];
      ConstructionsAgree(fs, calls, values, calls', values', j);
    }
    assert Arguments(needs, values) == Arguments(needs, values');
  }

  lemma ConstructionsAgreeOn<V(!new)>(fs: Factories<V>, calls: seq<Name>, values: map<Name, V>,
                                calls': seq<Name>, values': map<Name, V>, n: Name)
    requires Construction(fs, calls, values) && Construction(fs, calls', values')
    requires n in values && n in values'
    ensures values[n] == values'[n]
  {
    var i :| 0 <= i < |calls| && calls[i] == n;
    ConstructionsAgree(fs, calls, values, calls', values', i);
  }

  /** A factory refuses the same way in every failure-free run that has built its dependencies. */
  lemma RefusalRepeats<V(!new)>(fs: Factories<V>, calls: seq<Name>, values: map<Name, V>, n: Name,
                          calls': seq<Name>, values': map<Name, V>)
    requires RefusedAfter(fs, calls, values, n) && Construction(fs, calls', values')
    requires forall d :: d in fs[n].dependencies ==> d in values'
    ensures fs[n].Create(Arguments(fs[n].dependencies, values')) == None
  {
    RefusedCreatesNot(fs, calls, values, n);
    forall d | d in fs[n].dependencies ensures values[d] == values'[d] {
      ConstructionsAgreeOn(fs, calls, values, calls', values', d);
    }
    assert Arguments(fs[n].dependencies, values) == Arguments(fs[n].dependencies, values');
  }

  lemma CreateFails<V(!new)>(fs: Factories<V>, calls: seq<Name>, values: map<Name, V>, n: Name)
    requires Construction(fs, calls, values) && n in fs && forall d :: d in fs[n].dependencies ==> d in values
    requires fs[n].Create(Arguments(fs[n].dependencies, values)) == None
    ensures Refused(fs, n) && !Constructible(fs, n)
  {
    var given := Arguments(fs[n].dependencies, values);
    match fs[n].builder(given) {
      case Returned(c) => CreateMakes(fs, n, values, c);
      case _ =>
    }
    assert Given(fs[n], values, given) && Fails(fs[n], fs[n].builder(given));
    assert RefusedAfter(fs, calls, values, n);
    RefusalIsFinal(fs, calls, values, n);
  }

  lemma RefusalIsFinal<V(!new)>(fs: Factories<V>, calls: seq<Name>, values: map<Name, V>, n: Name)
    requires RefusedAfter(fs, calls, values, n)
    ensures !Constructible(fs, n)
  {
    forall calls', values': map<Name, V> | Construction(fs, calls', values') ensures n !in values' {
      if n in calls' {
        assert MadeBy(fs, n, values');
        MadeCreates(fs, n, values');
        RefusalRepeats(fs, calls, values, n, calls', values');
      }
    }
  }

  /** What a constructible component reaches is constructible too, so it is registered and on no cycle. */
  lemma ConstructibleReach<V(!new)>(fs: Factories<V>, a: Name, b: Name)
    requires Constructible(fs, a) && Reaches(Needs(fs), a, b)
    ensures Constructible(fs, b) && b in fs
    ensures forall c :: c != [] && c[0] == b ==> !IsCycle(Needs(fs), c)
  {
    var calls, values :| Construction<V>(fs, calls, values) && a in values;
    TopologicalIsReachClosed(Needs(fs), calls, a, b);
    forall c | c != [] && c[0] == b ensures !IsCycle(Needs(fs), c) {
      TopologicalHasNoCycle(Needs(fs), calls, c);
    }
  }

  lemma AllConstructibleIsSound<V(!new)>(fs: Factories<V>)
    requires AllConstructible(fs)
    ensures Closed(Needs(fs)) && Acyclic(Needs(fs))
  {
    var g := Needs(fs);
    forall a, b | Edge(g, a, b) ensures b in g {
      ReachesSelf(g, a);
      ReachesStep(g, a, a, b);
      ConstructibleReach(fs, a, b);
    }
    forall c ensures !IsCycle(g, c) {
      if IsCycle(g, c) {
        assert Edge(g, c[0], c[1]);
        ReachesSelf(g, c[0]);
        ConstructibleReach(fs, c[0], c[0]);
      }
    }
  }

  lemma ConstructionAppend<V(!new)>(fs: Factories<V>, calls: seq<Name>, values: map<Name, V>, n: Name, v: V)
    requires Construction(fs, calls, values) && n in fs && n !in values
    requires forall d :: d in fs[n].dependencies ==> d in values
    requires fs[n].Create(Arguments(fs[n].dependencies, values)) == Some(v)
    ensures Construction(fs, calls + [n], values[n := v])
  {
    TopologicalAppend(Needs(fs), calls, n);
    var values' := values[n := v];
    forall m | m in calls + [n] ensures MadeBy(fs, m, values') {
      if m in calls {
        assert MadeBy(fs, m, values);
        MadePersists(fs, m, values, n, v);
      } else {
        CreateMakes(fs, n, values, v);
        assert Given(fs[n], values', Arguments(fs[n].dependencies, values));
      }
    }
  }

  lemma MadePersists<V(!new)>(fs: Factories<V>, m: Name, values: map<Name, V>, n: Name, v: V)
    requires MadeBy(fs, m, values) && n !in values
    ensures MadeBy(fs, m, values[n := v])
  {
    var given :| Given(fs[m], values, given) && fs[m].builder(given) == Returned(values[m]);
    assert Given(fs[m], values[n := v], given);
  }

  // ----- the order of the calls

  /** The calls made once `name` is constructed: depth first, dependencies from left to right, each component
      after its dependencies and never twice. `under` are the components under construction. */
  ghost function DepthFirst<V>(fs: Factories<V>, under: set<Name>, name: Name, calls: seq<Name>): seq<Name>
    decreases fs.Keys - under, 0, 0
  {
    if name in calls || name in under || name !in fs then calls
    else DepthFirstAll(fs, under + {name}, fs[name].dependencies, calls) + [name]
  }

  ghost function DepthFirstAll<V>(fs: Factories<V>, under: set<Name>, names: seq<Name>, calls: seq<Name>): seq<Name>
    decreases fs.Keys - under, 1, |names|
  {
    if names == [] then calls
    else DepthFirst(fs, under, names[|names| - 1], DepthFirstAll(fs, under, names[..|names| - 1], calls))
  }

  lemma DepthFirstNext<V>(fs: Factories<V>, under: set<Name>, names: seq<Name>, i: nat, calls: seq<Name>)
    requires i < |names|
    ensures DepthFirstAll(fs, under, names[..i + 1], calls)
         == DepthFirst(fs, under, names[i], DepthFirstAll(fs, under, names[..i], calls))
  {
    assert names[..i + 1][..i] == names[..i];
  }

  function Elements(names: seq<Name>): set<Name> {
    set n | n in names
  }

  lemma ElementsNext(names: seq<Name>, i: nat)
    requires i < |names|
    ensures Elements(names[..i + 1]) == Elements(names[..i]) + {names[i]}
  {
  }

  // ----- resolve

  datatype Resolution<+V> =
    | Resolved(component: V)
    | NotRegistered(name: Name)
    | Rejected(verdict: Verdict)
    | Interrupted(cause: Obstacle)

  /** What can stop construction once it is under way. */
  datatype Obstacle =
    | MissingOnTheWay(owner: Name, dependency: Name)
    | CircularOnTheWay(trail: seq<Name>)
    | FactoryFailed(name: Name)

  /** The obstacle is really there, on a walk from `root`. */
  ghost predicate Genuine<V(!new)>(fs: Factories<V>, root: Name, obstacle: Obstacle) {
    match obstacle
    case MissingOnTheWay(owner, dependency) =>
      dependency !in fs && Reaches(Needs(fs), root, dependency)
      && (Edge(Needs(fs), owner, dependency) || owner == dependency == root)
    case CircularOnTheWay(trail) => IsLasso(Needs(fs), root, trail)
    case FactoryFailed(name) =>
      name in fs && Reaches(Needs(fs), root, name) && Refused(fs, name) && !Constructible(fs, name)
  }

  ghost predicate ActiveStack<V>(fs: Factories<V>, root: Name, active: seq<Name>) {
    && Distinct(active) && (forall n :: n in active ==> n in fs)
    && (active != [] ==> IsPath(Needs(fs), active) && active[0] == root)
  }

  ghost predicate Wanted<V>(fs: Factories<V>, root: Name, active: seq<Name>, name: Name) {
    if active == [] then name == root else Edge(Needs(fs), active[|active| - 1], name)
  }

  lemma WantedIsReachable<V>(fs: Factories<V>, root: Name, active: seq<Name>, name: Name)
    requires ActiveStack(fs, root, active) && Wanted(fs, root, active, name)
    ensures PathBetween(Needs(fs), active + [name], root, name) && Reaches(Needs(fs), root, name)
    ensures name in active ==> IsLasso(Needs(fs), root, active + [name])
    ensures name !in active && name in fs ==> ActiveStack(fs, root, active + [name])
  {
    PathExtends(Needs(fs), active, name);
    assert PathBetween(Needs(fs), active + [name], root, name);
    assert (active + [name])[..|active|] == active;
  }

  lemma ActivePop<V>(fs: Factories<V>, root: Name, active: seq<Name>)
    requires ActiveStack(fs, root, active) && active != []
    ensures ActiveStack(fs, root, active[..|active| - 1])
  {
    var outer := active[..|active| - 1];
    assert forall n :: n in outer ==> n in active;
    if outer != [] {
      forall i | 0 <= i < |outer| - 1 ensures Edge(Needs(fs), outer[i], outer[i + 1]) {
        assert Edge(Needs(fs), active[i], active[i + 1]);
      }
    }
  }

  /** The `resolved` dictionary and the `active` list of one `resolve` call. */
  class LazyConstruction<V(!new)> {
    const factories: Factories<V>
    const root: Name
    var resolved: map<Name, V>
    var active: seq<Name>
    ghost var calls: seq<Name>

    constructor (factories: Factories<V>, root: Name)
      ensures this.factories == factories && this.root == root
      ensures resolved == map[] && active == [] && calls == []
    {
      this.factories, this.root := factories, root;
      resolved, active, calls := map[], [], [];
    }

    ghost predicate Valid()
      reads this
    {
      && Construction(factories, calls, resolved) && ActiveStack(factories, root, active)
      && (forall n :: n in active ==> n !in resolved)
      && (forall n :: n in resolved ==> Reaches(Needs(factories), root, n))
    }

    /** Resolves `name`, which the top of the active stack asks for. */
    method Construct(name: Name) returns (r: Option<Obstacle>)
      requires Valid() && Wanted(factories, root, active, name)
      modifies this
      ensures r.None? ==> Valid() && active == old(active) && name in resolved
      ensures r.None? ==> calls == DepthFirst(factories, Elements(old(active)), name, old(calls))
      ensures r.None? ==> forall n :: n in old(resolved) ==> n in resolved
      ensures r.Some? ==> Genuine(factories, root, r.value)
      decreases factories.Keys - Elements(active), 0
    {
      WantedIsReachable(factories, root, active, name);
      if name in resolved {
        return None;
      }
      if name in active {
        return Some(CircularOnTheWay(active + [name]));
      }
      if name !in factories {
        var owner := if active != [] then active[|active| - 1] else root;
        return Some(MissingOnTheWay(owner, name));
      }
      ghost var outer := Elements(active);
      active := active + [name];
      assert Elements(active) == outer + {name};
      r := ConstructDependencies(name);
      if r.None? {
        ActivePop(factories, root, active);
        assert active[|active| - 1] == name && active[..|active| - 1] == old(active);
        assert name in active;
        active := active[..|active| - 1];
        r := CreateComponent(name);
      }
    }

    /** The dictionary comprehension that resolves a declaration's dependencies from left to right. */
    method ConstructDependencies(name: Name) returns (r: Option<Obstacle>)
      requires Valid() && active != [] && active[|active| - 1] == name && name in factories
      modifies this
      ensures r.None? ==> Valid() && active == old(active)
      ensures r.None? ==> forall n :: n in old(resolved) ==> n in resolved
      ensures r.None? ==> forall d :: d in factories[name].dependencies ==> d in resolved
      ensures r.None? ==>
        calls == DepthFirstAll(factories, Elements(active), factories[name].dependencies, old(calls))
      ensures r.Some? ==> Genuine(factories, root, r.value)
      decreases factories.Keys - Elements(active), 1
    {
      var dependencies := factories[name].dependencies;
      for i := 0 to |dependencies|
        invariant Valid() && active == old(active)
        invariant calls == DepthFirstAll(factories, Elements(active), dependencies[..i], old(calls))
        invariant forall n :: n in old(resolved) ==> n in resolved
        invariant forall d :: d in dependencies[..i] ==> d in resolved
      {
        assert Edge(Needs(factories), name, dependencies[i]);
        DepthFirstNext(factories, Elements(active), dependencies, i, old(calls));
        r := Construct(dependencies[i]);
        if r.Some? {
          return;
        }
        assert dependencies[..i + 1] == dependencies[..i] + [dependencies[i]];
      }
      assert dependencies[..|dependencies|] == dependencies;
      r := None;
    }

    /** Calls the factory on its resolved dependencies and stores what it makes. */
    method CreateComponent(name: Name) returns (r: Option<Obstacle>)
      requires Valid() && name in factories && name !in resolved && name !in active
      requires forall d :: d in factories[name].dependencies ==> d in resolved
      requires Reaches(Needs(factories), root, name)
      modifies this`resolved, this`calls
      ensures r.None? ==> Valid() && resolved.Keys == old(resolved.Keys) + {name} && calls == old(calls) + [name]
      ensures r.Some? ==> r.value == FactoryFailed(name) && Genuine(factories, root, r.value)
    {
      match factories[name].Create(Arguments(factories[name].dependencies, resolved)) {
        case None =>
          CreateFails(factories, calls, resolved, name);
          r := Some(FactoryFailed(name));
        case Some(component) =>
          ConstructionAppend(factories, calls, resolved, name, component);
          resolved := resolved[name := component];
          calls := calls + [name];
          r := None;
      }
    }
  }

  /** The reported trail is a walk from the requested component that ends where it has already been. */
  ghost predicate IsLasso(g: Graph, root: Name, trail: seq<Name>) {
    && |trail| >= 2 && IsPath(g, trail) && trail[0] == root && Distinct(trail[..|trail| - 1])
    && trail[|trail| - 1] in trail[..|trail| - 1]
  }

  /** Unlike the validator's report, this trail is itself a cycle only when it closes at the requested
      component; otherwise the cycle is the part from the first occurrence of the repeated name. */
  lemma LassoIsCycleWhenClosedAtRoot(g: Graph, root: Name, trail: seq<Name>)
    requires IsLasso(g, root, trail)
    ensures IsCycle(g, trail) <==> trail[|trail| - 1] == root
    ensures exists k :: 0 <= k < |trail| - 1 && IsCycle(g, trail[k..]) && Reaches(g, root, trail[k])
  {
    var k :| 0 <= k < |trail| - 1 && trail[..|trail| - 1][k] == trail[|trail| - 1];
    LassoContainsCycle(g, trail, k);
    assert forall i :: 0 <= i < k ==> Edge(g, trail[i], trail[i + 1]);
    assert PathBetween(g, trail[..k + 1], root, trail[k]);
  }

  lemma ConstructibleIsRegistered<V(!new)>(fs: Factories<V>, name: Name)
    ensures Constructible(fs, name) ==> name in fs
  {
    if Constructible(fs, name) {
      ReachesSelf(Needs(fs), name);
      ConstructibleReach(fs, name, name);
    }
  }

  lemma ClosedWalkIsFinal<V(!new)>(fs: Factories<V>, root: Name, trail: seq<Name>)
    requires root in fs && IsLasso(Needs(fs), root, trail)
    ensures !Constructible(fs, root) && !Acyclic(Needs(fs))
  {
    var g := Needs(fs);
    LassoIsCycleWhenClosedAtRoot(g, root, trail);
    var k :| 0 <= k < |trail| - 1 && IsCycle(g, trail[k..]) && Reaches(g, root, trail[k]);
    if Constructible(fs, root) {
      ConstructibleReach(fs, root, trail[k]);
    }
  }

  lemma MissingIsFinal<V(!new)>(fs: Factories<V>, root: Name, dependency: Name)
    requires root in fs && Reaches(Needs(fs), root, dependency) && dependency !in fs
    ensures !Constructible(fs, root) && !Closed(Needs(fs))
  {
    if Constructible(fs, root) {
      ConstructibleReach(fs, root, dependency);
    }
    if Closed(Needs(fs)) {
      ReachIsRegistered(Needs(fs), root, dependency);
    }
  }

  /** Each way of being interrupted shows that no order of calls could have succeeded; in a sound graph
      only a refusing factory remains. */
  lemma ObstacleIsFinal<V(!new)>(fs: Factories<V>, root: Name, obstacle: Obstacle)
    requires root in fs && Genuine(fs, root, obstacle)
    ensures !Constructible(fs, root)
    ensures Closed(Needs(fs)) && Acyclic(Needs(fs)) ==> obstacle.FactoryFailed?
  {
    match obstacle {
      case CircularOnTheWay(trail) => ClosedWalkIsFinal(fs, root, trail);
      case MissingOnTheWay(_, dependency) => MissingIsFinal(fs, root, dependency);
      case FactoryFailed(name) =>
        if Constructible(fs, root) {
          ConstructibleReach(fs, root, name);
        }
    }
  }

  // ----- build

  datatype BuildResult<+V> =
    | Built(components: map<Name, V>, order: seq<Name>)
    | BuildRejected(verdict: Verdict)
    | KeyError(name: Name)
    | RecursionError
    | BuildFactoryFailed(name: Name)

  datatype Added = AddedOk | AddKeyError(name: Name) | AddRecursionError | AddFactoryFailed(name: Name)

  /** The `resolved` dictionary of one `build` call; `add_graph` itself looks for neither cycles nor gaps. */
  class EagerConstruction<V(!new)> {
    const factories: Factories<V>
    var resolved: map<Name, V>
    ghost var calls: seq<Name>

    constructor (factories: Factories<V>)
      ensures this.factories == factories && resolved == map[] && calls == []
    {
      this.factories := factories;
      resolved, calls := map[], [];
    }

    ghost predicate Valid()
      reads this
    {
      Construction(factories, calls, resolved)
    }

    /** `depth` more nested calls fit on the interpreter's stack; `stack` holds the enclosing ones. */
    method AddGraph(current: Name, depth: nat, ghost stack: seq<Name>) returns (r: Added)
      requires Valid() && Extends(Needs(factories), stack, current)
      requires stack != [] ==> IsPath(Needs(factories), stack)
      requires forall n :: n in stack ==> n !in resolved
      modifies this
      ensures r.AddedOk? ==> Valid() && current in resolved && old(resolved.Keys) <= resolved.Keys
      ensures r.AddedOk? ==> calls == DepthFirst(factories, Elements(stack), current, old(calls))
      ensures r.AddedOk? ==> forall n :: n in stack ==> n !in resolved
      ensures r.AddKeyError? ==> r.name !in factories && (r.name == current || !Closed(Needs(factories)))
      ensures r.AddFactoryFailed? ==>
        r.name in factories && Refused(factories, r.name) && !Constructible(factories, r.name)
      ensures r.AddRecursionError? && current in factories && Closed(Needs(factories)) && Acyclic(Needs(factories))
        ==> |stack| + depth < |factories|
      decreases depth, 0
    {
      if depth == 0 {
        if current in factories && Acyclic(Needs(factories)) {
          StackIsBounded(stack, current);
        }
        return AddRecursionError;
      }
      if current in resolved {
        return AddedOk;
      }
      if current !in factories {
        return AddKeyError(current);
      }
      PathExtends(Needs(factories), stack, current);
      assert Elements(stack + [current]) == Elements(stack) + {current};
      r := AddDependencies(current, depth - 1, stack + [current]);
      if r.AddedOk? {
        NotOnItsOwnStack(stack, current);
        r := AddComponent(current);
      }
    }

    /** The recursive calls for the dependencies of `current`, where the walk of enclosing calls ends, from left to
        right. */
    method AddDependencies(current: Name, depth: nat, ghost walk: seq<Name>) returns (r: Added)
      requires Valid() && current in factories
      requires walk != [] && walk[|walk| - 1] == current && IsPath(Needs(factories), walk)
      requires forall n :: n in walk ==> n !in resolved
      modifies this
      ensures r.AddedOk? ==> Valid() && old(resolved.Keys) <= resolved.Keys
      ensures r.AddedOk? ==> forall d :: d in factories[current].dependencies ==> d in resolved
      ensures r.AddedOk? ==>
        calls == DepthFirstAll(factories, Elements(walk), factories[current].dependencies, old(calls))
      ensures r.AddedOk? ==> forall n :: n in walk ==> n !in resolved
      ensures r.AddKeyError? ==> r.name !in factories && !Closed(Needs(factories))
      ensures r.AddFactoryFailed? ==>
        r.name in factories && Refused(factories, r.name) && !Constructible(factories, r.name)
      ensures r.AddRecursionError? && Closed(Needs(factories)) && Acyclic(Needs(factories))
        ==> |walk| + depth < |factories|
      decreases depth, 1
    {
      var dependencies := factories[current].dependencies;
      for i := 0 to |dependencies|
        invariant Valid() && old(resolved.Keys) <= resolved.Keys
        invariant calls == DepthFirstAll(factories, Elements(walk), dependencies[..i], old(calls))
        invariant forall n :: n in walk ==> n !in resolved
        invariant Elements(dependencies[..i]) <= resolved.Keys
      {
        NeededNext(walk, current, dependencies[i]);
        DepthFirstNext(factories, Elements(walk), dependencies, i, old(calls));
        r := AddGraph(dependencies[i], depth, walk);
        if !r.AddedOk? {
          return;
        }
        ElementsNext(dependencies, i);
      }
      assert dependencies[..|dependencies|] == dependencies;
      r := AddedOk;
    }

    /** The walk goes on to each dependency; one that is not registered leaves a gap. */
    lemma NeededNext(walk: seq<Name>, current: Name, dependency: Name)
      requires walk != [] && walk[|walk| - 1] == current && current in factories
      requires dependency in factories[current].dependencies
      ensures Extends(Needs(factories), walk, dependency)
      ensures dependency !in factories ==> !Closed(Needs(factories))
    {
      assert Edge(Needs(factories), current, dependency);
    }

    /** Calls the factory on its resolved dependencies and stores what it makes. */
    method AddComponent(name: Name) returns (r: Added)
      requires Valid() && name in factories && name !in resolved
      requires forall d :: d in factories[name].dependencies ==> d in resolved
      modifies this
      ensures r.AddedOk? ==> Valid() && resolved.Keys == old(resolved.Keys) + {name} && calls == old(calls) + [name]
      ensures !r.AddedOk? ==>
        r == AddFactoryFailed(name) && Refused(factories, name) && !Constructible(factories, name)
    {
      match factories[name].Create(Arguments(factories[name].dependencies, resolved)) {
        case None =>
          CreateFails(factories, calls, resolved, name);
          r := AddFactoryFailed(name);
        case Some(component) =>
          ConstructionAppend(factories, calls, resolved, name, component);
          resolved := resolved[name := component];
          calls := calls + [name];
          r := AddedOk;
      }
    }

    /** The loop over the registered names. */
    method AddAll(names: seq<Name>, recursionLimit: nat) returns (r: Added)
      requires Valid() && forall n :: n in names ==> n in factories
      modifies this
      ensures r.AddedOk? ==> Valid() && forall n :: n in names ==> n in resolved
      ensures r.AddedOk? ==> calls == DepthFirstAll(factories, {}, names, old(calls))
      ensures r.AddKeyError? ==> !Closed(Needs(factories))
      ensures r.AddFactoryFailed? ==>
        r.name in factories && Refused(factories, r.name) && !Constructible(factories, r.name)
      ensures r.AddRecursionError? && Closed(Needs(factories)) && Acyclic(Needs(factories))
        ==> recursionLimit < |factories|
    {
      for i := 0 to |names|
        invariant Valid() && forall n :: n in names[..i] ==> n in resolved
        invariant calls == DepthFirstAll(factories, {}, names[..i], old(calls))
      {
        DepthFirstNext(factories, {}, names, i, old(calls));
        assert Elements([]) == {};
        if names[i] !in resolved {
          r := AddGraph(names[i], recursionLimit, []);
          if !r.AddedOk? {
            return;
          }
        }
        assert names[..i + 1] == names[..i] + [names[i]];
      }
      assert names[..|names|] == names;
      r := AddedOk;
    }

    /** Were `current` already being built, the next enclosing call would be for one of its dependencies,
        which are all finished by now. */
    lemma NotOnItsOwnStack(stack: seq<Name>, current: Name)
      requires Extends(Needs(factories), stack, current) && (stack != [] ==> IsPath(Needs(factories), stack))
      requires current in factories && forall n :: n in stack + [current] ==> n !in resolved
      requires forall d :: d in factories[current].dependencies ==> d in resolved
      ensures current !in stack
    {
      var walk := stack + [current];
      PathExtends(Needs(factories), stack, current);
      forall k | 0 <= k < |stack| ensures stack[k] != current {
        assert Edge(Needs(factories), walk[k], walk[k + 1]);
        assert walk[k + 1] in walk;
      }
    }

    lemma StackIsBounded(stack: seq<Name>, current: Name)
      requires Acyclic(Needs(factories)) && Extends(Needs(factories), stack, current) && current in factories
      requires stack != [] ==> IsPath(Needs(factories), stack)
      ensures |stack| < |factories|
    {
      var walk := stack + [current];
      PathExtends(Needs(factories), stack, current);
      AcyclicPathIsDistinct(Needs(factories), walk);
      forall n | n in walk ensures n in factories.Keys {
        var i :| 0 <= i < |walk| && walk[i] == n;
        if i < |stack| {
          assert Edge(Needs(factories), walk[i], walk[i + 1]);
        }
      }
      DistinctWithinBound(walk, factories.Keys);
    }
  }

  /** The ordered `_factories` dictionary, with the two policy flags that steer it. */
  class Registry<V(!new)> {
    const strictValidation: bool
    const allowOverrides: bool
    var names: seq<Name>
    var factories: Factories<V>

    constructor (strictValidation: bool, allowOverrides: bool)
      ensures Valid() && names == [] && factories == map[]
      ensures this.strictValidation == strictValidation && this.allowOverrides == allowOverrides
    {
      this.strictValidation, this.allowOverrides := strictValidation, allowOverrides;
      names, factories := [], map[];
    }

    ghost predicate Valid()
      reads this
    {
      Distinct(names) && forall n :: n in names <==> n in factories
    }

    ghost predicate Sound()
      reads this
    {
      Closed(Needs(factories)) && Acyclic(Needs(factories))
    }

    /** An accepted name is registered last, or replaced in place when overriding is allowed. */
    method Register(name: Name, factory: ComponentFactory<V>) returns (r: Registration)
      requires Valid()
      modifies this
      ensures Valid()
      ensures r == (if IsBlank(name) then BlankName
                    else if name in old(factories) && !allowOverrides then DuplicateName else Registered)
      ensures r != Registered ==> names == old(names) && factories == old(factories)
      ensures r == Registered ==> factories == old(factories)[name := factory]
      ensures r == Registered ==> names == if name in old(factories) then old(names) else old(names) + [name]
    {
      if IsBlank(name) {
        return BlankName;
      }
      if name in factories && !allowOverrides {
        return DuplicateName;
      }
      if name !in factories {
        names := names + [name];
      }
      factories := factories[name := factory];
      return Registered;
    }

    /** Lazy construction succeeds exactly on the constructible components (of a sound graph, when strict),
        and then has called exactly the factories of what the component reaches, once each. */
    method Resolve(name: Name) returns (r: Resolution<V>, ghost calls: seq<Name>, ghost values: map<Name, V>)
      requires Valid()
      ensures r.NotRegistered? <==> name !in factories
      ensures r.Rejected? <==> name in factories && strictValidation && !Sound()
      ensures r.Resolved? <==> (strictValidation ==> Sound()) && Constructible(factories, name)
      ensures r.Resolved? ==> Construction(factories, calls, values) && name in values && values[name] == r.component
      ensures r.Resolved? ==> forall n :: n in calls ==> MadeBy(factories, n, values)
      ensures r.Resolved? ==> calls == DepthFirst(factories, {}, name, [])
      ensures r.Resolved? ==> forall n :: n in calls <==> Reaches(Needs(factories), name, n)
      ensures r.Interrupted? ==> Genuine(factories, name, r.cause)
      ensures r.Interrupted? && strictValidation ==> r.cause.FactoryFailed?
    {
      calls, values := [], map[];
      if name !in factories {
        ConstructibleIsRegistered(factories, name);
        return NotRegistered(name), calls, values;
      }
      if strictValidation {
        var verdict := ValidateFactoryGraph(DeclaredNeeds(), names);
        if !verdict.Accepted? {
          return Rejected(verdict), calls, values;
        }
      }
      var lazy := new LazyConstruction<V>(factories, name);
      assert Elements(lazy.active) == {};
      var obstacle := lazy.Construct(name);
      if obstacle.Some? {
        ObstacleIsFinal(factories, name, obstacle.value);
        return Interrupted(obstacle.value), calls, values;
      }
      calls, values := lazy.calls, lazy.resolved;
      assert Constructible(factories, name);
      forall n | Reaches(Needs(factories), name, n) ensures n in calls {
        TopologicalIsReachClosed(Needs(factories), calls, name, n);
      }
      return Resolved(lazy.resolved[name]), calls, values;
    }

    function DeclaredNeeds(): (g: Graph)
      reads this
      ensures g == Needs(factories)
    {
      map n | n in factories :: factories[n].dependencies
    }

    /** Eager construction succeeds exactly when every component is constructible, calls every factory once
        after all its dependencies, and lists the components in registration order. */
    method Build(recursionLimit: nat) returns (r: BuildResult<V>, ghost calls: seq<Name>)
      requires Valid()
      ensures r.BuildRejected? <==> strictValidation && !Sound()
      ensures r.Built? ==> AllConstructible(factories)
      ensures AllConstructible(factories) && recursionLimit >= |factories| ==> r.Built?
      ensures r.Built? ==> r.order == names && r.components.Keys == factories.Keys
      ensures r.Built? ==> Construction(factories, calls, r.components) && Sound()
      ensures r.Built? ==> forall n :: n in factories ==> MadeBy(factories, n, r.components)
      ensures r.Built? ==> calls == DepthFirstAll(factories, {}, names, [])
      ensures r.KeyError? ==> !Closed(Needs(factories))
      ensures r.RecursionError? ==> !Sound() || recursionLimit < |factories|
      ensures !strictValidation && Closed(Needs(factories)) && !Acyclic(Needs(factories))
        ==> r.RecursionError? || r.BuildFactoryFailed?
      ensures r.BuildFactoryFailed? ==>
        r.name in factories && Refused(factories, r.name) && !Constructible(factories, r.name)
    {
      calls := [];
      if AllConstructible(factories) {
        AllConstructibleIsSound(factories);
      }
      if strictValidation {
        var verdict := ValidateFactoryGraph(DeclaredNeeds(), names);
        if !verdict.Accepted? {
          return BuildRejected(verdict), calls;
        }
      }
      var eager := new EagerConstruction<V>(factories);
      var added := eager.AddAll(names, recursionLimit);
      match added {
        case AddKeyError(n) => return KeyError(n), calls;
        case AddRecursionError => return RecursionError, calls;
        case AddFactoryFailed(n) => return BuildFactoryFailed(n), calls;
        case AddedOk =>
          calls := eager.calls;
          CompleteConstruction(factories, calls, eager.resolved);
          return Built(eager.resolved, names), calls;
      }
    }
  }

  lemma CompleteConstruction<V(!new)>(fs: Factories<V>, calls: seq<Name>, values: map<Name, V>)
    requires Construction(fs, calls, values) && forall n :: n in fs ==> n in values
    ensures values.Keys == fs.Keys && Closed(Needs(fs)) && Acyclic(Needs(fs))
    ensures AllConstructible(fs)
  {
    forall n | n in values ensures n in fs {
      assert MadeBy(fs, n, values);
    }
    TopologicalCoverImpliesAcyclic(Needs(fs), calls);
  }

  datatype Registration = Registered | BlankName | DuplicateName

  /** A resolved component is the very value that an eager build stores under its name. */
  lemma LazyAgreesWithEager<V(!new)>(fs: Factories<V>, lazyCalls: seq<Name>, lazyValues: map<Name, V>,
                               eagerCalls: seq<Name>, components: map<Name, V>, name: Name)
    requires Construction(fs, lazyCalls, lazyValues) && Construction(fs, eagerCalls, components)
    requires name in lazyValues && components.Keys == fs.Keys
    ensures name in components && components[name] == lazyValues[name]
    ensures forall n :: n in lazyValues ==> n in components && components[n] == lazyValues[n]
  {
    forall n | n in lazyValues ensures n in components && components[n] == lazyValues[n] {
      assert MadeBy(fs, n, lazyValues);
      ConstructionsAgreeOn(fs, lazyCalls, lazyValues, eagerCalls, components, n);
    }
  }
}
