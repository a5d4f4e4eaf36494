/** Workflow DAG validation by Kahn's algorithm and the ready-step query (dtq/workflow/dag.py). */
module Dag {
  import opened Graphs

  /** One step of a workflow spec, without fan_out. */
  datatype StepSpec = StepSpec(name: string, task: string, payload: string, dependsOn: seq<string>, maxAttempts: int)

  function StepEdges(step: StepSpec): (es: seq<Edge>)
    ensures |es| == |step.dependsOn|
    ensures forall j :: 0 <= j < |es| ==> es[j] == (step.dependsOn[j], step.name)
  {
    seq(|step.dependsOn|, j requires 0 <= j < |step.dependsOn| => (step.dependsOn[j], step.name))
  }

  /** One edge per listed dependency, repeated ones included. */
  function Edges(steps: seq<StepSpec>): seq<Edge> {
    if steps == [] then [] else Edges(steps[..|steps| - 1]) + StepEdges(steps[|steps| - 1])
  }

  function Names(steps: seq<StepSpec>): set<string> {
    set i | 0 <= i < |steps| :: steps[i].name
  }

  /** What the edges mean in terms of the spec. */
  lemma {:induction false} EdgesAreDependencies(steps: seq<StepSpec>, d: string, n: string)
    ensures (d, n) in Edges(steps) <==>
      exists i :: 0 <= i < |steps| && steps[i].name == n && d in steps[i].dependsOn
  {
    if steps != [] {
      var last := |steps| - 1;
      EdgesAreDependencies(steps[..last], d, n);
      var es := StepEdges(steps[last]);
      assert (d, n) in es <==> steps[last].name == n && d in steps[last].dependsOn by {
        if steps[last].name == n && d in steps[last].dependsOn {
          var j :| 0 <= j < |steps[last].dependsOn| && steps[last].dependsOn[j] == d;
          assert es[j] == (d, n);
        }
      }
      assert forall i :: 0 <= i < last ==> steps[..last][i] == steps[i];
    }
  }

  ghost predicate UnknownDependency(steps: seq<StepSpec>, i: nat, dep: string) {
    i < |steps| && dep in steps[i].dependsOn && dep !in Names(steps)
  }

  datatype Validation =
    | Valid(order: seq<string>)
    | Unknown(step: string, dep: string)
    | Cyclic(remaining: set<string>)

  // ---- counting edges ----

  /** The targets of the edges that leave a node, in order. */
  function Targets(es: seq<Edge>, d: string): seq<string> {
    if es == [] then []
    else Targets(es[..|es| - 1], d) + (if es[|es| - 1].0 == d then [es[|es| - 1].1] else [])
  }

  /** How many edges into n leave a node that is not done. */
  function Open(es: seq<Edge>, n: string, done: set<string>): nat {
    if es == [] then 0
    else Open(es[..|es| - 1], n, done) + (if es[|es| - 1].1 == n && es[|es| - 1].0 !in done then 1 else 0)
  }

  lemma {:induction false} OpenZero(es: seq<Edge>, n: string, done: set<string>)
    ensures Open(es, n, done) == 0 <==> forall d :: (d, n) in es ==> d in done
  {
    if es != [] {
      var last := |es| - 1;
      OpenZero(es[..last], n, done);
      assert es == es[..last] + [es[last]];
      assert es[last] == (es[last].0, es[last].1);
    }
  }

  /** Finishing a node closes exactly its outgoing edges. */
  lemma {:induction false} OpenAfter(es: seq<Edge>, n: string, done: set<string>, v: string)
    requires v !in done
    ensures Open(es, n, done) == Open(es, n, done + {v}) + multiset(Targets(es, v))[n]
  {
    if es != [] { OpenAfter(es[..|es| - 1], n, done, v); }
  }

  lemma {:induction false} TargetsAreNodes(es: seq<Edge>, d: string, n: string)
    requires n in Targets(es, d)
    ensures (d, n) in es
  {
    var last := |es| - 1;
    if es[last] == (d, n) {
    } else {
      TargetsAreNodes(es[..last], d, n);
      assert (d, n) in es[..last];
    }
  }

  // ---- building the graph ----

  function Lookup(graph: map<string, seq<string>>, d: string): seq<string> {
    if d in graph then graph[d] else []
  }

  ghost predicate GraphOf(graph: map<string, seq<string>>, es: seq<Edge>) {
    forall d :: Lookup(graph, d) == Targets(es, d)
  }

  ghost predicate Degrees(inDegree: map<string, int>, all: set<string>, es: seq<Edge>) {
    inDegree.Keys == all && forall n :: n in all ==> inDegree[n] == Open(es, n, {})
  }

  ghost predicate Endpoints(all: set<string>, es: seq<Edge>) {
    forall e :: e in es ==> e.0 in all && e.1 in all
  }

  lemma UnseenHasNoEdges(es: seq<Edge>, all: set<string>, n: string)
    requires Endpoints(all, es) && n !in all
    ensures Open(es, n, {}) == 0
  {
    OpenZero(es, n, {});
  }

  /** What the three containers hold once these edges have been read. */
  ghost predicate Built(graph: map<string, seq<string>>, inDegree: map<string, int>, all: set<string>, es: seq<Edge>) {
    GraphOf(graph, es) && Degrees(inDegree, all, es) && Endpoints(all, es)
  }

  /** in_degree.setdefault(name, 0) and all_names.add(name). */
  method AddName(
    graph: map<string, seq<string>>, inDegree: map<string, int>, all: set<string>, ghost es: seq<Edge>, name: string)
    returns (inDegree': map<string, int>, all': set<string>)
    requires Built(graph, inDegree, all, es)
    ensures Built(graph, inDegree', all', es) && all' == all + {name}
  {
    if name !in all { UnseenHasNoEdges(es, all, name); }
    inDegree' := if name in inDegree then inDegree else inDegree[name := 0];
    all' := all + {name};
  }

  /** graph[dep].append(name) and the counters, for one dependency. */
  method AddEdge(
    graph: map<string, seq<string>>, inDegree: map<string, int>, all: set<string>, ghost es: seq<Edge>,
    dep: string, name: string)
    returns (graph': map<string, seq<string>>, inDegree': map<string, int>, all': set<string>)
    requires Built(graph, inDegree, all, es) && name in all
    ensures Built(graph', inDegree', all', es + [(dep, name)]) && all' == all + {dep}
  {
    ghost var es' := es + [(dep, name)];
    assert es'[..|es|] == es;
    if dep !in all { UnseenHasNoEdges(es, all, dep); }
    graph' := graph[dep := Lookup(graph, dep) + [name]];
    inDegree' := inDegree[name := inDegree[name] + 1];
    if dep !in inDegree' {
      inDegree' := inDegree'[dep := 0];
    }
    all' := all + {dep};
    forall d ensures Lookup(graph', d) == Targets(es', d) {
      assert Lookup(graph, d) == Targets(es, d);
    }
  }

  /** Reading a step adds its name and, at most, its dependencies. */
  ghost predicate Extends(all: set<string>, all': set<string>, step: StepSpec) {
    && all <= all' && step.name in all'
    && forall n :: n in all' ==> n in all || n == step.name || n in step.dependsOn
  }

  lemma ExtendsMore(all: set<string>, all': set<string>, step: StepSpec, dep: string)
    requires Extends(all, all', step) && dep in step.dependsOn
    ensures Extends(all, all' + {dep}, step)
  {
  }

  method AddStep(
    graph: map<string, seq<string>>, inDegree: map<string, int>, all: set<string>, ghost es: seq<Edge>, step: StepSpec)
    returns (graph': map<string, seq<string>>, inDegree': map<string, int>, all': set<string>)
    requires Built(graph, inDegree, all, es)
    ensures Built(graph', inDegree', all', es + StepEdges(step))
    ensures Extends(all, all', step)
  {
    graph' := graph;
    inDegree', all' := AddName(graph, inDegree, all, es, step.name);
    ghost var added := StepEdges(step);
    assert es + added[..0] == es;
    for j := 0 to |step.dependsOn|
      invariant Extends(all, all', step)
      invariant Built(graph', inDegree', all', es + added[..j])
    {
      ghost var sofar := es + added[..j];
      assert es + added[..j + 1] == sofar + [(step.dependsOn[j], step.name)];
      ExtendsMore(all, all', step, step.dependsOn[j]);
      graph', inDegree', all' := AddEdge(graph', inDegree', all', sofar, step.dependsOn[j], step.name);
    }
    assert added[..|step.dependsOn|] == added;
  }

  ghost predicate Mentioned(steps: seq<StepSpec>, upTo: nat, n: string) {
    exists k :: 0 <= k < upTo <= |steps| && (steps[k].name == n || n in steps[k].dependsOn)
  }

  /** Every name so far comes from the steps read so far, and every step's name is there. */
  ghost predicate AllMentioned(steps: seq<StepSpec>, upTo: nat, all: set<string>) {
    && (forall k :: 0 <= k < upTo && k < |steps| ==> steps[k].name in all)
    && (forall n :: n in all ==> Mentioned(steps, upTo, n))
  }

  lemma BuiltEmpty()
    ensures Built(map[], map[], {}, [])
  {
  }

  lemma MentionedNext(steps: seq<StepSpec>, i: nat, known: set<string>, all: set<string>)
    requires i < |steps| && AllMentioned(steps, i, known)
    requires Extends(known, all, steps[i])
    ensures AllMentioned(steps, i + 1, all)
  {
    forall n | n in all ensures Mentioned(steps, i + 1, n) {
      if n in known {
        assert Mentioned(steps, i, n);
      }
    }
  }

  lemma EdgesNext(steps: seq<StepSpec>, i: nat)
    requires i < |steps|
    ensures Edges(steps[..i + 1]) == Edges(steps[..i]) + StepEdges(steps[i])
  {
    assert steps[..i + 1][..i] == steps[..i];
  }

  method BuildGraph(steps: seq<StepSpec>)
    returns (graph: map<string, seq<string>>, inDegree: map<string, int>, all: set<string>)
    ensures Built(graph, inDegree, all, Edges(steps))
    ensures AllMentioned(steps, |steps|, all)
  {
    graph, inDegree, all := map[], map[], {};
    BuiltEmpty();
    for i := 0 to |steps|
      invariant Built(graph, inDegree, all, Edges(steps[..i]))
      invariant AllMentioned(steps, i, all)
    {
      ghost var known := all;
      EdgesNext(steps, i);
      graph, inDegree, all := AddStep(graph, inDegree, all, Edges(steps[..i]), steps[i]);
      MentionedNext(steps, i, known, all);
    }
    assert steps[..|steps|] == steps;
  }

  /** The first unknown dependency in the order of the spec, if there is one. */
  method FindUnknown(steps: seq<StepSpec>) returns (found: bool, step: string, dep: string)
    ensures found ==> exists i: nat :: UnknownDependency(steps, i, dep) && steps[i].name == step
    ensures !found ==> forall k, d :: 0 <= k < |steps| && d in steps[k].dependsOn ==> d in Names(steps)
  {
    found, step, dep := false, "", "";
    var names := Names(steps);
    for i := 0 to |steps|
      invariant forall k, d :: 0 <= k < i && d in steps[k].dependsOn ==> d in names
    {
      for j := 0 to |steps[i].dependsOn|
        invariant forall l :: 0 <= l < j ==> steps[i].dependsOn[l] in names
      {
        if steps[i].dependsOn[j] !in names {
          assert UnknownDependency(steps, i, steps[i].dependsOn[j]);
          return true, steps[i].name, steps[i].dependsOn[j];
        }
      }
    }
  }

  // ---- Kahn's algorithm ----

  /** The queue and the order list, without repetition, exactly the nodes whose counter is 0. */
  ghost predicate Listed(listed: seq<string>, inDegree: map<string, int>) {
    && NoDup(listed)
    && (forall n :: n in listed ==> n in inDegree)
    && (forall n :: n in inDegree ==> (n in listed <==> inDegree[n] == 0))
  }

  /** The counters count the edges from nodes not yet in the order. */
  ghost predicate Counted(inDegree: map<string, int>, es: seq<Edge>, order: seq<string>) {
    forall n :: n in inDegree ==> inDegree[n] == Open(es, n, Elems(order))
  }

  /** Nodes without dependencies, in whatever order the set is iterated. */
  method InitialQueue(all: set<string>, inDegree: map<string, int>) returns (queue: seq<string>)
    requires inDegree.Keys == all
    ensures Listed(queue, inDegree)
  {
    queue := [];
    var rest := all;
    while rest != {}
      invariant rest <= all && NoDup(queue)
      invariant forall n :: n in queue <==> n in all - rest && inDegree[n] == 0
    {
      var name :| name in rest;
      if inDegree[name] == 0 {
        queue := queue + [name];
      }
      rest := rest - {name};
    }
  }

  /** The inner loop: one decrement per edge out of the node just taken, and a node is queued when
      its last edge closes. */
  method CloseEdges(targets: seq<string>, inDegree: map<string, int>, queue: seq<string>, ghost order: seq<string>)
    returns (inDegree': map<string, int>, queue': seq<string>)
    requires Listed(order + queue, inDegree)
    requires forall n :: n in targets ==> n in inDegree
    requires forall n :: n in inDegree ==> inDegree[n] >= multiset(targets)[n]
    ensures inDegree'.Keys == inDegree.Keys
    ensures forall n :: n in inDegree ==> inDegree'[n] == inDegree[n] - multiset(targets)[n]
    ensures Listed(order + queue', inDegree')
  {
    inDegree', queue' := inDegree, queue;
    for j := 0 to |targets|
      invariant inDegree'.Keys == inDegree.Keys
      invariant forall n :: n in inDegree ==> inDegree'[n] == inDegree[n] - multiset(targets[..j])[n]
      invariant Listed(order + queue', inDegree')
    {
      var next := targets[j];
      CountNext(targets, j);
      inDegree' := inDegree'[next := inDegree'[next] - 1];
      if inDegree'[next] == 0 {
        assert order + (queue' + [next]) == (order + queue') + [next];
        queue' := queue' + [next];
      }
    }
    assert targets[..|targets|] == targets;
  }

  lemma CountNext(xs: seq<string>, j: nat)
    requires j < |xs|
    ensures multiset(xs[..j + 1]) == multiset(xs[..j])[xs[j] := multiset(xs[..j])[xs[j]] + 1]
    ensures multiset(xs[..j])[xs[j]] < multiset(xs)[xs[j]]
  {
    assert xs[..j + 1] == xs[..j] + [xs[j]];
    assert xs == xs[..j + 1] + xs[j + 1..];
  }

  lemma TakeNode(es: seq<Edge>, inDegree: map<string, int>, order: seq<string>, queue: seq<string>)
    requires queue != [] && Listed(order + queue, inDegree) && Counted(inDegree, es, order)
    requires DependenciesFirst(es, order)
    ensures (order + [queue[0]]) + queue[1..] == order + queue
    ensures DependenciesFirst(es, order + [queue[0]])
    ensures Elems(order + [queue[0]]) == Elems(order) + {queue[0]}
    ensures forall n :: n in inDegree ==>
      inDegree[n] == Open(es, n, Elems(order + [queue[0]])) + multiset(Targets(es, queue[0]))[n]
  {
    var node, order' := queue[0], order + [queue[0]];
    assert order' + queue[1..] == order + queue;
    assert (order + queue)[|order|] == node;
    assert node in order + queue;
    assert node !in order by {
      forall i | 0 <= i < |order| ensures order[i] != node { assert (order + queue)[i] == order[i]; }
    }
    assert Elems(order') == Elems(order) + {node};
    forall n | n in inDegree
      ensures inDegree[n] == Open(es, n, Elems(order')) + multiset(Targets(es, node))[n]
    {
      OpenAfter(es, n, Elems(order), node);
    }
    OpenZero(es, node, Elems(order));
    forall d, i | 0 <= i < |order'| && (d, order'[i]) in es ensures d in order'[..i] {
      if i < |order| {
        assert order'[..i] == order[..i];
      } else {
        assert order'[..i] == order;
      }
    }
  }

  /** The main loop.  What it leaves over waits for itself. */
  method Kahn(graph: map<string, seq<string>>, degrees: map<string, int>, all: set<string>, ghost es: seq<Edge>)
    returns (order: seq<string>)
    requires Built(graph, degrees, all, es)
    ensures NoDup(order) && Elems(order) <= all && DependenciesFirst(es, order)
    ensures Stuck(es, all - Elems(order))
  {
    var inDegree := degrees;
    var queue := InitialQueue(all, inDegree);
    order := [];
    assert order + queue == queue;
    assert Elems(order) == {};
    while queue != []
      invariant inDegree.Keys == all
      invariant Listed(order + queue, inDegree) && Counted(inDegree, es, order)
      invariant DependenciesFirst(es, order)
      decreases |all| - |order|
    {
      TakeNode(es, inDegree, order, queue);
      OrderFits(order + queue, all);
      var node := queue[0];
      queue := queue[1..];
      order := order + [node];
      assert Lookup(graph, node) == Targets(es, node);
      forall n | n in Targets(es, node) ensures n in inDegree { TargetsAreNodes(es, node, n); }
      inDegree, queue := CloseEdges(Lookup(graph, node), inDegree, queue, order);
    }
    assert order + queue == order;
    LeftoverIsStuck(es, all, inDegree, order);
  }

  lemma OrderFits(listed: seq<string>, all: set<string>)
    requires NoDup(listed) && forall n :: n in listed ==> n in all
    ensures |listed| <= |all|
  {
    NoDupSize(listed);
    SubsetSize(Elems(listed), all);
  }

  lemma LeftoverIsStuck(es: seq<Edge>, all: set<string>, inDegree: map<string, int>, order: seq<string>)
    requires inDegree.Keys == all && Endpoints(all, es)
    requires Listed(order, inDegree) && Counted(inDegree, es, order)
    ensures Stuck(es, all - Elems(order))
  {
    forall n | n in all - Elems(order) ensures HasPredecessor(es, all - Elems(order), n) {
      OpenZero(es, n, Elems(order));
      var d :| (d, n) in es && d !in Elems(order);
    }
  }

  /** validate_dag.  It succeeds exactly on specs whose dependencies are all known and free of
      cycles, with a topological order of the distinct step names; on a cycle it reports exactly the
      steps that lie on a cycle or downstream of one. */
  method ValidateDag(steps: seq<StepSpec>) returns (r: Validation)
    ensures r.Unknown? <==> exists i: nat, d :: UnknownDependency(steps, i, d)
    ensures r.Unknown? ==> exists i: nat :: UnknownDependency(steps, i, r.dep) && steps[i].name == r.step
    ensures r.Valid? ==> Acyclic(Edges(steps)) && IsTopologicalOrder(Edges(steps), Names(steps), r.order)
    ensures r.Cyclic? ==> !Acyclic(Edges(steps)) && r.remaining != {}
    ensures r.Cyclic? ==> forall n :: n in r.remaining <==> n in Names(steps) && Tainted(Edges(steps), n)
  {
    ghost var es := Edges(steps);
    var graph, inDegree, all := BuildGraph(steps);
    var found, step, dep := FindUnknown(steps);
    if found {
      return Unknown(step, dep);
    }
    AllAreNames(steps, all);
    var order := Kahn(graph, inDegree, all, es);
    NoDupSize(order);
    SubsetSize(Elems(order), all);
    if |order| != |all| {
      var remaining := all - Elems(order);
      assert Elems(order) != all;
      RemainingIsTainted(es, all, order);
      return Cyclic(remaining);
    }
    FullOrderMeansAcyclic(es, all, order);
    return Valid(order);
  }

  lemma AllAreNames(steps: seq<StepSpec>, all: set<string>)
    requires AllMentioned(steps, |steps|, all)
    requires forall k, d :: 0 <= k < |steps| && d in steps[k].dependsOn ==> d in Names(steps)
    ensures all == Names(steps)
    ensures !exists i: nat, d :: UnknownDependency(steps, i, d)
  {
    forall n | n in all ensures n in Names(steps) {
      assert Mentioned(steps, |steps|, n);
    }
  }

  lemma RemainingIsTainted(es: seq<Edge>, all: set<string>, order: seq<string>)
    requires NoDup(order) && Elems(order) <= all && Elems(order) != all && DependenciesFirst(es, order)
    requires Stuck(es, all - Elems(order))
    ensures forall n :: n in all - Elems(order) <==> n in all && Tainted(es, n)
    ensures !Acyclic(es)
  {
    forall n | n in all ensures n in all - Elems(order) <==> Tainted(es, n) {
      if n in Elems(order) {
        OrderedMeansUntainted(es, order, n);
      } else {
        StuckMeansTainted(es, all - Elems(order), n);
      }
    }
    var n :| n in all - Elems(order);
    assert Tainted(es, n);
    var p :| Path(es, p) && p[|p| - 1] == n && OnCycle(es, p[0]);
  }

  lemma FullOrderMeansAcyclic(es: seq<Edge>, all: set<string>, order: seq<string>)
    requires NoDup(order) && Elems(order) == all && DependenciesFirst(es, order) && Endpoints(all, es)
    ensures Acyclic(es)
  {
    forall n ensures !OnCycle(es, n) {
      if OnCycle(es, n) {
        CycleNodesAreTainted(es, n);
        OrderedMeansUntainted(es, order, n);
      }
    }
  }

  // ---- ready steps ----

  predicate IsReady(step: StepSpec, completed: set<string>) {
    step.name !in completed && forall d :: d in step.dependsOn ==> d in completed
  }

  /** The steps that are not completed and have only completed dependencies, in spec order. */
  function ReadySteps(steps: seq<StepSpec>, completed: set<string>): seq<StepSpec> {
    if steps == [] then []
    else ReadySteps(steps[..|steps| - 1], completed) +
         (if IsReady(steps[|steps| - 1], completed) then [steps[|steps| - 1]] else [])
  }

  method GetReadySteps(steps: seq<StepSpec>, completed: set<string>) returns (ready: seq<StepSpec>)
    ensures ready == ReadySteps(steps, completed)
    ensures forall x :: x in ready <==> x in steps && IsReady(x, completed)
  {
    ready := [];
    for i := 0 to |steps|
      invariant ready == ReadySteps(steps[..i], completed)
      invariant forall x :: x in ready <==> x in steps[..i] && IsReady(x, completed)
    {
      assert steps[..i + 1][..i] == steps[..i];
      if steps[i].name in completed {
        continue;
      }
      var allDone := true;
      for j := 0 to |steps[i].dependsOn|
        invariant allDone <==> forall k :: 0 <= k < j ==> steps[i].dependsOn[k] in completed
      {
        allDone := allDone && steps[i].dependsOn[j] in completed;
      }
      if allDone {
        ready := ready + [steps[i]];
      }
    }
    assert steps[..|steps|] == steps;
  }
}
